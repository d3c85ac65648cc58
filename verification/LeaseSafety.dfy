/** What ties leases to devices, accounts and usage records, and why each command keeps it. */
module LeaseSafety {
  import opened Collections
  import opened Tables
  import opened LeaseTable
  import opened Activation
  import opened ModelPool
  import opened Leasing
  import opened Progress

  /** An active lease names an active device held by the lease's user for the lease's product. */
  predicate DeviceServes(lease: Lease, devices: map<string, Device>) {
    && lease.deviceId in devices
    && devices[lease.deviceId].status == DeviceActive
    && devices[lease.deviceId].owner == Some(lease.userId)
    && devices[lease.deviceId].product == lease.product
  }

  ghost predicate OnActiveDevices(leases: map<string, Lease>, devices: map<string, Device>) {
    forall id :: id in leases && leases[id].status == LeaseActive ==> DeviceServes(leases[id], devices)
  }

  /** Every lease, ended or not, names an existing account of its product. */
  ghost predicate OnAccounts(leases: map<string, Lease>, accounts: map<string, Account>) {
    forall id :: id in leases ==>
      leases[id].accountId in accounts && accounts[leases[id].accountId].product == leases[id].product
  }

  /** No account carries more active leases than its limit, and a disabled one carries none. */
  ghost predicate WithinLimits(leases: map<string, Lease>, accounts: map<string, Account>) {
    forall a :: a in accounts ==>
      && ActiveCount(leases, a) <= accounts[a].concurrencyLimit
      && (accounts[a].status == AccountDisabled ==> ActiveCount(leases, a) == 0)
  }

  /** Each call is recorded once, under an existing lease of its product. */
  ghost predicate RecordedOnce(usage: map<string, Usage>, leases: map<string, Lease>) {
    && (forall u :: u in usage ==> usage[u].leaseId in leases && usage[u].product == leases[usage[u].leaseId].product)
    && (forall u, v :: u in usage && v in usage && SameCall(usage[u], usage[v].leaseId, usage[v].clientCallId) ==>
        u == v)
  }

  ghost predicate PoolSound(pool: Pool) {
    && OnAccounts(pool.leases, pool.accounts)
    && WithinLimits(pool.leases, pool.accounts)
    && RecordedOnce(pool.usage, pool.leases)
  }

  // --- ending leases -------------------------------------------------------------------------------------

  lemma EndingKeepsPool(pool: Pool, leases': map<string, Lease>)
    requires PoolSound(pool) && OnlyEnds(pool.leases, leases')
    ensures PoolSound(pool.(leases := leases'))
  {
    forall a | a in pool.accounts ensures ActiveCount(leases', a) <= ActiveCount(pool.leases, a) {
      EndingLowersCount(pool.leases, leases', a);
    }
  }

  lemma EndingKeepsDevices(leases: map<string, Lease>, leases': map<string, Lease>, devices: map<string, Device>)
    requires OnActiveDevices(leases, devices) && OnlyEnds(leases, leases')
    ensures OnActiveDevices(leases', devices)
  {
  }

  /** After the release no lease holds the device, because all of a device's leases are of its own product. */
  lemma ReleaseFreesDevice(
    leases: map<string, Lease>, devices: map<string, Device>, deviceId: string, now: int, product: Product)
    requires OnActiveDevices(leases, devices)
    requires deviceId in devices && devices[deviceId].product == product
    ensures forall id :: id in leases && leases[id].deviceId == deviceId ==>
              ReleaseForDevice(leases, deviceId, now, product)[id].status != LeaseActive
  {
  }

  // --- device commands -----------------------------------------------------------------------------------

  lemma DeviceEditKeeps(leases: map<string, Lease>, devices: map<string, Device>, deviceId: string, d: Device)
    requires OnActiveDevices(leases, devices)
    requires deviceId in devices && devices[deviceId].status == DeviceActive ==>
               d.status == DeviceActive && d.owner == devices[deviceId].owner && d.product == devices[deviceId].product
    ensures OnActiveDevices(leases, devices[deviceId := d])
  {
  }

  lemma RetiredDeviceKeeps(
    leases: map<string, Lease>, devices: map<string, Device>, deviceId: string, now: int, product: Product, d: Device)
    requires OnActiveDevices(leases, devices)
    requires deviceId in devices && devices[deviceId].product == product
    ensures OnActiveDevices(ReleaseForDevice(leases, deviceId, now, product), devices[deviceId := d])
  {
    ReleaseFreesDevice(leases, devices, deviceId, now, product);
    ReleaseOnlyEnds(leases, deviceId, now, product);
  }

  lemma ActivateKeepsDevices(s: State, now: int, key: string, userId: string, input: ActivateInput)
    requires OnActiveDevices(s.pool.leases, s.grants.devices)
    ensures var t := Activate(s, now, key, userId, input).0; OnActiveDevices(t.pool.leases, t.grants.devices)
  {
    if ActivateVerdict(s, key, userId, input).Proceed? {
      var g := s.grants;
      if Covered(g, now, userId, input) {
        DeviceEditKeeps(s.pool.leases, g.devices, input.deviceId, ReRegistered(g, input));
      } else {
        ChoiceIsEarliest(g.codes, userId, input.product, now);
        var choice := SelectCode(g.codes, userId, input.product, now);
        if choice.Chosen? {
          DeviceEditKeeps(s.pool.leases, g.devices, input.deviceId,
              Activated(now, userId, input, g.codes[choice.codeId]));
        }
      }
    }
  }

  lemma DisableKeepsDevices(s: State, now: int, product: Product, key: string, deviceId: string)
    requires OnActiveDevices(s.pool.leases, s.grants.devices) && PoolSound(s.pool)
    ensures var t := DisableDevice(s, now, product, key, deviceId).0;
            OnActiveDevices(t.pool.leases, t.grants.devices) && PoolSound(t.pool)
  {
    hide PoolSound, OnActiveDevices;
    var verdict := DeviceVerdict(s, DisableDeviceScope(deviceId, key, product), product, key, deviceId);
    if !verdict.Reject? {
      FreedKeeps(s, now, product, deviceId);
      RetiredDeviceKeeps(s.pool.leases, s.grants.devices, deviceId, now, product,
          s.grants.devices[deviceId].(status := DeviceDisabled));
    }
  }

  lemma UnbindKeepsDevices(s: State, now: int, product: Product, key: string, deviceId: string)
    requires OnActiveDevices(s.pool.leases, s.grants.devices) && PoolSound(s.pool)
    ensures var t := UnbindDevice(s, now, product, key, deviceId).0;
            OnActiveDevices(t.pool.leases, t.grants.devices) && PoolSound(t.pool)
  {
    hide PoolSound, OnActiveDevices;
    var verdict := DeviceVerdict(s, UnbindScope(deviceId, key, product), product, key, deviceId);
    if !verdict.Reject? {
      FreedKeeps(s, now, product, deviceId);
      RetiredDeviceKeeps(s.pool.leases, s.grants.devices, deviceId, now, product, Unbound(s.grants.devices[deviceId]));
    }
  }

  lemma FreedKeeps(s: State, now: int, product: Product, deviceId: string)
    requires OnActiveDevices(s.pool.leases, s.grants.devices) && PoolSound(s.pool)
    ensures PoolSound(Freed(s.pool, deviceId, now, product))
    ensures OnActiveDevices(Freed(s.pool, deviceId, now, product).leases, s.grants.devices)
  {
    ReleaseOnlyEnds(s.pool.leases, deviceId, now, product);
    EndingKeepsPool(s.pool, ReleaseForDevice(s.pool.leases, deviceId, now, product));
    EndingKeepsDevices(s.pool.leases, ReleaseForDevice(s.pool.leases, deviceId, now, product), s.grants.devices);
  }

  // --- account commands ----------------------------------------------------------------------------------

  lemma SweptKeeps(pool: Pool, devices: map<string, Device>, now: int, product: Option<Product>)
    requires PoolSound(pool) && OnActiveDevices(pool.leases, devices)
    ensures PoolSound(SweptPool(pool, now, product))
    ensures OnActiveDevices(SweptPool(pool, now, product).leases, devices)
  {
    SweepOnlyEnds(pool.leases, now, product);
    EndingKeepsPool(pool, Sweep(pool.leases, now, product));
    EndingKeepsDevices(pool.leases, Sweep(pool.leases, now, product), devices);
  }

  /** An account may be rewritten in place; a new limit must cover its leases, and a busy account stays enabled. */
  lemma AccountEditKeeps(pool: Pool, id: string, a: Account)
    requires PoolSound(pool) && id in pool.accounts
    requires a.product == pool.accounts[id].product
    requires a.concurrencyLimit == pool.accounts[id].concurrencyLimit
              || ActiveCount(pool.leases, id) <= a.concurrencyLimit
    requires a.status == AccountDisabled ==>
              pool.accounts[id].status == AccountDisabled || ActiveCount(pool.leases, id) == 0
    ensures PoolSound(pool.(accounts := pool.accounts[id := a]))
  {
  }

  lemma NewAccountKeeps(pool: Pool, id: string, a: Account)
    requires PoolSound(pool) && id !in pool.accounts
    ensures PoolSound(pool.(accounts := pool.accounts[id := a]))
  {
    CountZero(pool.leases, id);
  }

  lemma CreateAccountKeeps(
    s: State, product: Product, key: string, input: AccountInput, urlAccepted: bool, stored: bool)
    requires PoolSound(s.pool) && Issued(s.pool.accounts.Keys, "mpa", Counter(s.ledger, "mpa"))
    ensures PoolSound(CreateAccount(s, product, key, input, urlAccepted, stored).0.pool)
  {
    hide PoolSound, OnActiveDevices;
    if CreateAccountVerdict(s, product, key, input, urlAccepted).Proceed? && stored {
      var id := NextId(s.ledger, "mpa");
      NextIdFresh(s.pool.accounts.Keys, "mpa", Counter(s.ledger, "mpa"));
      NewAccountKeeps(s.pool, id, NewAccount(id, product, input));
    }
  }

  lemma UpdateAccountKeeps(
    s: State, now: int, product: Product, key: string, accountId: string, edit: AccountEdit, urlAccepted: bool)
    requires PoolSound(s.pool) && OnActiveDevices(s.pool.leases, s.grants.devices)
    ensures var t := UpdateAccount(s, now, product, key, accountId, edit, urlAccepted).0;
            PoolSound(t.pool) && OnActiveDevices(t.pool.leases, s.grants.devices)
  {
    hide PoolSound, OnActiveDevices;
    SweptKeeps(s.pool, s.grants.devices, now, Some(product));
    if UpdateAccountVerdict(s, product, key, accountId, edit, urlAccepted).Proceed? {
      var swept := SweptPool(s.pool, now, Some(product));
      if EditRefusal(swept, product, accountId, edit).None? {
        AccountEditKeeps(swept, accountId, Edited(swept.accounts[accountId], edit));
      }
    }
  }

  lemma DisableAccountKeeps(s: State, now: int, product: Product, key: string, accountId: string)
    requires PoolSound(s.pool) && OnActiveDevices(s.pool.leases, s.grants.devices)
    ensures var t := DisableAccount(s, now, product, key, accountId).0;
            PoolSound(t.pool) && OnActiveDevices(t.pool.leases, s.grants.devices)
  {
    hide PoolSound, OnActiveDevices;
    SweptKeeps(s.pool, s.grants.devices, now, Some(product));
    var swept := SweptPool(s.pool, now, Some(product));
    if accountId in swept.accounts && ActiveCount(swept.leases, accountId) == 0 {
      AccountEditKeeps(swept, accountId, swept.accounts[accountId].(status := AccountDisabled));
    }
  }

  lemma RefreshOnlyStatus(a: Account, used: nat, latest: Option<TestResult>, now: int)
    ensures var b := RefreshedAccount(a, used, latest, now);
            && b == a.(status := b.status, cooldownUntil := b.cooldownUntil)
            && (b.status == AccountDisabled <==> a.status == AccountDisabled)
  {
  }

  lemma RefreshedKeeps(pool: Pool, order: seq<string>, now: int)
    requires PoolSound(pool)
    ensures PoolSound(pool.(accounts := RefreshedAccounts(pool, order, now)))
  {
    hide RefreshedAccount, ActiveCount, AccountDayTotal;
    var accounts' := RefreshedAccounts(pool, order, now);
    forall a | a in pool.accounts
      ensures accounts'[a].product == pool.accounts[a].product
      ensures accounts'[a].concurrencyLimit == pool.accounts[a].concurrencyLimit
      ensures accounts'[a].status == AccountDisabled <==> pool.accounts[a].status == AccountDisabled
    {
      RefreshOnlyStatus(pool.accounts[a], UsedToday(pool, a, now), LatestAlong(order, pool.tests, a), now);
    }
  }

  lemma ListAccountsKeeps(s: State, now: int, order: seq<string>)
    requires PoolSound(s.pool) && OnActiveDevices(s.pool.leases, s.grants.devices)
    ensures var t := ListAccounts(s, now, order); PoolSound(t.pool) && OnActiveDevices(t.pool.leases, s.grants.devices)
  {
    hide PoolSound, OnActiveDevices;
    SweptKeeps(s.pool, s.grants.devices, now, None);
    RefreshedKeeps(SweptPool(s.pool, now, None), order, now);
  }

  lemma RecordTestKeeps(
    s: State, product: Product, key: string, accountId: string, timeoutSeconds: int, result: TestResult)
    requires PoolSound(s.pool)
    ensures PoolSound(RecordTest(s, product, key, accountId, timeoutSeconds, result).0.pool)
  {
    hide OnAccounts, WithinLimits, RecordedOnce;
    if accountId in s.pool.accounts {
      AccountEditKeeps(s.pool, accountId, Probed(s.pool.accounts[accountId], result));
    }
  }

  // --- lease commands ------------------------------------------------------------------------------------

  lemma NewLeaseCount(leases: map<string, Lease>, id: string, lease: Lease, accountId: string)
    requires id !in leases && lease.status == LeaseActive
    ensures ActiveCount(leases[id := lease], accountId)
              == ActiveCount(leases, accountId) + (if accountId == lease.accountId then 1 else 0)
  {
    SumUpdate(leases, ActiveOn(accountId), id, lease);
  }

  lemma NewLeaseKeepsPool(pool: Pool, id: string, lease: Lease)
    requires PoolSound(pool) && id !in pool.leases && lease.status == LeaseActive
    requires lease.accountId in pool.accounts && pool.accounts[lease.accountId].product == lease.product
    requires pool.accounts[lease.accountId].status != AccountDisabled && HasRoom(pool, lease.accountId)
    ensures PoolSound(pool.(leases := pool.leases[id := lease]))
  {
    hide ActiveCount;
    forall a | a in pool.accounts
      ensures ActiveCount(pool.leases[id := lease], a)
                == ActiveCount(pool.leases, a) + (if a == lease.accountId then 1 else 0)
    {
      NewLeaseCount(pool.leases, id, lease, a);
    }
  }

  lemma NewLeaseKeepsDevices(leases: map<string, Lease>, devices: map<string, Device>, id: string, lease: Lease)
    requires OnActiveDevices(leases, devices) && DeviceServes(lease, devices)
    ensures OnActiveDevices(leases[id := lease], devices)
  {
  }

  lemma AllocateKeeps(
    t: State, now: int, product: Product, key: string, userId: string, deviceId: string, input: LeaseInput,
    order: seq<string>, secretFound: bool)
    requires PoolSound(t.pool) && OnActiveDevices(t.pool.leases, t.grants.devices)
    requires Issued(t.pool.leases.Keys, "lease", Counter(t.ledger, "lease"))
    requires Gate(t, userId, deviceId, product).None?
    ensures var u := Allocate(t, now, product, key, userId, deviceId, input, order, secretFound).0;
            PoolSound(u.pool) && OnActiveDevices(u.pool.leases, t.grants.devices)
  {
    hide RefreshedAccount, LatestAlong, UsedToday, PoolSound, OnActiveDevices;
    var pool := t.pool.(accounts := RefreshedAccounts(t.pool, order, now));
    RefreshedKeeps(t.pool, order, now);
    SelectedIsBest(pool, product, input.provider, input.model, now);
    var choice := SelectAccount(pool, product, input.provider, input.model, now);
    if choice.Some? && secretFound {
      var id := NextId(t.ledger, "lease");
      NextIdFresh(t.pool.leases.Keys, "lease", Counter(t.ledger, "lease"));
      var lease := NewLease(pool.accounts[choice.value], choice.value, now, product, userId, deviceId, input);
      NewLeaseKeepsPool(pool, id, lease);
      NewLeaseKeepsDevices(pool.leases, t.grants.devices, id, lease);
    }
  }

  lemma CreateLeaseKeeps(
    s: State, now: int, product: Product, key: string, userId: string, deviceId: string, raw: LeaseInput,
    order: seq<string>, secretFound: bool)
    requires PoolSound(s.pool) && OnActiveDevices(s.pool.leases, s.grants.devices)
    requires Issued(s.pool.leases.Keys, "lease", Counter(s.ledger, "lease"))
    ensures var t := CreateLease(s, now, product, key, userId, deviceId, raw, order, secretFound).0;
            PoolSound(t.pool) && OnActiveDevices(t.pool.leases, s.grants.devices)
  {
    hide Sweep, Allocate, PolicyRefusal, ValidLeaseInput, ValidKey, PoolSound, OnActiveDevices;
    if Gate(s, userId, deviceId, product).None? {
      SweptKeeps(s.pool, s.grants.devices, now, Some(product));
      var t := s.(pool := SweptPool(s.pool, now, Some(product)));
      assert t.pool.leases.Keys == s.pool.leases.Keys;
      AllocateKeeps(t, now, product, key, userId, deviceId, LeaseDefaults(raw), order, secretFound);
    }
  }

  /** Changing when an active lease expires changes nothing else. */
  lemma ExtensionKeeps(pool: Pool, devices: map<string, Device>, id: string, expiresAt: int)
    requires PoolSound(pool) && OnActiveDevices(pool.leases, devices) && id in pool.leases
    ensures var leases' := pool.leases[id := pool.leases[id].(expiresAt := expiresAt)];
            PoolSound(pool.(leases := leases')) && OnActiveDevices(leases', devices)
  {
    var leases' := pool.leases[id := pool.leases[id].(expiresAt := expiresAt)];
    forall a | a in pool.accounts ensures ActiveCount(leases', a) == ActiveCount(pool.leases, a) {
      SumSame(leases', ActiveOn(a), pool.leases, ActiveOn(a));
    }
  }

  lemma RenewKeeps(
    s: State, now: int, product: Product, key: string, userId: string, deviceId: string, leaseId: string,
    rawExtend: int)
    requires PoolSound(s.pool) && OnActiveDevices(s.pool.leases, s.grants.devices)
    ensures var t := RenewLease(s, now, product, key, userId, deviceId, leaseId, rawExtend).0;
            PoolSound(t.pool) && OnActiveDevices(t.pool.leases, s.grants.devices)
  {
    hide PoolSound, OnActiveDevices;
    SweptKeeps(s.pool, s.grants.devices, now, Some(product));
    var pool := SweptPool(s.pool, now, Some(product));
    if leaseId in pool.leases {
      ExtensionKeeps(pool, s.grants.devices, leaseId, pool.leases[leaseId].expiresAt + ExtensionOf(rawExtend));
    }
  }

  lemma ReleaseKeeps(
    s: State, now: int, product: Product, key: string, userId: string, deviceId: string, leaseId: string,
    rawReason: string)
    requires PoolSound(s.pool) && OnActiveDevices(s.pool.leases, s.grants.devices)
    ensures var t := ReleaseLease(s, now, product, key, userId, deviceId, leaseId, rawReason).0;
            PoolSound(t.pool) && OnActiveDevices(t.pool.leases, s.grants.devices)
  {
    hide PoolSound, OnActiveDevices, Sweep, Closed, OnlyEnds;
    SweptKeeps(s.pool, s.grants.devices, now, Some(product));
    var pool := SweptPool(s.pool, now, Some(product));
    ClosingOnlyEnds(pool.leases, leaseId, now);
    EndingKeepsPool(pool, Closed(pool.leases, leaseId, now));
    EndingKeepsDevices(pool.leases, Closed(pool.leases, leaseId, now), s.grants.devices);
  }

  lemma ReclaimKeeps(s: State, now: int, product: Product, key: string, leaseId: string, rawReason: string)
    requires PoolSound(s.pool) && OnActiveDevices(s.pool.leases, s.grants.devices)
    ensures var t := ReclaimLease(s, now, product, key, leaseId, rawReason).0;
            PoolSound(t.pool) && OnActiveDevices(t.pool.leases, s.grants.devices)
  {
    hide PoolSound, OnActiveDevices, Sweep, Reclaimed, OnlyEnds;
    SweptKeeps(s.pool, s.grants.devices, now, None);
    if leaseId in s.pool.leases {
      ReclaimOnlyEnds(s.pool.leases, leaseId, now);
      EndingKeepsPool(s.pool, Reclaimed(s.pool.leases, leaseId, now));
      EndingKeepsDevices(s.pool.leases, Reclaimed(s.pool.leases, leaseId, now), s.grants.devices);
    }
  }

  lemma NewUsageKeeps(pool: Pool, id: string, u: Usage)
    requires PoolSound(pool) && id !in pool.usage
    requires u.leaseId in pool.leases && u.product == pool.leases[u.leaseId].product
    requires !Recorded(pool.usage, u.leaseId, u.clientCallId)
    ensures PoolSound(pool.(usage := pool.usage[id := u]))
  {
  }

  lemma RecordUsageKeeps(
    s: State, now: int, product: Product, key: string, userId: string, deviceId: string, requestId: string,
    raw: CallInput)
    requires PoolSound(s.pool) && Issued(s.pool.usage.Keys, "usage", Counter(s.ledger, "usage"))
    ensures var t := RecordUsage(s, now, product, key, userId, deviceId, requestId, raw).0;
            PoolSound(t.pool) && t.pool.leases == s.pool.leases
  {
    hide Recorded, OverQuota, PoolSound, OnActiveDevices;
    if ValidCall(raw) {
      var input := WithTotal(raw);
      if UsageRefusal(s, product, userId, deviceId, input).None?
          && !Recorded(s.pool.usage, input.leaseId, input.clientCallId) {
        var id := NextId(s.ledger, "usage");
        NextIdFresh(s.pool.usage.Keys, "usage", Counter(s.ledger, "usage"));
        var u := Usage(product, input.leaseId, input.clientCallId, Trim(requestId), CallOf(input), now);
        NewUsageKeeps(s.pool, id, u);
        var pool := s.pool.(usage := s.pool.usage[id := u]);
        var accountId := s.pool.leases[input.leaseId].accountId;
        if accountId in pool.accounts {
          AccountEditKeeps(pool, accountId, pool.accounts[accountId].(status := Exhausted));
        }
      }
    }
  }
}
