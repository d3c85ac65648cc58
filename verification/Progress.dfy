/** What one command can and cannot change: identifiers are only added, ended things stay ended, records stay put. */
module Progress {
  import opened Collections
  import opened Tables
  import opened LeaseTable
  import opened Activation
  import opened ModelPool
  import opened Leasing

  /** Every generated identifier was drawn from its counter, so the next draw is new. */
  ghost predicate Numbered(s: State) {
    && Issued(s.grants.codes.Keys, "ac", Counter(s.ledger, "ac"))
    && Issued(s.pool.accounts.Keys, "mpa", Counter(s.ledger, "mpa"))
    && Issued(s.pool.leases.Keys, "lease", Counter(s.ledger, "lease"))
    && Issued(s.pool.usage.Keys, "usage", Counter(s.ledger, "usage"))
    && Issued(s.pool.tests.Keys, "model_test", Counter(s.ledger, "model_test"))
  }

  /** A code keeps its grant; once revoked it stays revoked and takes no further device; its text can only be erased. */
  predicate CodeAdvances(before: Code, after: Code) {
    && after.userId == before.userId && after.product == before.product
    && after.expiresAt == before.expiresAt && after.maxDevices == before.maxDevices
    && (before.status == CodeRevoked ==> after.status == CodeRevoked && after.boundDevices <= before.boundDevices)
    && (after.plain == before.plain || after.plain.None?)
  }

  ghost predicate CodesAdvance(before: map<string, Code>, after: map<string, Code>) {
    forall id :: id in before ==> id in after && CodeAdvances(before[id], after[id])
  }

  /** A lease keeps its terms but for its expiry; a lease that has ended never changes again. */
  predicate LeaseAdvances(before: Lease, after: Lease) {
    && after == before.(status := after.status, expiresAt := after.expiresAt, releasedAt := after.releasedAt)
    && (before.status != LeaseActive ==> after == before)
  }

  ghost predicate LeasesAdvance(before: map<string, Lease>, after: map<string, Lease>) {
    forall id :: id in before ==> id in after && LeaseAdvances(before[id], after[id])
  }

  /** A usage record is never altered or removed. */
  ghost predicate UsageAdvances(before: map<string, Usage>, after: map<string, Usage>) {
    forall id :: id in before ==> id in after && after[id] == before[id]
  }

  ghost predicate Advances(s: State, t: State) {
    && CodesAdvance(s.grants.codes, t.grants.codes)
    && LeasesAdvance(s.pool.leases, t.pool.leases)
    && UsageAdvances(s.pool.usage, t.pool.usage)
  }

  /** No remembered request is lost or altered. */
  ghost predicate KeepsRecords(before: Ledger, after: Ledger) {
    forall scope :: scope in before.records ==> scope in after.records && after.records[scope] == before.records[scope]
  }

  lemma AdvancesTransitive(s: State, t: State, u: State)
    requires Advances(s, t) && Advances(t, u)
    ensures Advances(s, u)
  {
    forall id | id in s.grants.codes ensures id in u.grants.codes
        && CodeAdvances(s.grants.codes[id], u.grants.codes[id]) {
      assert CodeAdvances(s.grants.codes[id], t.grants.codes[id]);
    }
    forall id | id in s.pool.leases ensures id in u.pool.leases && LeaseAdvances(s.pool.leases[id], u.pool.leases[id]) {
      assert LeaseAdvances(s.pool.leases[id], t.pool.leases[id]);
    }
  }

  // --- identifiers -----------------------------------------------------------------------------------------

  lemma BumpKeepsNumbered(s: State, prefix: string)
    requires Numbered(s)
    ensures Numbered(s.(ledger := Bumped(s.ledger, prefix)))
  {
    hide Identifier;
    IssuedGrows(s.grants.codes.Keys, "ac", Counter(s.ledger, "ac"));
    IssuedGrows(s.pool.accounts.Keys, "mpa", Counter(s.ledger, "mpa"));
    IssuedGrows(s.pool.leases.Keys, "lease", Counter(s.ledger, "lease"));
    IssuedGrows(s.pool.usage.Keys, "usage", Counter(s.ledger, "usage"));
    IssuedGrows(s.pool.tests.Keys, "model_test", Counter(s.ledger, "model_test"));
  }

  lemma NumberedAfterDraw(ids: set<string>, prefix: string, ledger: Ledger)
    requires Issued(ids, prefix, Counter(ledger, prefix))
    ensures NextId(ledger, prefix) !in ids
    ensures Issued(ids + {NextId(ledger, prefix)}, prefix, Counter(Bumped(ledger, prefix), prefix))
  {
    NextIdFresh(ids, prefix, Counter(ledger, prefix));
    IssuedGrows(ids, prefix, Counter(ledger, prefix));
  }

  lemma Unmoved(s: State)
    ensures CodesAdvance(s.grants.codes, s.grants.codes)
    ensures LeasesAdvance(s.pool.leases, s.pool.leases)
    ensures UsageAdvances(s.pool.usage, s.pool.usage)
  {
  }

  lemma RememberingKeeps(ledger: Ledger, scope: Scope, digest: Fingerprint, resourceId: string)
    ensures KeepsRecords(ledger, ledger)
    ensures scope !in ledger.records ==> KeepsRecords(ledger, Remember(ledger, scope, digest, resourceId))
    ensures forall prefix :: Counter(Remember(ledger, scope, digest, resourceId), prefix) == Counter(ledger, prefix)
  {
  }

  // --- activation commands ---------------------------------------------------------------------------------

  lemma CreateCodeAdvances(
    s: State, now: int, product: Product, strict: bool, key: string, input: CodeInput, token: Option<string>)
    requires Numbered(s)
    ensures var t := CreateCode(s, now, product, strict, key, input, token).0;
            Advances(s, t) && KeepsRecords(s.ledger, t.ledger) && Numbered(t)
  {
    hide Identifier, Issued, ValidKey, NextId;
    BumpKeepsNumbered(s, "ac");
    NumberedAfterDraw(s.grants.codes.Keys, "ac", s.ledger);
    var t := CreateCode(s, now, product, strict, key, input, token).0;
    if t.grants.codes != s.grants.codes {
      assert t.grants.codes.Keys == s.grants.codes.Keys + {NextId(s.ledger, "ac")};
    }
  }

  lemma RevokeAdvances(s: State, product: Product, strict: bool, key: string, codeId: string)
    requires Numbered(s)
    ensures var t := RevokeCode(s, product, strict, key, codeId).0;
            Advances(s, t) && KeepsRecords(s.ledger, t.ledger) && Numbered(t)
  {
    hide Issued, ValidKey, LeasesAdvance, UsageAdvances;
    Unmoved(s);
    var t := RevokeCode(s, product, strict, key, codeId).0;
    assert t.grants.codes.Keys == s.grants.codes.Keys;
  }

  lemma ListCodesAdvances(s: State, now: int, product: Option<Product>)
    requires Numbered(s)
    ensures var t := ListCodes(s, now, product); Advances(s, t) && KeepsRecords(s.ledger, t.ledger) && Numbered(t)
  {
    hide Issued;
    assert ListCodes(s, now, product).grants.codes.Keys == s.grants.codes.Keys;
  }

  lemma BindAdvances(g: Grants, now: int, userId: string, input: ActivateInput, codeId: string)
    requires codeId in g.codes && g.codes[codeId].status != CodeRevoked
    ensures CodesAdvance(g.codes, BindTo(g, now, userId, input, codeId).codes)
    ensures BindTo(g, now, userId, input, codeId).codes.Keys == g.codes.Keys
  {
  }

  lemma ChosenIsNotRevoked(codes: map<string, Code>, userId: string, product: Product, now: int)
    ensures var choice := SelectCode(codes, userId, product, now);
            choice.Chosen? ==> choice.codeId in codes && codes[choice.codeId].status != CodeRevoked
  {
    ChoiceIsEarliest(codes, userId, product, now);
  }

  lemma ActivateAdvances(s: State, now: int, key: string, userId: string, input: ActivateInput)
    requires Numbered(s)
    ensures var t := Activate(s, now, key, userId, input).0;
            Advances(s, t) && KeepsRecords(s.ledger, t.ledger) && Numbered(t)
  {
    hide Issued, ActivateVerdict, BindTo, Covered, CodesAdvance, LeasesAdvance, UsageAdvances, ReRegistered, Activated;
    Unmoved(s);
    ChosenIsNotRevoked(s.grants.codes, userId, input.product, now);
    var choice := SelectCode(s.grants.codes, userId, input.product, now);
    if choice.Chosen? {
      BindAdvances(s.grants, now, userId, input, choice.codeId);
    }
    hide SelectCode;
  }

  lemma EndingAdvances(before: map<string, Lease>, after: map<string, Lease>)
    requires OnlyEnds(before, after)
    ensures LeasesAdvance(before, after)
  {
  }

  lemma DisableDeviceAdvances(s: State, now: int, product: Product, key: string, deviceId: string)
    requires Numbered(s)
    ensures var t := DisableDevice(s, now, product, key, deviceId).0;
            Advances(s, t) && KeepsRecords(s.ledger, t.ledger) && Numbered(t)
  {
    hide Issued, DeviceVerdict, CodesAdvance, LeasesAdvance, UsageAdvances;
    Unmoved(s);
    ReleaseOnlyEnds(s.pool.leases, deviceId, now, product);
    EndingAdvances(s.pool.leases, ReleaseForDevice(s.pool.leases, deviceId, now, product));
  }

  lemma DetachAdvances(codes: map<string, Code>, bindings: map<string, string>, deviceId: string)
    ensures CodesAdvance(codes, CodesWithout(codes, bindings, deviceId))
    ensures CodesWithout(codes, bindings, deviceId).Keys == codes.Keys
  {
  }

  lemma UnbindAdvances(s: State, now: int, product: Product, key: string, deviceId: string)
    requires Numbered(s)
    ensures var t := UnbindDevice(s, now, product, key, deviceId).0;
            Advances(s, t) && KeepsRecords(s.ledger, t.ledger) && Numbered(t)
  {
    hide Issued, DeviceVerdict, CodesWithout, CodesAdvance, LeasesAdvance, UsageAdvances;
    Unmoved(s);
    ReleaseOnlyEnds(s.pool.leases, deviceId, now, product);
    EndingAdvances(s.pool.leases, ReleaseForDevice(s.pool.leases, deviceId, now, product));
    DetachAdvances(s.grants.codes, s.grants.bindings, deviceId);
  }

  // --- account commands ------------------------------------------------------------------------------------

  lemma SweepAdvances(pool: Pool, now: int, product: Option<Product>)
    ensures LeasesAdvance(pool.leases, SweptPool(pool, now, product).leases)
    ensures SweptPool(pool, now, product).leases.Keys == pool.leases.Keys
  {
    SweepOnlyEnds(pool.leases, now, product);
    EndingAdvances(pool.leases, Sweep(pool.leases, now, product));
  }

  lemma CreateAccountAdvances(
    s: State, product: Product, key: string, input: AccountInput, urlAccepted: bool, stored: bool)
    requires Numbered(s)
    ensures var t := CreateAccount(s, product, key, input, urlAccepted, stored).0;
            Advances(s, t) && KeepsRecords(s.ledger, t.ledger) && Numbered(t)
  {
    hide Identifier, Issued, ValidKey, ValidAccountInput, NextId, CodesAdvance, LeasesAdvance, UsageAdvances;
    Unmoved(s);
    BumpKeepsNumbered(s, "mpa");
    NumberedAfterDraw(s.pool.accounts.Keys, "mpa", s.ledger);
    var t := CreateAccount(s, product, key, input, urlAccepted, stored).0;
    if t.pool.accounts != s.pool.accounts {
      assert t.pool.accounts.Keys == s.pool.accounts.Keys + {NextId(s.ledger, "mpa")};
    }
  }

  lemma UpdateAccountAdvances(
    s: State, now: int, product: Product, key: string, accountId: string, edit: AccountEdit, urlAccepted: bool)
    requires Numbered(s)
    ensures var t := UpdateAccount(s, now, product, key, accountId, edit, urlAccepted).0;
            Advances(s, t) && KeepsRecords(s.ledger, t.ledger) && Numbered(t)
  {
    hide Issued, ValidKey, CodesAdvance, LeasesAdvance, UsageAdvances, EditRefusal, Edited, Sweep;
    Unmoved(s);
    SweepAdvances(s.pool, now, Some(product));
    if accountId in s.pool.accounts && UpdateAccountVerdict(s, product, key, accountId, edit, urlAccepted).Proceed? {
      KeysAfterUpdate(s.pool.accounts, accountId, Edited(s.pool.accounts[accountId], edit));
    }
  }

  lemma DisableAccountAdvances(s: State, now: int, product: Product, key: string, accountId: string)
    requires Numbered(s)
    ensures var t := DisableAccount(s, now, product, key, accountId).0;
            Advances(s, t) && KeepsRecords(s.ledger, t.ledger) && Numbered(t)
  {
    hide Issued, ValidKey, CodesAdvance, LeasesAdvance, UsageAdvances, ActiveCount, Sweep, KeepsRecords, Counter;
    Unmoved(s);
    RememberingKeeps(s.ledger, DisableAccountScope(key), DisableAccountPrint(accountId, product), accountId);
    SweepAdvances(s.pool, now, Some(product));
    if accountId in s.pool.accounts {
      KeysAfterUpdate(s.pool.accounts, accountId, s.pool.accounts[accountId].(status := AccountDisabled));
    }
  }

  lemma ListAccountsAdvances(s: State, now: int, order: seq<string>)
    requires Numbered(s)
    ensures var t := ListAccounts(s, now, order); Advances(s, t) && KeepsRecords(s.ledger, t.ledger) && Numbered(t)
  {
    hide Issued, LeasesAdvance, Sweep, RefreshedAccount, LatestAlong, UsedToday;
    SweepAdvances(s.pool, now, None);
    assert ListAccounts(s, now, order).pool.accounts.Keys == s.pool.accounts.Keys;
  }

  lemma RecordTestAdvances(
    s: State, product: Product, key: string, accountId: string, timeoutSeconds: int, result: TestResult)
    requires Numbered(s)
    ensures var t := RecordTest(s, product, key, accountId, timeoutSeconds, result).0;
            Advances(s, t) && KeepsRecords(s.ledger, t.ledger) && Numbered(t)
  {
    hide Identifier, Issued, NextId, CodesAdvance, LeasesAdvance, UsageAdvances;
    Unmoved(s);
    BumpKeepsNumbered(s, "model_test");
    NumberedAfterDraw(s.pool.tests.Keys, "model_test", s.ledger);
    var t := RecordTest(s, product, key, accountId, timeoutSeconds, result).0;
    assert t.pool.accounts.Keys == s.pool.accounts.Keys;
    if t.pool.tests != s.pool.tests {
      assert t.pool.tests.Keys == s.pool.tests.Keys + {NextId(s.ledger, "model_test")};
    }
  }

  // --- lease commands --------------------------------------------------------------------------------------

  lemma LeasesAdvanceTransitive(a: map<string, Lease>, b: map<string, Lease>, c: map<string, Lease>)
    requires LeasesAdvance(a, b) && LeasesAdvance(b, c)
    ensures LeasesAdvance(a, c)
  {
    forall id | id in a ensures id in c && LeaseAdvances(a[id], c[id]) {
      assert LeaseAdvances(a[id], b[id]) && LeaseAdvances(b[id], c[id]);
    }
  }

  lemma AllocateAdvances(
    t: State, now: int, product: Product, key: string, userId: string, deviceId: string, input: LeaseInput,
    order: seq<string>, secretFound: bool)
    requires Numbered(t)
    requires CreateLeaseScope(userId, deviceId, key, product) !in t.ledger.records
    ensures var u := Allocate(t, now, product, key, userId, deviceId, input, order, secretFound).0;
            Advances(t, u) && KeepsRecords(t.ledger, u.ledger) && Numbered(u)
  {
    hide Identifier, Issued, NextId, RefreshedAccount, LatestAlong, UsedToday, SelectAccount, NewLease;
    BumpKeepsNumbered(t, "lease");
    NumberedAfterDraw(t.pool.leases.Keys, "lease", t.ledger);
    var u := Allocate(t, now, product, key, userId, deviceId, input, order, secretFound).0;
    assert u.pool.accounts.Keys == t.pool.accounts.Keys;
    if u.pool.leases != t.pool.leases {
      assert u.pool.leases.Keys == t.pool.leases.Keys + {NextId(t.ledger, "lease")};
    }
  }

  lemma CreateLeaseAdvances(
    s: State, now: int, product: Product, key: string, userId: string, deviceId: string, raw: LeaseInput,
    order: seq<string>, secretFound: bool)
    requires Numbered(s)
    ensures var t := CreateLease(s, now, product, key, userId, deviceId, raw, order, secretFound).0;
            Advances(s, t) && KeepsRecords(s.ledger, t.ledger) && Numbered(t)
  {
    hide Issued, ValidKey, ValidLeaseInput, CodesAdvance, LeasesAdvance, UsageAdvances, Sweep, Allocate,
        PolicyRefusal, Gate;
    Unmoved(s);
    SweepAdvances(s.pool, now, Some(product));
    var t := s.(pool := SweptPool(s.pool, now, Some(product)));
    var scope := CreateLeaseScope(userId, deviceId, key, product);
    if scope !in s.ledger.records {
      AllocateAdvances(t, now, product, key, userId, deviceId, LeaseDefaults(raw), order, secretFound);
      var u := Allocate(t, now, product, key, userId, deviceId, LeaseDefaults(raw), order, secretFound).0;
      LeasesAdvanceTransitive(s.pool.leases, t.pool.leases, u.pool.leases);
    }
  }

  lemma RenewAdvances(
    s: State, now: int, product: Product, key: string, userId: string, deviceId: string, leaseId: string,
    rawExtend: int)
    requires Numbered(s)
    ensures var t := RenewLease(s, now, product, key, userId, deviceId, leaseId, rawExtend).0;
            Advances(s, t) && KeepsRecords(s.ledger, t.ledger) && Numbered(t)
  {
    hide Issued, ValidKey, CodesAdvance, LeasesAdvance, UsageAdvances, Sweep, Gate;
    Unmoved(s);
    SweepAdvances(s.pool, now, Some(product));
    var pool := SweptPool(s.pool, now, Some(product));
    if leaseId in pool.leases && pool.leases[leaseId].status == LeaseActive {
      var lease := pool.leases[leaseId].(expiresAt := pool.leases[leaseId].expiresAt + ExtensionOf(rawExtend));
      ExtensionAdvances(pool.leases, leaseId, lease.expiresAt);
      LeasesAdvanceTransitive(s.pool.leases, pool.leases, pool.leases[leaseId := lease]);
      KeysAfterUpdate(pool.leases, leaseId, lease);
    }
  }

  lemma ExtensionAdvances(leases: map<string, Lease>, id: string, expiresAt: int)
    requires id in leases && leases[id].status == LeaseActive
    ensures LeasesAdvance(leases, leases[id := leases[id].(expiresAt := expiresAt)])
  {
  }

  lemma ReleaseAdvances(
    s: State, now: int, product: Product, key: string, userId: string, deviceId: string, leaseId: string,
    rawReason: string)
    requires Numbered(s)
    ensures var t := ReleaseLease(s, now, product, key, userId, deviceId, leaseId, rawReason).0;
            Advances(s, t) && KeepsRecords(s.ledger, t.ledger) && Numbered(t)
  {
    hide OnlyEnds, LeaseRefusal, Issued, ValidKey, CodesAdvance, LeasesAdvance, UsageAdvances, Sweep, Gate,
        Closed, Trim, KeepsRecords, Counter, Identifier;
    Unmoved(s);
    RememberingKeeps(s.ledger, ReleaseScope(leaseId, key, product),
        ReleasePrint(userId, deviceId, product, leaseId, Trim(rawReason)), leaseId);
    SweepAdvances(s.pool, now, Some(product));
    var pool := SweptPool(s.pool, now, Some(product));
    ClosingOnlyEnds(pool.leases, leaseId, now);
    EndingAdvances(pool.leases, Closed(pool.leases, leaseId, now));
    LeasesAdvanceTransitive(s.pool.leases, pool.leases, Closed(pool.leases, leaseId, now));
  }

  lemma ClosingOnlyEnds(leases: map<string, Lease>, leaseId: string, now: int)
    ensures OnlyEnds(leases, Closed(leases, leaseId, now))
  {
  }

  /** The lease as it was before the sweep, released: still nothing but an ending. */
  lemma ReclaimOnlyEnds(leases: map<string, Lease>, leaseId: string, now: int)
    requires leaseId in leases
    ensures OnlyEnds(leases, Reclaimed(leases, leaseId, now))
  {
    SweepOnlyEnds(leases, now, None);
  }

  lemma ReclaimAdvances(s: State, now: int, product: Product, key: string, leaseId: string, rawReason: string)
    requires Numbered(s)
    ensures var t := ReclaimLease(s, now, product, key, leaseId, rawReason).0;
            Advances(s, t) && KeepsRecords(s.ledger, t.ledger) && Numbered(t)
  {
    hide OnlyEnds, Issued, ValidKey, CodesAdvance, LeasesAdvance, UsageAdvances, Sweep, Reclaimed, Trim, KeepsRecords,
        Counter, Identifier;
    Unmoved(s);
    RememberingKeeps(s.ledger, ReclaimScope(leaseId, key, product), ReclaimPrint(leaseId, product, Trim(rawReason)),
        leaseId);
    SweepAdvances(s.pool, now, None);
    if leaseId in s.pool.leases {
      ReclaimOnlyEnds(s.pool.leases, leaseId, now);
      EndingAdvances(s.pool.leases, Reclaimed(s.pool.leases, leaseId, now));
    }
  }

  lemma ChargeAdvances(
    s: State, now: int, product: Product, key: string, userId: string, deviceId: string, requestId: string,
    input: CallInput)
    requires Numbered(s) && ValidCall(input) && input.leaseId in s.pool.leases
    ensures var t := Charge(s, now, product, key, userId, deviceId, requestId, input).0;
            Advances(s, t) && KeepsRecords(s.ledger, t.ledger) && Numbered(t)
  {
    hide Recorded, SameCall, Identifier, Issued, NextId, OverQuota, Charged, ValidCall, CallOf, LeasesAdvance,
        CodesAdvance;
    Unmoved(s);
    BumpKeepsNumbered(s, "usage");
    NumberedAfterDraw(s.pool.usage.Keys, "usage", s.ledger);
    var t := Charge(s, now, product, key, userId, deviceId, requestId, input).0;
    if t.pool.usage != s.pool.usage {
      assert t.pool.usage.Keys == s.pool.usage.Keys + {NextId(s.ledger, "usage")};
      ChargedSameAccounts(s.pool.(usage := t.pool.usage), s.pool.leases[input.leaseId].accountId, now, product);
    }
  }

  lemma ChargedSameAccounts(pool: Pool, accountId: string, now: int, product: Product)
    ensures Charged(pool, accountId, now, product).Keys == pool.accounts.Keys
  {
  }

  lemma RecordUsageAdvances(
    s: State, now: int, product: Product, key: string, userId: string, deviceId: string, requestId: string,
    raw: CallInput)
    requires Numbered(s)
    ensures var t := RecordUsage(s, now, product, key, userId, deviceId, requestId, raw).0;
            Advances(s, t) && KeepsRecords(s.ledger, t.ledger) && Numbered(t)
  {
    hide Charge, LeasesAdvance, CodesAdvance, UsageAdvances;
    Unmoved(s);
    if ValidCall(raw) && UsageRefusal(s, product, userId, deviceId, WithTotal(raw)).None? {
      ChargeAdvances(s, now, product, key, userId, deviceId, requestId, WithTotal(raw));
    }
  }
}
