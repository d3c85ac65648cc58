/**
 * Delivering a request again after the store may have forgotten it: for every kind of request, exactly when it acts a
 * second time. Four kinds never do, because what they did is remembered by the tables themselves.
 */
module Forgetting {
  import opened Collections
  import opened Tables
  import opened LeaseTable
  import opened Activation
  import opened ModelPool
  import opened Leasing
  import opened LeaseSafety
  import opened Progress
  import opened Delivery
  import opened ControlPlane
  import opened Runs
  import opened Redelivery

  // --- when a request acts again ---------------------------------------------------------------------------

  predicate Forgotten(u: State, c: Command)
    requires ScopeOf(c).Some?
  {
    ScopeOf(c).value !in u.ledger.records
  }

  predicate DeviceThere(u: State, deviceId: string, product: Product) {
    deviceId in u.grants.devices && u.grants.devices[deviceId].product == product
  }

  ghost predicate SomeUsable(pool: Pool, product: Product, provider: string, model: string, now: int) {
    exists id :: id in pool.accounts && Eligible(pool, id, product, provider, model, now) && HasRoom(pool, id)
  }

  /** What the store must be like for a request that has succeeded before to do something once more. */
  ghost predicate ActsAgain(u: State, now: int, c: Command)
    requires ScopeOf(c).Some?
  {
    Forgotten(u, c)
    && match c
       case CreateCodeCommand(product, strict, key, code, token) =>
         CreateCodeVerdict(u, now, product, strict, key, code).Proceed? && token.Some?
       case ActivateCommand(key, userId, input) =>
         && ActivateVerdict(u, key, userId, input).Proceed?
         && if Covered(u.grants, now, userId, input)
            then ReRegistered(u.grants, input) != u.grants.devices[input.deviceId]
            else exists id :: id in u.grants.codes && Open(u.grants.codes[id], userId, input.product, now)
       case DisableDeviceCommand(product, _, deviceId) =>
         DeviceThere(u, deviceId, product) && u.grants.devices[deviceId].status != DeviceDisabled
       case UnbindCommand(product, _, deviceId) =>
         DeviceThere(u, deviceId, product)
         && (deviceId in u.grants.bindings || !Vacant(u.grants.devices[deviceId]))
       case CreateAccountCommand(_, _, account, accepted, stored) => ValidAccountInput(account, accepted) && stored
       case UpdateAccountCommand(product, key, accountId, edit, urlAccepted) =>
         && UpdateAccountVerdict(u, product, key, accountId, edit, urlAccepted).Proceed?
         && EditRefusal(SweptPool(u.pool, now, Some(product)), product, accountId, edit).None?
         && !OnlyStatus(u.pool.accounts[accountId], Edited(u.pool.accounts[accountId], edit))
       case DisableAccountCommand(product, _, accountId) =>
         && accountId in u.pool.accounts && u.pool.accounts[accountId].product == product
         && u.pool.accounts[accountId].status != AccountDisabled
         && ActiveCount(Sweep(u.pool.leases, now, Some(product)), accountId) == 0
       case RecordTestCommand(_, _, _, _, _) => true
       case CreateLeaseCommand(product, _, userId, deviceId, lease, order, secretFound) =>
         var swept := u.(pool := SweptPool(u.pool, now, Some(product)));
         var pool := swept.pool.(accounts := RefreshedAccounts(swept.pool, order, now));
         && Gate(u, userId, deviceId, product).None?
         && PolicyRefusal(swept, now, product, userId, LeaseDefaults(lease)).None?
         && secretFound && SomeUsable(pool, product, LeaseDefaults(lease).provider, LeaseDefaults(lease).model, now)
       case RenewCommand(_, _, _, _, _, _) => Renewable(u, now, c)
       case RevokeCodeCommand(_, _, _, _) => false
       case ReleaseCommand(_, _, _, _, _, _) => false
       case ReclaimCommand(_, _, _, _) => false
       case RecordUsageCommand(_, _, _, _, _, _) => false
       case ListCodesCommand(_) => false
       case ListAccountsCommand(_) => false
       case Administer(_) => false
       case Forget(_, _, _, _) => false
  }

  // --- what the tables remember by themselves --------------------------------------------------------------

  /** The traces of a request that no later command removes. */
  ghost predicate Done(s: State, digest: Fingerprint) {
    match digest
    case RevokePrint(codeId, _) =>
      codeId in s.grants.codes && s.grants.codes[codeId].status == CodeRevoked && s.grants.codes[codeId].plain.None?
    case ReleasePrint(_, _, _, leaseId, _) =>
      leaseId in s.pool.leases && s.pool.leases[leaseId].status != LeaseActive
    case ReclaimPrint(leaseId, _, _) =>
      leaseId in s.pool.leases && s.pool.leases[leaseId].status != LeaseActive
    case UsagePrint(_, _, _, usage) => Recorded(s.pool.usage, usage.leaseId, usage.clientCallId)
    case _ => true
  }

  ghost predicate AllDone(s: State) {
    forall scope :: scope in s.ledger.records ==> Done(s, s.ledger.records[scope].fingerprint)
  }

  lemma StaysDone(s: State, t: State, digest: Fingerprint)
    requires Done(s, digest) && Advances(s, t)
    ensures Done(t, digest)
  {
    match digest
    case RevokePrint(codeId, _) => assert CodeAdvances(s.grants.codes[codeId], t.grants.codes[codeId]);
    case ReleasePrint(_, _, _, leaseId, _) => assert LeaseAdvances(s.pool.leases[leaseId], t.pool.leases[leaseId]);
    case ReclaimPrint(leaseId, _, _) => assert LeaseAdvances(s.pool.leases[leaseId], t.pool.leases[leaseId]);
    case UsagePrint(_, _, _, usage) =>
      var id :| id in s.pool.usage && SameCall(s.pool.usage[id], usage.leaseId, usage.clientCallId);
      assert id in t.pool.usage && SameCall(t.pool.usage[id], usage.leaseId, usage.clientCallId);
    case _ =>
  }

  /** A request that is new and succeeds leaves its traces. */
  lemma NewIsDone(s: State, now: int, c: Command)
    requires ScopeOf(c).Some? && Forgotten(s, c) && !Serve(s, now, c).1.Failed?
    ensures Done(Serve(s, now, c).0, PrintOf(c))
  {
    match c
    case RevokeCodeCommand(_, _, _, _) => RevocationIsDone(s, now, c);
    case ReleaseCommand(_, _, _, _, _, _) => ReleaseIsDone(s, now, c);
    case ReclaimCommand(_, _, _, _) => ReclaimIsDone(s, now, c);
    case RecordUsageCommand(_, _, _, _, _, _) => UsageIsDone(s, now, c);
    case _ => hide Serve;
  }

  lemma RevocationIsDone(s: State, now: int, c: Command)
    requires c.RevokeCodeCommand? && Forgotten(s, c) && !Serve(s, now, c).1.Failed?
    ensures Done(Serve(s, now, c).0, PrintOf(c))
  {
    hide ValidKey;
  }

  lemma ReleaseIsDone(s: State, now: int, c: Command)
    requires c.ReleaseCommand? && Forgotten(s, c) && !Serve(s, now, c).1.Failed?
    ensures Done(Serve(s, now, c).0, PrintOf(c))
  {
    hide ValidKey, Gate, Trim, Sweep;
  }

  lemma ReclaimIsDone(s: State, now: int, c: Command)
    requires c.ReclaimCommand? && Forgotten(s, c) && !Serve(s, now, c).1.Failed?
    ensures Done(Serve(s, now, c).0, PrintOf(c))
  {
    hide ValidKey, Trim;
  }

  lemma UsageIsDone(s: State, now: int, c: Command)
    requires c.RecordUsageCommand? && Forgotten(s, c) && !Serve(s, now, c).1.Failed?
    ensures var t := Serve(s, now, c).0; Recorded(t.pool.usage, c.call.leaseId, c.call.clientCallId)
  {
    hide ValidKey, ValidCall, UsageRefusal, OverQuota, Charged, NextId, Trim, Recorded;
    var t := Serve(s, now, c).0;
    if !Recorded(s.pool.usage, c.call.leaseId, c.call.clientCallId) {
      UsageAdded(t.pool.usage, NextId(s.ledger, "usage"), c.call.leaseId, c.call.clientCallId);
    }
  }

  lemma UsageAdded(usage: map<string, Usage>, id: string, leaseId: string, clientCallId: string)
    ensures id in usage && SameCall(usage[id], leaseId, clientCallId) ==> Recorded(usage, leaseId, clientCallId)
  {
  }

  lemma StepAllDone(s: State, now: int, c: Command)
    requires Numbered(s) && AllDone(s)
    ensures AllDone(Step(s, now, c).0)
  {
    hide Numbered, Serve, Step, Done, Untouched, Repeated, Advances, PrintOf, ScopeOf;
    StepAdvances(s, now, c);
    StepServes(s, now, c);
    var t := Step(s, now, c).0;
    if ScopeOf(c).Some? {
      StepAccounted(s, now, c);
      LittleChanges(s, t, now);
      if !Step(s, now, c).1.Failed? && Forgotten(s, c) {
        NewIsDone(s, now, c);
        SameTablesDone(Serve(s, now, c).0, t, PrintOf(c));
      }
    } else {
      NothingNewRemembered(s, now, c);
    }
    forall scope | scope in t.ledger.records ensures Done(t, t.ledger.records[scope].fingerprint) {
      if scope in s.ledger.records && t.ledger.records[scope] == s.ledger.records[scope] {
        StaysDone(s, t, s.ledger.records[scope].fingerprint);
      }
    }
  }

  lemma SameTablesDone(s: State, t: State, digest: Fingerprint)
    requires Done(s, digest) && t == s.(ledger := t.ledger)
    ensures Done(t, digest)
  {
  }

  lemma NothingNewRemembered(s: State, now: int, c: Command)
    requires ScopeOf(c).None?
    ensures var records := Step(s, now, c).0.ledger.records;
            forall scope :: scope in records ==> scope in s.ledger.records && records[scope] == s.ledger.records[scope]
  {
  }

  lemma {:induction false} RunAllDone(s: State, events: seq<Event>)
    requires Numbered(s) && AllDone(s)
    ensures AllDone(Run(s, events)) && Numbered(Run(s, events))
    decreases |events|
  {
    hide Numbered, Step, AllDone;
    if events != [] {
      StepAdvances(s, events[0].now, events[0].command);
      StepAllDone(s, events[0].now, events[0].command);
      RunAllDone(Step(s, events[0].now, events[0].command).0, events[1..]);
    }
  }

  // --- one forgotten request at a time ---------------------------------------------------------------------

  /** What a success says about the request alone. */
  predicate Posed(c: Command) {
    match c
    case DisableDeviceCommand(_, key, _) => ValidKey(key)
    case UnbindCommand(_, key, _) => ValidKey(key)
    case CreateAccountCommand(_, key, _, _, _) => ValidKey(key)
    case DisableAccountCommand(_, key, accountId) => ValidKey(key) && accountId != ""
    case CreateLeaseCommand(_, key, _, _, lease, _, _) => ValidKey(key) && ValidLeaseInput(LeaseDefaults(lease))
    case RenewCommand(_, _, _, _, _, _) => WellPosed(c)
    case _ => true
  }

  lemma SuccessIsPosed(s: State, now: int, c: Command)
    requires !Serve(s, now, c).1.Failed?
    ensures Posed(c)
  {
    hide ValidKey, ValidAccountInput, ValidLeaseInput, LeaseDefaults, Gate, Lookup, Sweep, Allocate, PolicyRefusal;
    match c
    case RenewCommand(_, _, _, _, _, _) => RenewedFacts(s, now, c);
    case DisableDeviceCommand(_, _, _) =>
    case UnbindCommand(_, _, _) =>
    case CreateAccountCommand(_, _, _, _, _) =>
    case DisableAccountCommand(_, _, _) =>
    case CreateLeaseCommand(_, _, _, _, _, _, _) =>
    case _ => hide Serve;
  }

  lemma SameIsQuiet(s: State)
    ensures Quiet(s, s)
  {
    SweepOnlyEnds(s.pool.leases, 0, None);
  }

  lemma CodeCreatedAgain(u: State, now: int, c: Command)
    requires c.CreateCodeCommand? && Forgotten(u, c) && Numbered(u)
    ensures Quiet(u, Serve(u, now, c).0) <==> !ActsAgain(u, now, c)
  {
    hide Quiet, Identifier, Issued, CreateCodeVerdict, NextId;
    SameIsQuiet(u);
    NumberedAfterDraw(u.grants.codes.Keys, "ac", u.ledger);
    OtherLedger(u, Serve(u, now, c).0);
    if Serve(u, now, c).0.grants != u.grants {
      NotQuiet(u, Serve(u, now, c).0);
    }
  }

  /** The ledger aside, nothing changed. */
  lemma OtherLedger(u: State, v: State)
    ensures v == u.(ledger := v.ledger) ==> Quiet(u, v)
  {
    SameIsQuiet(u);
  }

  lemma NotQuiet(u: State, v: State)
    requires u.grants != v.grants || u.pool.usage != v.pool.usage || u.pool.tests != v.pool.tests
             || u.pool.accounts.Keys != v.pool.accounts.Keys || u.pool.leases.Keys != v.pool.leases.Keys
    ensures !Quiet(u, v)
  {
  }

  lemma RevokedAgain(u: State, now: int, c: Command)
    requires c.RevokeCodeCommand? && Done(u, PrintOf(c))
    ensures Quiet(u, Serve(u, now, c).0)
  {
    hide ValidKey, Quiet;
    SameIsQuiet(u);
    OtherLedger(u, Serve(u, now, c).0);
    assert u.grants.codes[c.codeId := u.grants.codes[c.codeId]] == u.grants.codes;
    assert Revoked(u.grants.codes[c.codeId]) == u.grants.codes[c.codeId];
  }

  lemma ActivatedAgain(u: State, now: int, c: Command)
    requires c.ActivateCommand? && Forgotten(u, c)
    ensures Quiet(u, Serve(u, now, c).0) <==> !ActsAgain(u, now, c)
  {
    hide Quiet, ActivateVerdict, ReRegistered, Covered, SelectCode, BindTo;
    SameIsQuiet(u);
    var g, input, v := u.grants, c.activation, Serve(u, now, c).0;
    OtherLedger(u, v);
    ChoiceIsEarliest(g.codes, c.userId, input.product, now);
    if ActivateVerdict(u, c.key, c.userId, input).Proceed? {
      if Covered(g, now, c.userId, input) {
        DeviceThereIfCovered(g, now, c.userId, input);
        if ReRegistered(g, input) == g.devices[input.deviceId] {
          assert g.devices[input.deviceId := ReRegistered(g, input)] == g.devices;
        } else {
          assert v.grants.devices[input.deviceId] != g.devices[input.deviceId];
          NotQuiet(u, v);
        }
      } else {
        var choice := SelectCode(g.codes, c.userId, input.product, now);
        if choice.Chosen? {
          BindingChanges(g, now, c.userId, input, choice.codeId);
          NotQuiet(u, v);
        }
      }
    }
  }

  lemma DeviceThereIfCovered(g: Grants, now: int, userId: string, input: ActivateInput)
    requires Covered(g, now, userId, input)
    ensures input.deviceId in g.devices && input.deviceId in g.bindings && g.bindings[input.deviceId] in g.codes
  {
  }

  lemma BindingChanges(g: Grants, now: int, userId: string, input: ActivateInput, codeId: string)
    requires codeId in g.codes
    ensures BindTo(g, now, userId, input, codeId) != g
  {
    assert BindTo(g, now, userId, input, codeId).codes[codeId].boundDevices == g.codes[codeId].boundDevices + 1;
  }

  lemma FreeingIsQuiet(u: State, v: State, now: int, deviceId: string, product: Product)
    requires v.pool == Freed(u.pool, deviceId, now, product) && v.people == u.people
    ensures Quiet(u, v) <==> v.grants == u.grants
  {
    ReleaseOnlyEnds(u.pool.leases, deviceId, now, product);
  }

  lemma DisabledAgain(u: State, now: int, c: Command)
    requires c.DisableDeviceCommand? && Forgotten(u, c) && Posed(c)
    ensures Quiet(u, Serve(u, now, c).0) <==> !ActsAgain(u, now, c)
  {
    hide Quiet, ValidKey, Freed;
    SameIsQuiet(u);
    var v := Serve(u, now, c).0;
    if DeviceThere(u, c.deviceId, c.product) {
      FreeingIsQuiet(u, v, now, c.deviceId, c.product);
      if u.grants.devices[c.deviceId].status == DeviceDisabled {
        assert v.grants.devices == u.grants.devices;
      } else {
        assert v.grants.devices[c.deviceId] != u.grants.devices[c.deviceId];
      }
    }
  }

  lemma UnboundAgain(u: State, now: int, c: Command)
    requires c.UnbindCommand? && Forgotten(u, c) && Posed(c)
    ensures Quiet(u, Serve(u, now, c).0) <==> !ActsAgain(u, now, c)
  {
    hide Quiet, ValidKey, Freed;
    SameIsQuiet(u);
    var v := Serve(u, now, c).0;
    if DeviceThere(u, c.deviceId, c.product) {
      FreeingIsQuiet(u, v, now, c.deviceId, c.product);
      DetachingChanges(u.grants, c.deviceId);
      hide Detached;
    }
  }

  lemma DetachingChanges(g: Grants, deviceId: string)
    requires deviceId in g.devices
    ensures Detached(g, deviceId) != g <==> deviceId in g.bindings || !Vacant(g.devices[deviceId])
  {
    var h := Detached(g, deviceId);
    if deviceId in g.bindings {
      assert deviceId !in h.bindings;
    } else if Vacant(g.devices[deviceId]) {
      assert h.devices == g.devices && h.bindings == g.bindings;
    } else {
      assert h.devices[deviceId] != g.devices[deviceId];
    }
  }

  lemma AccountCreatedAgain(u: State, now: int, c: Command)
    requires c.CreateAccountCommand? && Forgotten(u, c) && Posed(c) && Numbered(u)
    ensures Quiet(u, Serve(u, now, c).0) <==> !ActsAgain(u, now, c)
  {
    hide Quiet, Identifier, Issued, ValidKey, ValidAccountInput, NextId;
    NumberedAfterDraw(u.pool.accounts.Keys, "mpa", u.ledger);
    var v := Serve(u, now, c).0;
    OtherLedger(u, v);
    SameIsQuiet(u);
    if c.stored && ValidAccountInput(c.account, c.urlAccepted) {
      assert NextId(u.ledger, "mpa") in v.pool.accounts;
      NotQuiet(u, v);
    }
  }

  lemma SweepingIsQuiet(u: State, v: State, now: int, product: Option<Product>)
    requires v.people == u.people && v.grants == u.grants
    requires v.pool == SweptPool(u.pool, now, product).(accounts := v.pool.accounts)
    ensures Quiet(u, v) <==> OnlyStatuses(u.pool.accounts, v.pool.accounts)
  {
    SweepOnlyEnds(u.pool.leases, now, product);
  }

  lemma OneAccountChanges(accounts: map<string, Account>, id: string, a: Account)
    requires id in accounts
    ensures OnlyStatuses(accounts, accounts)
    ensures OnlyStatuses(accounts, accounts[id := a]) <==> OnlyStatus(accounts[id], a)
  {
    var changed := accounts[id := a];
    assert changed.Keys == accounts.Keys;
    if OnlyStatuses(accounts, changed) {
      assert OnlyStatus(accounts[id], changed[id]);
    }
  }

  lemma UpdatedAgain(u: State, now: int, c: Command)
    requires c.UpdateAccountCommand? && Forgotten(u, c)
    ensures Quiet(u, Serve(u, now, c).0) <==> !ActsAgain(u, now, c)
  {
    hide Quiet, ValidKey, EditRefusal, Edited, Sweep, OnlyStatuses, OnlyStatus, ValidEdit;
    SameIsQuiet(u);
    var v := Serve(u, now, c).0;
    if UpdateAccountVerdict(u, c.product, c.key, c.accountId, c.edit, c.urlAccepted).Proceed? {
      UpdateIsPosed(u, c);
      SweepingIsQuiet(u, v, now, Some(c.product));
      OneAccountChanges(u.pool.accounts, c.accountId, Edited(u.pool.accounts[c.accountId], c.edit));
    }
  }

  lemma UpdateIsPosed(u: State, c: Command)
    requires c.UpdateAccountCommand?
    requires UpdateAccountVerdict(u, c.product, c.key, c.accountId, c.edit, c.urlAccepted).Proceed?
    ensures c.accountId in u.pool.accounts
    ensures c.edit.dailyLimit.Some? ==> 0 <= c.edit.dailyLimit.value
    ensures c.edit.concurrencyLimit.Some? ==> 1 <= c.edit.concurrencyLimit.value
  {
  }

  lemma AccountDisabledAgain(u: State, now: int, c: Command)
    requires c.DisableAccountCommand? && Forgotten(u, c) && Posed(c)
    ensures Quiet(u, Serve(u, now, c).0) <==> !ActsAgain(u, now, c)
  {
    hide Quiet, ValidKey, ActiveCount, Sweep, OnlyStatuses;
    var v := Serve(u, now, c).0;
    SweepingIsQuiet(u, v, now, Some(c.product));
    if c.accountId in u.pool.accounts {
      OneAccountChanges(u.pool.accounts, c.accountId, u.pool.accounts[c.accountId].(status := AccountDisabled));
    } else {
      AccountsAsTheyWere(u.pool.accounts);
    }
  }

  lemma AccountsAsTheyWere(accounts: map<string, Account>)
    ensures OnlyStatuses(accounts, accounts)
  {
  }

  lemma TestedAgain(u: State, now: int, c: Command)
    requires c.RecordTestCommand? && Forgotten(u, c) && Numbered(u)
    ensures !Quiet(u, Serve(u, now, c).0) && ActsAgain(u, now, c)
  {
    hide Quiet, Identifier, Issued, NextId;
    NumberedAfterDraw(u.pool.tests.Keys, "model_test", u.ledger);
    assert NextId(u.ledger, "model_test") in Serve(u, now, c).0.pool.tests;
    NotQuiet(u, Serve(u, now, c).0);
  }

  lemma LeasedAgain(u: State, now: int, c: Command)
    requires c.CreateLeaseCommand? && Forgotten(u, c) && Posed(c) && Numbered(u)
    ensures Quiet(u, Serve(u, now, c).0) <==> !ActsAgain(u, now, c)
  {
    hide Quiet, Identifier, Issued, ValidKey, ValidLeaseInput, LeaseDefaults, Gate, PolicyRefusal, NextId, Allocate,
        Eligible, HasRoom, RefreshedAccounts, Sweep, OnlyStatuses;
    SameIsQuiet(u);
    AccountsAsTheyWere(u.pool.accounts);
    var input, swept := LeaseDefaults(c.lease), u.(pool := SweptPool(u.pool, now, Some(c.product)));
    SweepingIsQuiet(u, swept, now, Some(c.product));
    if Gate(u, c.userId, c.deviceId, c.product).None? && PolicyRefusal(swept, now, c.product, c.userId, input).None? {
      NumberedAfterDraw(u.pool.leases.Keys, "lease", u.ledger);
      AllocatedAgain(u, swept, now, c, input);
    }
  }

  lemma AllocatedAgain(u: State, swept: State, now: int, c: Command, input: LeaseInput)
    requires c.CreateLeaseCommand? && swept == u.(pool := SweptPool(u.pool, now, Some(c.product)))
    requires NextId(u.ledger, "lease") !in u.pool.leases
    ensures var pool := swept.pool.(accounts := RefreshedAccounts(swept.pool, c.order, now));
            var v := Allocate(swept, now, c.product, c.key, c.userId, c.deviceId, input, c.order, c.secretFound).0;
            Quiet(u, v) <==>
            !(c.secretFound && SomeUsable(pool, c.product, input.provider, input.model, now))
  {
    hide Quiet, Eligible, HasRoom, RefreshedAccounts, Sweep, NextId, OnlyStatuses, SelectAccount, NewLease;
    var pool := swept.pool.(accounts := RefreshedAccounts(swept.pool, c.order, now));
    SelectedIsBest(pool, c.product, input.provider, input.model, now);
    var v := Allocate(swept, now, c.product, c.key, c.userId, c.deviceId, input, c.order, c.secretFound).0;
    RefreshMovesStatuses(swept.pool, c.order, now);
    if c.secretFound && SelectAccount(pool, c.product, input.provider, input.model, now).Some? {
      assert NextId(u.ledger, "lease") in v.pool.leases;
      NotQuiet(u, v);
    } else {
      SweepingIsQuiet(u, v, now, Some(c.product));
    }
  }

  lemma RefreshMovesStatuses(pool: Pool, order: seq<string>, now: int)
    ensures OnlyStatuses(pool.accounts, RefreshedAccounts(pool, order, now))
  {
    hide LatestAlong, AccountDayTotal;
  }

  lemma RenewedAgain(u: State, now: int, c: Command)
    requires c.RenewCommand? && Forgotten(u, c) && Posed(c) && OwnLease(u.pool.leases, c)
    ensures Quiet(u, Serve(u, now, c).0) <==> !ActsAgain(u, now, c)
  {
    RenewalMoves(u, now, c);
    RenewalShape(u, now, c);
    hide ValidKey, Gate, Renewable, Sweep, Serve, OwnLease;
    var v := Serve(u, now, c).0;
    SweepOnlyEnds(u.pool.leases, now, Some(c.product));
    if ActsAgain(u, now, c) {
      OwnIsThere(u, c);
      assert v.pool.leases[c.leaseId].expiresAt != u.pool.leases[c.leaseId].expiresAt;
      assert OnlyEnds(u.pool.leases, v.pool.leases) ==> Ended(u.pool.leases[c.leaseId], v.pool.leases[c.leaseId]);
    }
  }

  lemma RenewalShape(u: State, now: int, c: Command)
    requires c.RenewCommand? && Forgotten(u, c) && WellPosed(c) && OwnLease(u.pool.leases, c)
    ensures var v := Serve(u, now, c).0;
            && v.grants == u.grants && v.people == u.people && v.pool.usage == u.pool.usage
            && v.pool.tests == u.pool.tests && v.pool.accounts == u.pool.accounts
            && (!Renewable(u, now, c) ==>
                  v.pool.leases == u.pool.leases || v.pool.leases == Sweep(u.pool.leases, now, Some(c.product)))
  {
    NotRenewable(u, now, c);
    hide ValidKey, Gate, Renewable, OwnLease, RenewRefusal, Sweep, LeaseRefusal;
  }

  lemma NotRenewable(u: State, now: int, c: Command)
    requires c.RenewCommand? && OwnLease(u.pool.leases, c)
    ensures c.leaseId in u.pool.leases
    ensures !Renewable(u, now, c) && Gate(u, c.userId, c.deviceId, c.product).None? ==>
              RenewRefusal(SweptPool(u.pool, now, Some(c.product)), c.leaseId).Some?
  {
    hide Gate;
  }

  lemma EndedAgain(u: State, now: int, c: Command)
    requires (c.ReleaseCommand? || c.ReclaimCommand?) && Done(u, PrintOf(c))
    ensures Quiet(u, Serve(u, now, c).0)
  {
    hide Quiet, ValidKey, Gate, Trim, Sweep, OnlyStatuses;
    SameIsQuiet(u);
    AccountsAsTheyWere(u.pool.accounts);
    var v := Serve(u, now, c).0;
    var within := if c.ReleaseCommand? then Some(c.product) else None;
    SweptStaysEnded(u.pool.leases, now, within, c.leaseId);
    if v.pool.leases == Sweep(u.pool.leases, now, within) {
      SweepingIsQuiet(u, v, now, within);
    } else {
      OtherLedger(u, v);
    }
  }

  lemma SweptStaysEnded(leases: map<string, Lease>, now: int, product: Option<Product>, id: string)
    requires id in leases && leases[id].status != LeaseActive
    ensures Sweep(leases, now, product)[id] == leases[id]
  {
  }

  lemma ChargedAgain(u: State, now: int, c: Command)
    requires c.RecordUsageCommand? && Done(u, PrintOf(c))
    ensures Quiet(u, Serve(u, now, c).0)
  {
    hide Quiet, ValidKey, ValidCall, UsageRefusal, OverQuota, Charged, Recorded, NextId, Trim, Lookup;
    SameIsQuiet(u);
    OtherLedger(u, Serve(u, now, c).0);
  }

  // --- every request, after any run ------------------------------------------------------------------------

  lemma ForgottenActs(u: State, now: int, c: Command)
    requires ScopeOf(c).Some? && Forgotten(u, c) && Posed(c) && Done(u, PrintOf(c)) && Numbered(u)
    requires c.RenewCommand? ==> OwnLease(u.pool.leases, c)
    ensures Quiet(u, Serve(u, now, c).0) <==> !ActsAgain(u, now, c)
  {
    hide Quiet, Serve, Forgotten, Posed, Done, Numbered, OwnLease, PrintOf;
    match c
    case CreateCodeCommand(_, _, _, _, _) => CodeCreatedAgain(u, now, c);
    case RevokeCodeCommand(_, _, _, _) => RevokedAgain(u, now, c);
    case ActivateCommand(_, _, _) => ActivatedAgain(u, now, c);
    case DisableDeviceCommand(_, _, _) => DisabledAgain(u, now, c);
    case UnbindCommand(_, _, _) => UnboundAgain(u, now, c);
    case CreateAccountCommand(_, _, _, _, _) => AccountCreatedAgain(u, now, c);
    case UpdateAccountCommand(_, _, _, _, _) => UpdatedAgain(u, now, c);
    case DisableAccountCommand(_, _, _) => AccountDisabledAgain(u, now, c);
    case RecordTestCommand(_, _, _, _, _) => TestedAgain(u, now, c);
    case CreateLeaseCommand(_, _, _, _, _, _, _) => LeasedAgain(u, now, c);
    case RenewCommand(_, _, _, _, _, _) => RenewedAgain(u, now, c);
    case ReleaseCommand(_, _, _, _, _, _) => EndedAgain(u, now, c);
    case ReclaimCommand(_, _, _, _) => EndedAgain(u, now, c);
    case RecordUsageCommand(_, _, _, _, _, _) => ChargedAgain(u, now, c);
  }

  /** A request that succeeded leaves behind what it can count on later. */
  lemma SucceededFacts(s: State, now: int, c: Command)
    requires Numbered(s) && AllDone(s) && ScopeOf(c).Some? && !Step(s, now, c).1.Failed?
    ensures var t := Step(s, now, c).0;
            && Posed(c) && Remembered(t, ScopeOf(c).value) && Done(t, PrintOf(c)) && AllDone(t) && Numbered(t)
            && (c.RenewCommand? ==> OwnLease(t.pool.leases, c))
  {
    hide Serve, Step, Done, Posed, OwnLease, Numbered, PrintOf, ScopeOf, Remembered, Advances;
    StepServes(s, now, c);
    SuccessIsPosed(s, now, c);
    SucceededIsRemembered(s, now, c);
    StepAllDone(s, now, c);
    StepAdvances(s, now, c);
    RememberedIsDone(Step(s, now, c).0, ScopeOf(c).value);
    if c.RenewCommand? {
      RenewedFacts(s, now, c);
      StaysOwn(s, Step(s, now, c).0, c);
    }
  }

  lemma RememberedIsDone(t: State, scope: Scope)
    requires AllDone(t) && Remembered(t, scope)
    ensures Done(t, t.ledger.records[scope].fingerprint)
  {
  }

  lemma ReachedAllDone(people: People, before: seq<Event>)
    ensures Numbered(Reached(people, before)) && AllDone(Reached(people, before))
  {
    hide Run;
    RunAllDone(Empty(people), before);
  }

  /** Two deliveries of one request; what they get from outside (random text, a probe, a stored secret) may differ. */
  predicate SameRequest(c: Command, c': Command) {
    ScopeOf(c).Some? && ScopeOf(c') == ScopeOf(c) && PrintOf(c') == PrintOf(c)
  }

  lemma SameIsPosed(c: Command, c': Command, leases: map<string, Lease>)
    requires SameRequest(c, c') && Posed(c) && (c.RenewCommand? ==> OwnLease(leases, c))
    ensures Posed(c') && (c'.RenewCommand? ==> OwnLease(leases, c'))
  {
    hide ValidKey, ValidLeaseInput, LeaseDefaults, Trim;
  }

  /**
   * For every kind of request: once it has succeeded in a reachable state, then after any run, retention passes
   * included, delivering it again does more than end leases and move derived statuses if and only if `ActsAgain` holds
   * at that moment. That takes a forgotten record, which only a retention pass that found it older than its lifetime
   * can have dropped; and revoking, releasing, reclaiming and recording usage never act again.
   */
  lemma RedeliveryActsExactly(
    people: People, before: seq<Event>, now: int, c: Command, between: seq<Event>, later: int, c': Command)
    requires SameRequest(c, c') && !Step(Reached(people, before), now, c).1.Failed?
    ensures var t, scope := Step(Reached(people, before), now, c).0, ScopeOf(c).value;
            var u := Run(t, between);
            && (Quiet(u, Step(u, later, c').0) <==> !ActsAgain(u, later, c'))
            && Remembered(t, scope)
            && (ActsAgain(u, later, c') ==>
                  exists i :: 0 <= i < |between| && Expires(between[i], scope, t.ledger.recordedAt[scope]))
  {
    hide *;
    ReachedAllDone(people, before);
    ActsExactlyFrom(Reached(people, before), now, c, between, later, c');
  }

  lemma ActsExactlyFrom(s: State, now: int, c: Command, between: seq<Event>, later: int, c': Command)
    requires Numbered(s) && AllDone(s) && SameRequest(c, c') && !Step(s, now, c).1.Failed?
    ensures var t, scope := Step(s, now, c).0, ScopeOf(c).value;
            var u := Run(t, between);
            && (Quiet(u, Step(u, later, c').0) <==> !ActsAgain(u, later, c'))
            && Remembered(t, scope)
            && (ActsAgain(u, later, c') ==>
                  exists i :: 0 <= i < |between| && Expires(between[i], scope, t.ledger.recordedAt[scope]))
  {
    hide Run, Step, Serve, Quiet, ActsAgain, Done, AllDone, Posed, OwnLease, Numbered, PrintOf, ScopeOf, Expires,
        Advances, Outlives;
    SucceededFacts(s, now, c);
    DuplicateDelivery(s, now, c, between, later, c');
    var t := Step(s, now, c).0;
    LaterFacts(t, between, c);
    SameIsPosed(c, c', Run(t, between).pool.leases);
    OnceMore(Run(t, between), later, c');
  }

  lemma LaterFacts(t: State, between: seq<Event>, c: Command)
    requires Numbered(t) && ScopeOf(c).Some? && Done(t, PrintOf(c)) && (c.RenewCommand? ==> OwnLease(t.pool.leases, c))
    ensures var u := Run(t, between);
            Numbered(u) && Done(u, PrintOf(c)) && (c.RenewCommand? ==> OwnLease(u.pool.leases, c))
  {
    hide Run, Numbered, Done, OwnLease, Advances, PrintOf;
    RunAdvances(t, between);
    StaysDone(t, Run(t, between), PrintOf(c));
    if c.RenewCommand? {
      StaysOwn(t, Run(t, between), c);
    }
  }

  lemma OnceMore(u: State, later: int, c: Command)
    requires ScopeOf(c).Some? && Posed(c) && Done(u, PrintOf(c)) && Numbered(u)
    requires c.RenewCommand? ==> OwnLease(u.pool.leases, c)
    ensures Quiet(u, Step(u, later, c).0) <==> !ActsAgain(u, later, c)
    ensures ActsAgain(u, later, c) ==> Forgotten(u, c)
  {
    StepServes(u, later, c);
    hide Step, Serve, Quiet, Done, Posed, Numbered, OwnLease, PrintOf, Untouched, Repeated;
    if Forgotten(u, c) {
      hide ActsAgain;
      ForgottenActs(u, later, c);
      SameTablesQuiet(u, Serve(u, later, c).0, Step(u, later, c).0);
    } else {
      RememberedIsQuiet(u, later, c);
      hide ActsAgain;
      StepAccounted(u, later, c);
      LittleChanges(u, Step(u, later, c).0, later);
    }
  }

  lemma SameTablesQuiet(u: State, v: State, w: State)
    requires w == v.(ledger := w.ledger)
    ensures Quiet(u, v) <==> Quiet(u, w)
  {
  }

  lemma RememberedIsQuiet(u: State, now: int, c: Command)
    requires ScopeOf(c).Some? && !Forgotten(u, c)
    ensures !ActsAgain(u, now, c)
  {
  }
}
