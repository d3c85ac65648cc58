/** What holds along every run of the control plane. */
module Runs {
  import opened Collections
  import opened Tables
  import opened LeaseTable
  import opened Activation
  import opened ModelPool
  import opened Leasing
  import opened Bindings
  import opened LeaseSafety
  import opened Progress
  import opened Delivery
  import opened ControlPlane

  // --- every reachable state -------------------------------------------------------------------------------

  lemma {:induction false} RunKeepsInvariant(s: State, from: int, events: seq<Event>)
    requires Invariant(s, from) && Timed(from, events)
    ensures Invariant(Run(s, events), LastTime(from, events))
    decreases |events|
  {
    hide Consistent, PoolSound, OnActiveDevices, Numbered, Step;
    if events != [] {
      LaterStillConsistent(s.grants, from, events[0].now);
      StepKeepsInvariant(s, events[0].now, events[0].command);
      RunKeepsInvariant(Step(s, events[0].now, events[0].command).0, events[0].now, events[1..]);
    }
  }

  ghost function Reached(people: People, events: seq<Event>): State {
    Run(Empty(people), events)
  }

  lemma ReachedIsSound(people: People, from: int, events: seq<Event>)
    requires Timed(from, events)
    ensures Invariant(Reached(people, events), LastTime(from, events))
  {
    hide Invariant;
    EmptyIsSound(people, from);
    RunKeepsInvariant(Empty(people), from, events);
  }

  /**
   * In every reachable state each code's stored counter is the number of devices bound to it and within its limit,
   * and its status tells the truth about its capacity while it is neither revoked nor expired.
   */
  lemma BindingsConserved(people: People, from: int, events: seq<Event>, codeId: string)
    requires Timed(from, events)
    requires codeId in Reached(people, events).grants.codes
    ensures var g, now := Reached(people, events).grants, LastTime(from, events);
            var code := g.codes[codeId];
            && code.boundDevices == BoundCount(g.bindings, codeId) <= code.maxDevices
            && (code.status != CodeRevoked && now < code.expiresAt ==>
                  && (code.status == CodeActive <==> code.boundDevices < code.maxDevices)
                  && (code.status == CodeUsed <==> code.boundDevices == code.maxDevices))
  {
    hide Run, PoolSound, OnActiveDevices, Numbered, Agree;
    ReachedIsSound(people, from, events);
    assert TruthfulStatus(Reached(people, events).grants.codes[codeId], LastTime(from, events));
  }

  /** In every reachable state a user holds no more devices than all of that user's codes grant together. */
  lemma DevicesNeverExceedGrants(people: People, from: int, events: seq<Event>, userId: string)
    requires Timed(from, events)
    ensures var g := Reached(people, events).grants;
            Sum(g.devices, OwnedBy(userId)) <= Sum(g.codes, GrantsOf(userId))
  {
    hide Run, Consistent;
    ReachedIsSound(people, from, events);
    DevicesWithinGrants(Reached(people, events).grants, LastTime(from, events), userId);
  }

  /** In every reachable state no account carries more active leases than its limit, and a disabled one carries none. */
  lemma ConcurrencyCapped(people: People, from: int, events: seq<Event>, accountId: string)
    requires Timed(from, events)
    requires accountId in Reached(people, events).pool.accounts
    ensures var pool := Reached(people, events).pool;
            && ActiveCount(pool.leases, accountId) <= pool.accounts[accountId].concurrencyLimit
            && (pool.accounts[accountId].status == AccountDisabled ==>
                  forall id :: id in pool.leases && pool.leases[id].accountId == accountId ==>
                      pool.leases[id].status != LeaseActive)
  {
    hide Run, Consistent, OnActiveDevices, Numbered;
    ReachedIsSound(people, from, events);
    CountZero(Reached(people, events).pool.leases, accountId);
  }

  /**
   * In every reachable state an active lease names an active device of its user and product, and an existing account
   * of its product.
   */
  lemma ActiveLeasesCoherent(people: People, from: int, events: seq<Event>, id: string)
    requires Timed(from, events)
    requires id in Reached(people, events).pool.leases && Reached(people, events).pool.leases[id].status == LeaseActive
    ensures var s := Reached(people, events);
            var lease := s.pool.leases[id];
            && lease.deviceId in s.grants.devices
            && s.grants.devices[lease.deviceId].status == DeviceActive
            && s.grants.devices[lease.deviceId].owner == Some(lease.userId)
            && s.grants.devices[lease.deviceId].product == lease.product
            && lease.accountId in s.pool.accounts
            && s.pool.accounts[lease.accountId].product == lease.product
            && s.pool.accounts[lease.accountId].status != AccountDisabled
  {
    hide Run, Consistent, Numbered;
    ReachedIsSound(people, from, events);
    CountZero(Reached(people, events).pool.leases, Reached(people, events).pool.leases[id].accountId);
  }

  /** In every reachable state a client call is recorded at most once, under an existing lease of its product. */
  lemma CallsRecordedOnce(people: People, from: int, events: seq<Event>, u: string, v: string)
    requires Timed(from, events)
    requires var usage := Reached(people, events).pool.usage;
             u in usage && v in usage && SameCall(usage[u], usage[v].leaseId, usage[v].clientCallId)
    ensures u == v
    ensures var pool := Reached(people, events).pool;
            && pool.usage[u].leaseId in pool.leases
            && pool.usage[u].product == pool.leases[pool.usage[u].leaseId].product
  {
    hide Run, Consistent, OnActiveDevices, Numbered;
    ReachedIsSound(people, from, events);
  }

  // --- what a run never takes back -------------------------------------------------------------------------

  lemma {:induction false} RunAdvances(s: State, events: seq<Event>)
    requires Numbered(s)
    ensures Advances(s, Run(s, events)) && Numbered(Run(s, events))
    decreases |events|
  {
    hide Advances, Numbered, Step;
    if events == [] {
      NothingTaken(s);
    } else {
      StepAdvances(s, events[0].now, events[0].command);
      var t := Step(s, events[0].now, events[0].command).0;
      RunAdvances(t, events[1..]);
      AdvancesTransitive(s, t, Run(t, events[1..]));
    }
  }

  lemma NothingTaken(s: State)
    ensures Advances(s, s)
  {
    Unmoved(s);
  }

  /** Revocation is for ever: whatever follows, a revoked code stays revoked and its count never rises. */
  lemma RevokedForever(s: State, events: seq<Event>, codeId: string)
    requires Numbered(s) && codeId in s.grants.codes && s.grants.codes[codeId].status == CodeRevoked
    ensures var codes := Run(s, events).grants.codes;
            codeId in codes && codes[codeId].status == CodeRevoked
                && codes[codeId].boundDevices <= s.grants.codes[codeId].boundDevices
  {
    hide Run, Numbered;
    RunAdvances(s, events);
    assert CodeAdvances(s.grants.codes[codeId], Run(s, events).grants.codes[codeId]);
  }

  /** A lease that has ended is never active again, nor altered in any other way. */
  lemma EndedForever(s: State, events: seq<Event>, id: string)
    requires Numbered(s) && id in s.pool.leases && s.pool.leases[id].status != LeaseActive
    ensures id in Run(s, events).pool.leases && Run(s, events).pool.leases[id] == s.pool.leases[id]
  {
    hide Run, Numbered;
    RunAdvances(s, events);
    assert LeaseAdvances(s.pool.leases[id], Run(s, events).pool.leases[id]);
  }

  // --- deliveries ------------------------------------------------------------------------------------------

  function ScopeOf(c: Command): Option<Scope> {
    match c
    case CreateCodeCommand(product, strict, key, _, _) => Some(CreateCodeScope(key, StrictScope(strict, product)))
    case RevokeCodeCommand(product, strict, key, _) => Some(RevokeCodeScope(key, StrictScope(strict, product)))
    case ActivateCommand(key, userId, _) => Some(ActivateScope(userId, key))
    case DisableDeviceCommand(product, key, deviceId) => Some(DisableDeviceScope(deviceId, key, product))
    case UnbindCommand(product, key, deviceId) => Some(UnbindScope(deviceId, key, product))
    case CreateAccountCommand(_, key, _, _, _) => Some(CreateAccountScope(key))
    case UpdateAccountCommand(_, key, _, _, _) => Some(UpdateAccountScope(key))
    case DisableAccountCommand(_, key, _) => Some(DisableAccountScope(key))
    case RecordTestCommand(_, key, accountId, _, _) => Some(TestScope(accountId, key))
    case CreateLeaseCommand(product, key, userId, deviceId, _, _, _) =>
      Some(CreateLeaseScope(userId, deviceId, key, product))
    case RenewCommand(product, key, _, _, leaseId, _) => Some(RenewScope(leaseId, key, product))
    case ReleaseCommand(product, key, _, _, leaseId, _) => Some(ReleaseScope(leaseId, key, product))
    case ReclaimCommand(product, key, leaseId, _) => Some(ReclaimScope(leaseId, key, product))
    case RecordUsageCommand(product, key, userId, deviceId, _, _) => Some(UsageScope(userId, deviceId, key, product))
    case ListCodesCommand(_) => None
    case ListAccountsCommand(_) => None
    case Administer(_) => None
    case Forget(_, _, _, _) => None
  }

  function PrintOf(c: Command): Fingerprint
    requires ScopeOf(c).Some?
  {
    match c
    case CreateCodeCommand(product, _, _, code, _) => CodePrint(product, code)
    case RevokeCodeCommand(product, _, _, codeId) => RevokePrint(codeId, product)
    case ActivateCommand(_, userId, activation) => ActivatePrint(userId, activation)
    case DisableDeviceCommand(product, _, deviceId) => DevicePrint(deviceId, product)
    case UnbindCommand(product, _, deviceId) => DevicePrint(deviceId, product)
    case CreateAccountCommand(product, _, account, _, _) => AccountPrint(product, account)
    case UpdateAccountCommand(product, _, accountId, edit, _) => EditPrint(accountId, product, edit)
    case DisableAccountCommand(product, _, accountId) => DisableAccountPrint(accountId, product)
    case RecordTestCommand(product, _, accountId, timeoutSeconds, _) => TestPrint(accountId, product, timeoutSeconds)
    case CreateLeaseCommand(product, _, userId, deviceId, lease, _, _) =>
      LeasePrint(userId, deviceId, product, LeaseDefaults(lease))
    case RenewCommand(product, _, userId, deviceId, leaseId, extendSeconds) =>
      RenewPrint(userId, deviceId, product, leaseId, ExtensionOf(extendSeconds))
    case ReleaseCommand(product, _, userId, deviceId, leaseId, reason) =>
      ReleasePrint(userId, deviceId, product, leaseId, Trim(reason))
    case ReclaimCommand(product, _, leaseId, reason) => ReclaimPrint(leaseId, product, Trim(reason))
    case RecordUsageCommand(product, _, userId, deviceId, _, call) =>
      UsagePrint(userId, deviceId, product, WithTotal(call))
  }

  lemma ServeAccounted(s: State, now: int, c: Command)
    requires ScopeOf(c).Some?
    ensures Accounted(s, Serve(s, now, c).0, now, ScopeOf(c).value, PrintOf(c), Serve(s, now, c).1)
  {
    hide Accounted;
    match c
    case CreateCodeCommand(product, strict, key, code, token) =>
      CreateCodeAccounted(s, now, product, strict, key, code, token);
    case RevokeCodeCommand(product, strict, key, codeId) => RevokeAccounted(s, now, product, strict, key, codeId);
    case ActivateCommand(key, userId, activation) => ActivateAccounted(s, now, key, userId, activation);
    case DisableDeviceCommand(product, key, deviceId) => DisableDeviceAccounted(s, now, product, key, deviceId);
    case UnbindCommand(product, key, deviceId) => UnbindAccounted(s, now, product, key, deviceId);
    case CreateAccountCommand(product, key, account, urlAccepted, stored) =>
      CreateAccountAccounted(s, now, product, key, account, urlAccepted, stored);
    case UpdateAccountCommand(product, key, accountId, edit, urlAccepted) =>
      UpdateAccountAccounted(s, now, product, key, accountId, edit, urlAccepted);
    case DisableAccountCommand(product, key, accountId) => DisableAccountAccounted(s, now, product, key, accountId);
    case RecordTestCommand(product, key, accountId, timeoutSeconds, result) =>
      RecordTestAccounted(s, now, product, key, accountId, timeoutSeconds, result);
    case CreateLeaseCommand(product, key, userId, deviceId, lease, order, secretFound) =>
      CreateLeaseAccounted(s, now, product, key, userId, deviceId, lease, order, secretFound);
    case RenewCommand(product, key, userId, deviceId, leaseId, extendSeconds) =>
      RenewAccounted(s, now, product, key, userId, deviceId, leaseId, extendSeconds);
    case ReleaseCommand(product, key, userId, deviceId, leaseId, reason) =>
      ReleaseAccounted(s, now, product, key, userId, deviceId, leaseId, reason);
    case ReclaimCommand(product, key, leaseId, reason) => ReclaimAccounted(s, now, product, key, leaseId, reason);
    case RecordUsageCommand(product, key, userId, deviceId, requestId, call) =>
      RecordUsageAccounted(s, now, product, key, userId, deviceId, requestId, call);
  }

  lemma StepAccounted(s: State, now: int, c: Command)
    requires ScopeOf(c).Some?
    ensures Accounted(s, Step(s, now, c).0, now, ScopeOf(c).value, PrintOf(c), Step(s, now, c).1)
  {
    hide Serve, Step, ScopeOf, PrintOf, OnlyEnds, OnlyExpires, OnlyStatuses;
    ServeAccounted(s, now, c);
    StepServes(s, now, c);
  }

  /**
   * Nothing is rolled back, yet a command that fails leaves only expired leases, derived statuses and counters behind.
   */
  lemma FailureIsHarmless(s: State, now: int, c: Command)
    requires Step(s, now, c).1.Failed?
    ensures Untouched(s, Step(s, now, c).0, now)
  {
    hide Untouched, CreateCode, RevokeCode, Activate, DisableDevice, UnbindDevice, CreateAccount, UpdateAccount,
        DisableAccount;
    hide RecordTest, CreateLease, RenewLease, ReleaseLease, ReclaimLease, RecordUsage;
    if ScopeOf(c).Some? {
      StepAccounted(s, now, c);
    }
  }

  // --- how long a request is remembered --------------------------------------------------------------------

  /** Serving a command dates nothing itself. */
  lemma ServeKeepsDates(s: State, now: int, c: Command)
    ensures Serve(s, now, c).0.ledger.recordedAt == s.ledger.recordedAt
  {
    hide ValidKey, Trim, NextId, Lookup, Gate, LeaseRefusal, RefreshedAccounts, ActivateVerdict, SelectCode, Covered,
        SelectAccount, NewLease, PolicyRefusal, CreateCodeVerdict, DeviceVerdict, CreateAccountVerdict;
    hide EditRefusal, ActiveCount, Sweep, Charged, UsageRefusal, Recorded, OverQuota, UpdateAccountVerdict,
        DisableAccountVerdict;
  }

  /** A retention pass that may drop a request remembered since `since`. */
  predicate Expires(e: Event, scope: Scope, since: int) {
    e.command.Forget? && scope in e.command.scopes && e.command.recordLife > 0 && since + e.command.recordLife < e.now
  }

  predicate Remembered(s: State, scope: Scope) {
    scope in s.ledger.records && scope in s.ledger.recordedAt
  }

  /** No retention pass among the events finds the request older than its lifetime. */
  ghost predicate Outlives(s: State, scope: Scope, events: seq<Event>)
    requires Remembered(s, scope)
  {
    forall i :: 0 <= i < |events| ==> !Expires(events[i], scope, s.ledger.recordedAt[scope])
  }

  ghost predicate SameRecord(s: State, t: State, scope: Scope)
    requires Remembered(s, scope)
  {
    && Remembered(t, scope) && t.ledger.records[scope] == s.ledger.records[scope]
    && t.ledger.recordedAt[scope] == s.ledger.recordedAt[scope]
  }

  lemma StepRemembers(s: State, e: Event, scope: Scope)
    requires Numbered(s) && Remembered(s, scope) && !Expires(e, scope, s.ledger.recordedAt[scope])
    ensures SameRecord(s, Step(s, e.now, e.command).0, scope)
  {
    ServeKeepsDates(s, e.now, e.command);
    if !e.command.Forget? {
      hide Serve, Numbered, Advances;
      ServeAdvances(s, e.now, e.command);
    }
  }

  /**
   * A remembered request is lost only to a retention pass that finds it older than its lifetime; it is never altered.
   */
  lemma {:induction false} RecordsSurvive(s: State, events: seq<Event>, scope: Scope)
    requires Numbered(s) && Remembered(s, scope) && Outlives(s, scope, events)
    ensures SameRecord(s, Run(s, events), scope)
    decreases |events|
  {
    if events != [] {
      var t := Step(s, events[0].now, events[0].command).0;
      assert !Expires(events[0], scope, s.ledger.recordedAt[scope]);
      StepRemembers(s, events[0], scope);
      assert Outlives(t, scope, events[1..]);
      hide Numbered, Step, Expires, Remembered, Advances, Outlives;
      StepAdvances(s, events[0].now, events[0].command);
      RecordsSurvive(t, events[1..], scope);
    }
  }

  lemma SucceededIsRemembered(s: State, now: int, c: Command)
    requires ScopeOf(c).Some? && !Step(s, now, c).1.Failed?
    ensures Remembered(Step(s, now, c).0, ScopeOf(c).value)
    ensures Step(s, now, c).0.ledger.records[ScopeOf(c).value].fingerprint == PrintOf(c)
  {
    hide Serve, Step, ScopeOf, PrintOf, Untouched;
    StepAccounted(s, now, c);
    StepServes(s, now, c);
  }

  /** Nothing has happened but leases ending and derived statuses moving. */
  ghost predicate Quiet(s: State, t: State) {
    && t.grants == s.grants && t.people == s.people && t.pool.usage == s.pool.usage && t.pool.tests == s.pool.tests
    && OnlyStatuses(s.pool.accounts, t.pool.accounts) && OnlyEnds(s.pool.leases, t.pool.leases)
  }

  /**
   * Duplicate delivery. After a request has succeeded, and whatever else happened since, a delivery under the same
   * scope changes no code, binding, device, usage record or stored account setting, and remembers nothing new, as long
   * as the scope is remembered: it can only end leases and refresh derived statuses, and with another fingerprint it
   * fails. Only a retention pass that found the record older than its lifetime makes the store forget it.
   */
  lemma DuplicateDelivery(s: State, now: int, c: Command, between: seq<Event>, later: int, c': Command)
    requires Numbered(s)
    requires ScopeOf(c).Some? && ScopeOf(c') == ScopeOf(c)
    requires !Step(s, now, c).1.Failed?
    ensures var t, scope := Step(s, now, c).0, ScopeOf(c).value;
            var u := Run(t, between);
            var (v, reply) := Step(u, later, c');
            && Remembered(t, scope)
            && (if Outlives(t, scope, between)
                then scope in u.ledger.records && u.ledger.records[scope].fingerprint == PrintOf(c)
                else exists i :: 0 <= i < |between| && Expires(between[i], scope, t.ledger.recordedAt[scope]))
            && (scope in u.ledger.records ==>
                  && Quiet(u, v) && v.ledger.records == u.ledger.records
                  && (PrintOf(c') != u.ledger.records[scope].fingerprint ==> reply.Failed?))
  {
    hide Numbered, Step, Untouched, Repeated, Advances, Run, PrintOf, ScopeOf, OnlyStatuses, OnlyEnds, Expires;
    var t := Step(s, now, c).0;
    SucceededIsRemembered(s, now, c);
    StepAdvances(s, now, c);
    if Outlives(t, ScopeOf(c).value, between) {
      RecordsSurvive(t, between, ScopeOf(c).value);
    }
    hide Outlives;
    var u := Run(t, between);
    StepAccounted(u, later, c');
    LittleChanges(u, Step(u, later, c').0, later);
  }

  lemma LittleChanges(s: State, t: State, now: int)
    ensures Repeated(s, t) || Untouched(s, t, now) ==> Quiet(s, t) && t.ledger.records == s.ledger.records
  {
  }

  /** The store as it would be had it never remembered a request. */
  function Forgetful(s: State): State {
    s.(ledger := s.ledger.(records := map[]))
  }

  lemma ConflictFails(s: State, now: int, c: Command)
    requires ScopeOf(c).Some? && ScopeOf(c).value in s.ledger.records
    requires s.ledger.records[ScopeOf(c).value].fingerprint != PrintOf(c)
    ensures Step(s, now, c).1.Failed?
  {
    hide Step, PrintOf, Untouched, Repeated;
    StepAccounted(s, now, c);
  }

  lemma ForgetfulGate(s: State, userId: string, deviceId: string, product: Product)
    ensures Gate(Forgetful(s), userId, deviceId, product) == Gate(s, userId, deviceId, product)
  {
  }

  lemma ForgetfulRefusal(s: State, userId: string, deviceId: string, product: Product, call: CallInput)
    ensures UsageRefusal(Forgetful(s), product, userId, deviceId, call)
              == UsageRefusal(s, product, userId, deviceId, call)
  {
  }

  lemma ServeReportsConflict(s: State, now: int, c: Command)
    requires ScopeOf(c).Some? && ScopeOf(c).value in s.ledger.records
    requires s.ledger.records[ScopeOf(c).value].fingerprint != PrintOf(c) && Serve(s, now, c).1.Failed?
    ensures var error := Serve(s, now, c).1.error;
            error == IdempotencyConflict || Serve(Forgetful(s), now, c).1 == Failed(error)
  {
    hide PrintOf, ScopeOf, Forgetful;
    match c
    case CreateLeaseCommand(_, _, _, _, _, _, _) => LeaseConflict(s, now, c);
    case RenewCommand(_, _, _, _, _, _) => LeaseConflict(s, now, c);
    case ReleaseCommand(_, _, _, _, _, _) => LeaseConflict(s, now, c);
    case RecordUsageCommand(_, _, _, _, _, _) => LeaseConflict(s, now, c);
    case _ => OtherConflict(s, now, c);
  }

  lemma LeaseConflict(s: State, now: int, c: Command)
    requires c.CreateLeaseCommand? || c.RenewCommand? || c.ReleaseCommand? || c.RecordUsageCommand?
    requires ScopeOf(c).value in s.ledger.records && s.ledger.records[ScopeOf(c).value].fingerprint != PrintOf(c)
    requires Serve(s, now, c).1.Failed?
    ensures var error := Serve(s, now, c).1.error;
            error == IdempotencyConflict || Serve(Forgetful(s), now, c).1 == Failed(error)
  {
    hide Trim, ValidKey, ValidLeaseInput, ValidCall, Sweep, UsageRefusal, Gate;
    match c
    case CreateLeaseCommand(product, _, userId, deviceId, _, _, _) => ForgetfulGate(s, userId, deviceId, product);
    case RenewCommand(product, _, userId, deviceId, _, _) => ForgetfulGate(s, userId, deviceId, product);
    case ReleaseCommand(product, _, userId, deviceId, _, _) => ForgetfulGate(s, userId, deviceId, product);
    case RecordUsageCommand(product, _, userId, deviceId, _, call) =>
      ForgetfulRefusal(s, userId, deviceId, product, WithTotal(call));
  }

  lemma OtherConflict(s: State, now: int, c: Command)
    requires !c.CreateLeaseCommand? && !c.RenewCommand? && !c.ReleaseCommand? && !c.RecordUsageCommand?
    requires ScopeOf(c).Some? && ScopeOf(c).value in s.ledger.records
    requires s.ledger.records[ScopeOf(c).value].fingerprint != PrintOf(c) && Serve(s, now, c).1.Failed?
    ensures var error := Serve(s, now, c).1.error;
            error == IdempotencyConflict || Serve(Forgetful(s), now, c).1 == Failed(error)
  {
    if c.CreateCodeCommand? || c.RevokeCodeCommand? || c.ActivateCommand? {
      CodeConflict(s, now, c);
    } else {
      hide Trim, ValidKey, ValidAccountInput, ValidEdit, Sweep, CreateCode, RevokeCode, Activate;
    }
  }

  lemma CodeConflict(s: State, now: int, c: Command)
    requires c.CreateCodeCommand? || c.RevokeCodeCommand? || c.ActivateCommand?
    requires ScopeOf(c).value in s.ledger.records && s.ledger.records[ScopeOf(c).value].fingerprint != PrintOf(c)
    requires Serve(s, now, c).1.Failed?
    ensures var error := Serve(s, now, c).1.error;
            error == IdempotencyConflict || Serve(Forgetful(s), now, c).1 == Failed(error)
  {
    hide Trim, ValidKey, ValidActivation, ValidCodeInput;
  }

  /** A reused scope is reported as a conflict, unless an earlier check refuses the request for a reason of its own. */
  lemma ConflictIsReported(s: State, now: int, c: Command)
    requires ScopeOf(c).Some? && ScopeOf(c).value in s.ledger.records
    requires s.ledger.records[ScopeOf(c).value].fingerprint != PrintOf(c)
    ensures Step(s, now, c).1.Failed?
    ensures var error := Step(s, now, c).1.error;
            error == IdempotencyConflict || Step(Forgetful(s), now, c).1 == Failed(error)
  {
    hide Serve, Step, PrintOf, ScopeOf, Forgetful;
    ConflictFails(s, now, c);
    StepServes(s, now, c);
    StepServes(Forgetful(s), now, c);
    ServeReportsConflict(s, now, c);
  }
}
