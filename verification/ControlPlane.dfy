/** Commands, runs of commands, and what holds in every state a run reaches. */
module ControlPlane {
  import opened Collections
  import opened Tables
  import opened Activation
  import opened ModelPool
  import opened Leasing
  import opened Bindings
  import opened LeaseSafety
  import opened Progress

  /**
   * One delivery to the control plane. Besides the request it carries what the command gets from outside: random
   * text, the secret store's answer, the verdict on a URL, a probe's result, the order a map is visited in.
   * `Administer` is any change the user-management commands make. `Forget` is a retention pass: of the requests
   * remembered and the test results made longer ago than their lifetimes it drops the ones named.
   */
  datatype Command =
    | CreateCodeCommand(product: Product, strict: bool, key: string, code: CodeInput, token: Option<string>)
    | RevokeCodeCommand(product: Product, strict: bool, key: string, codeId: string)
    | ListCodesCommand(within: Option<Product>)
    | ActivateCommand(key: string, userId: string, activation: ActivateInput)
    | DisableDeviceCommand(product: Product, key: string, deviceId: string)
    | UnbindCommand(product: Product, key: string, deviceId: string)
    | CreateAccountCommand(product: Product, key: string, account: AccountInput, urlAccepted: bool, stored: bool)
    | UpdateAccountCommand(product: Product, key: string, accountId: string, edit: AccountEdit, urlAccepted: bool)
    | DisableAccountCommand(product: Product, key: string, accountId: string)
    | ListAccountsCommand(order: seq<string>)
    | RecordTestCommand(product: Product, key: string, accountId: string, timeoutSeconds: int, result: TestResult)
    | CreateLeaseCommand(product: Product, key: string, userId: string, deviceId: string, lease: LeaseInput,
      order: seq<string>, secretFound: bool)
    | RenewCommand(product: Product, key: string, userId: string, deviceId: string, leaseId: string, extendSeconds: int)
    | ReleaseCommand(product: Product, key: string, userId: string, deviceId: string, leaseId: string, reason: string)
    | ReclaimCommand(product: Product, key: string, leaseId: string, reason: string)
    | RecordUsageCommand(product: Product, key: string, userId: string, deviceId: string, requestId: string,
      call: CallInput)
    | Administer(people: People)
    | Forget(recordLife: int, testLife: int, scopes: set<Scope>, testIds: set<string>)

  function OldTests(tests: map<string, TestResult>, cutoff: int): set<string> {
    set id | id in tests && tests[id].testedAt < cutoff
  }

  /** A retention policy with a lifetime that is not positive is refused. */
  function Pruned(s: State, now: int, recordLife: int, testLife: int, scopes: set<Scope>, testIds: set<string>): State {
    if recordLife <= 0 || testLife <= 0 then s
    else
      s.(ledger := s.ledger.(records := s.ledger.records - scopes * OldRecords(s.ledger, now - recordLife)),
         pool := s.pool.(tests := s.pool.tests - testIds * OldTests(s.pool.tests, now - testLife)))
  }

  ghost function Serve(s: State, now: int, c: Command): (State, Reply) {
    match c
    case CreateCodeCommand(product, strict, key, code, token) => CreateCode(s, now, product, strict, key, code, token)
    case RevokeCodeCommand(product, strict, key, codeId) => RevokeCode(s, product, strict, key, codeId)
    case ListCodesCommand(within) => (ListCodes(s, now, within), Done)
    case ActivateCommand(key, userId, activation) => Activate(s, now, key, userId, activation)
    case DisableDeviceCommand(product, key, deviceId) => DisableDevice(s, now, product, key, deviceId)
    case UnbindCommand(product, key, deviceId) => UnbindDevice(s, now, product, key, deviceId)
    case CreateAccountCommand(product, key, account, urlAccepted, stored) =>
      CreateAccount(s, product, key, account, urlAccepted, stored)
    case UpdateAccountCommand(product, key, accountId, edit, urlAccepted) =>
      UpdateAccount(s, now, product, key, accountId, edit, urlAccepted)
    case DisableAccountCommand(product, key, accountId) => DisableAccount(s, now, product, key, accountId)
    case ListAccountsCommand(order) => (ListAccounts(s, now, order), Done)
    case RecordTestCommand(product, key, accountId, timeoutSeconds, result) =>
      RecordTest(s, product, key, accountId, timeoutSeconds, result)
    case CreateLeaseCommand(product, key, userId, deviceId, lease, order, secretFound) =>
      CreateLease(s, now, product, key, userId, deviceId, lease, order, secretFound)
    case RenewCommand(product, key, userId, deviceId, leaseId, extendSeconds) =>
      RenewLease(s, now, product, key, userId, deviceId, leaseId, extendSeconds)
    case ReleaseCommand(product, key, userId, deviceId, leaseId, reason) =>
      ReleaseLease(s, now, product, key, userId, deviceId, leaseId, reason)
    case ReclaimCommand(product, key, leaseId, reason) => ReclaimLease(s, now, product, key, leaseId, reason)
    case RecordUsageCommand(product, key, userId, deviceId, requestId, call) =>
      RecordUsage(s, now, product, key, userId, deviceId, requestId, call)
    case Administer(people) => (s.(people := people), Done)
    case Forget(recordLife, testLife, scopes, testIds) =>
      (Pruned(s, now, recordLife, testLife, scopes, testIds), Done)
  }

  /** A whole transaction: the command, then the dating of the requests it remembered. */
  ghost function Step(s: State, now: int, c: Command): (State, Reply) {
    var (t, reply) := Serve(s, now, c);
    (t.(ledger := Synced(t.ledger, now)), reply)
  }

  datatype Event = Event(now: int, command: Command)

  ghost function Run(s: State, events: seq<Event>): State
    decreases |events|
  {
    if events == [] then s else Run(Step(s, events[0].now, events[0].command).0, events[1..])
  }

  /** The clock starts at `from` and never runs backwards. */
  predicate Timed(from: int, events: seq<Event>)
    decreases |events|
  {
    events == [] || (from <= events[0].now && Timed(events[0].now, events[1..]))
  }

  function LastTime(from: int, events: seq<Event>): int {
    if events == [] then from else events[|events| - 1].now
  }

  // --- every step ------------------------------------------------------------------------------------------

  ghost predicate Invariant(s: State, now: int) {
    && Consistent(s.grants, now)
    && PoolSound(s.pool)
    && OnActiveDevices(s.pool.leases, s.grants.devices)
    && Numbered(s)
  }

  function Empty(people: People): State {
    State(people, Grants(map[], map[], map[]), Pool(map[], map[], map[], map[]), Ledger(map[], map[], map[]))
  }

  lemma EmptyIsSound(people: People, now: int)
    ensures Invariant(Empty(people), now)
  {
  }

  lemma ForgetAdvances(
    s: State, now: int, recordLife: int, testLife: int, scopes: set<Scope>, testIds: set<string>)
    requires Numbered(s)
    ensures var t := Serve(s, now, Forget(recordLife, testLife, scopes, testIds)).0; Advances(s, t) && Numbered(t)
  {
    hide Issued;
    IssuedFewer(s.pool.tests.Keys, Pruned(s, now, recordLife, testLife, scopes, testIds).pool.tests.Keys, "model_test",
        Counter(s.ledger, "model_test"));
  }

  lemma ServeAdvances(s: State, now: int, c: Command)
    requires Numbered(s)
    ensures var t := Serve(s, now, c).0;
            && Advances(s, t) && Numbered(t)
            && (!c.Forget? ==> KeepsRecords(s.ledger, t.ledger))
  {
    hide Advances, Numbered, KeepsRecords;
    match c
    case CreateCodeCommand(product, strict, key, code, token) =>
      CreateCodeAdvances(s, now, product, strict, key, code, token);
    case RevokeCodeCommand(product, strict, key, codeId) => RevokeAdvances(s, product, strict, key, codeId);
    case ListCodesCommand(within) => ListCodesAdvances(s, now, within);
    case ActivateCommand(key, userId, activation) => ActivateAdvances(s, now, key, userId, activation);
    case DisableDeviceCommand(product, key, deviceId) => DisableDeviceAdvances(s, now, product, key, deviceId);
    case UnbindCommand(product, key, deviceId) => UnbindAdvances(s, now, product, key, deviceId);
    case CreateAccountCommand(product, key, account, urlAccepted, stored) =>
      CreateAccountAdvances(s, product, key, account, urlAccepted, stored);
    case UpdateAccountCommand(product, key, accountId, edit, urlAccepted) =>
      UpdateAccountAdvances(s, now, product, key, accountId, edit, urlAccepted);
    case DisableAccountCommand(product, key, accountId) => DisableAccountAdvances(s, now, product, key, accountId);
    case ListAccountsCommand(order) => ListAccountsAdvances(s, now, order);
    case RecordTestCommand(product, key, accountId, timeoutSeconds, result) =>
      RecordTestAdvances(s, product, key, accountId, timeoutSeconds, result);
    case CreateLeaseCommand(product, key, userId, deviceId, lease, order, secretFound) =>
      CreateLeaseAdvances(s, now, product, key, userId, deviceId, lease, order, secretFound);
    case RenewCommand(product, key, userId, deviceId, leaseId, extendSeconds) =>
      RenewAdvances(s, now, product, key, userId, deviceId, leaseId, extendSeconds);
    case ReleaseCommand(product, key, userId, deviceId, leaseId, reason) =>
      ReleaseAdvances(s, now, product, key, userId, deviceId, leaseId, reason);
    case ReclaimCommand(product, key, leaseId, reason) => ReclaimAdvances(s, now, product, key, leaseId, reason);
    case RecordUsageCommand(product, key, userId, deviceId, requestId, call) =>
      RecordUsageAdvances(s, now, product, key, userId, deviceId, requestId, call);
    case Administer(people) => AdministerAdvances(s, now, people);
    case Forget(recordLife, testLife, scopes, testIds) => ForgetAdvances(s, now, recordLife, testLife, scopes, testIds);
  }

  lemma AdministerAdvances(s: State, now: int, people: People)
    requires Numbered(s)
    ensures var t := Serve(s, now, Administer(people)).0;
            Advances(s, t) && Numbered(t) && KeepsRecords(s.ledger, t.ledger)
  {
    hide Issued;
  }

  lemma ServeKeepsGrants(s: State, now: int, c: Command)
    requires Consistent(s.grants, now) && Numbered(s)
    ensures Consistent(Serve(s, now, c).0.grants, now)
  {
    hide Consistent, Issued;
    match c
    case CreateCodeCommand(product, strict, key, code, token) => CreateKeeps(s, now, product, strict, key, code, token);
    case RevokeCodeCommand(product, strict, key, codeId) => RevokeKeeps(s, now, product, strict, key, codeId);
    case ListCodesCommand(within) => ListKeeps(s, now, within);
    case ActivateCommand(key, userId, activation) => ActivateKeeps(s, now, key, userId, activation);
    case DisableDeviceCommand(product, key, deviceId) => DisableKeeps(s, now, product, key, deviceId);
    case UnbindCommand(product, key, deviceId) => UnbindKeeps(s, now, product, key, deviceId);
    case _ => OthersKeepGrants(s, now, c);
  }

  lemma OthersKeepGrants(s: State, now: int, c: Command)
    requires !c.CreateCodeCommand? && !c.RevokeCodeCommand? && !c.ListCodesCommand?
    requires !c.ActivateCommand? && !c.DisableDeviceCommand? && !c.UnbindCommand?
    ensures Serve(s, now, c).0.grants == s.grants
  {
    hide ValidKey, Trim, NextId, Lookup, Gate, LeaseRefusal, RefreshedAccounts, Charged, UsageRefusal;
  }

  lemma ForgetKeepsPool(
    s: State, now: int, recordLife: int, testLife: int, scopes: set<Scope>, testIds: set<string>)
    requires PoolSound(s.pool)
    ensures var t := Serve(s, now, Forget(recordLife, testLife, scopes, testIds)).0;
            PoolSound(t.pool) && t.pool.leases == s.pool.leases
  {
    hide OnAccounts, WithinLimits, RecordedOnce;
  }

  /** Commands on codes and people leave pool and devices alone. */
  lemma CodesKeepPool(s: State, now: int, c: Command)
    requires c.CreateCodeCommand? || c.RevokeCodeCommand? || c.ListCodesCommand? || c.Administer?
    ensures var t := Serve(s, now, c).0; t.pool == s.pool && t.grants.devices == s.grants.devices
  {
    hide ValidKey, NextId, CreateCodeVerdict, Lookup;
  }

  /** So do these leave the leases. */
  lemma SameLeases(s: State, now: int, c: Command)
    requires c.ActivateCommand? || c.CreateAccountCommand? || c.RecordTestCommand?
    ensures Serve(s, now, c).0.pool.leases == s.pool.leases
    ensures c.ActivateCommand? ==> Serve(s, now, c).0.pool == s.pool
  {
    hide NextId, ActivateVerdict, SelectCode, Covered, CreateAccountVerdict, Lookup;
  }

  lemma ServeKeepsPool(s: State, now: int, c: Command)
    requires PoolSound(s.pool) && OnActiveDevices(s.pool.leases, s.grants.devices) && Numbered(s)
    ensures var t := Serve(s, now, c).0; PoolSound(t.pool) && OnActiveDevices(t.pool.leases, t.grants.devices)
  {
    hide PoolSound, OnActiveDevices, Issued, CreateCode, RevokeCode, ListCodes, Activate, DisableDevice, UnbindDevice,
        CreateAccount, UpdateAccount, DisableAccount, ListAccounts, RecordTest, CreateLease, RenewLease, ReleaseLease,
        ReclaimLease, RecordUsage, Pruned;
    if !(c.CreateCodeCommand? || c.RevokeCodeCommand? || c.ListCodesCommand? || c.ActivateCommand?
        || c.DisableDeviceCommand? || c.UnbindCommand?) {
      OthersKeepGrants(s, now, c);
    }
    if c.ActivateCommand? || c.CreateAccountCommand? || c.RecordTestCommand? {
      SameLeases(s, now, c);
    }
    match c
    case ActivateCommand(key, userId, activation) => ActivateKeepsDevices(s, now, key, userId, activation);
    case DisableDeviceCommand(product, key, deviceId) => DisableKeepsDevices(s, now, product, key, deviceId);
    case UnbindCommand(product, key, deviceId) => UnbindKeepsDevices(s, now, product, key, deviceId);
    case CreateAccountCommand(product, key, account, urlAccepted, stored) =>
      CreateAccountKeeps(s, product, key, account, urlAccepted, stored);
    case UpdateAccountCommand(product, key, accountId, edit, urlAccepted) =>
      UpdateAccountKeeps(s, now, product, key, accountId, edit, urlAccepted);
    case DisableAccountCommand(product, key, accountId) => DisableAccountKeeps(s, now, product, key, accountId);
    case ListAccountsCommand(order) => ListAccountsKeeps(s, now, order);
    case RecordTestCommand(product, key, accountId, timeoutSeconds, result) =>
      RecordTestKeeps(s, product, key, accountId, timeoutSeconds, result);
    case CreateLeaseCommand(product, key, userId, deviceId, lease, order, secretFound) =>
      CreateLeaseKeeps(s, now, product, key, userId, deviceId, lease, order, secretFound);
    case RenewCommand(product, key, userId, deviceId, leaseId, extendSeconds) =>
      RenewKeeps(s, now, product, key, userId, deviceId, leaseId, extendSeconds);
    case ReleaseCommand(product, key, userId, deviceId, leaseId, reason) =>
      ReleaseKeeps(s, now, product, key, userId, deviceId, leaseId, reason);
    case ReclaimCommand(product, key, leaseId, reason) => ReclaimKeeps(s, now, product, key, leaseId, reason);
    case RecordUsageCommand(product, key, userId, deviceId, requestId, call) =>
      RecordUsageKeeps(s, now, product, key, userId, deviceId, requestId, call);
    case Forget(recordLife, testLife, scopes, testIds) =>
      ForgetKeepsPool(s, now, recordLife, testLife, scopes, testIds);
    case _ => CodesKeepPool(s, now, c);
  }

  /** Dating the records touches nothing the invariants speak of. */
  lemma StepServes(s: State, now: int, c: Command)
    ensures var t, u := Serve(s, now, c).0, Step(s, now, c).0;
            && u == t.(ledger := u.ledger) && u.ledger == t.ledger.(recordedAt := u.ledger.recordedAt)
            && Step(s, now, c).1 == Serve(s, now, c).1
            && u.ledger.recordedAt.Keys == u.ledger.records.Keys
  {
    hide Serve;
  }

  /** No command takes anything back: codes, leases and usage only advance, and only `Forget` drops a record. */
  lemma StepAdvances(s: State, now: int, c: Command)
    requires Numbered(s)
    ensures var t := Step(s, now, c).0;
            && Advances(s, t) && Numbered(t)
            && (!c.Forget? ==> KeepsRecords(s.ledger, t.ledger))
  {
    hide Serve, Step, Issued, CodesAdvance, LeasesAdvance, UsageAdvances;
    ServeAdvances(s, now, c);
    StepServes(s, now, c);
  }

  /** Every command keeps the invariant. */
  lemma StepKeepsInvariant(s: State, now: int, c: Command)
    requires Invariant(s, now)
    ensures Invariant(Step(s, now, c).0, now)
  {
    hide Serve, Step, Consistent, PoolSound, OnActiveDevices, Numbered;
    ServeKeepsGrants(s, now, c);
    ServeKeepsPool(s, now, c);
    StepServes(s, now, c);
    StepAdvances(s, now, c);
  }
}
