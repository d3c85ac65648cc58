/** Model accounts: derived status, the choice of an account, and the administrative commands. */
module ModelPool {
  import opened Collections
  import opened Tables
  import opened LeaseTable
  import Ordering

  const COOLDOWN_SECONDS := 300

  // --- derived status ------------------------------------------------------------------------------------

  /** The latest result of an account met when the results are visited in the given order; the first one wins a tie. */
  function LatestAlong(order: seq<string>, tests: map<string, TestResult>, accountId: string): Option<TestResult>
    decreases |order|
  {
    if order == [] then None
    else
      var earlier := LatestAlong(order[..|order| - 1], tests, accountId);
      var id := order[|order| - 1];
      if id in tests && tests[id].accountId == accountId
          && (earlier.None? || earlier.value.testedAt < tests[id].testedAt)
      then Some(tests[id]) else earlier
  }

  predicate Failing(result: TestResult) {
    result.status == ProbeFailed || result.status == ProbeTimeout
  }

  predicate OverLimit(a: Account, used: nat) {
    a.dailyLimit > 0 && used >= a.dailyLimit
  }

  function CooldownEnd(a: Account, latest: Option<TestResult>): Option<int> {
    if a.cooldownUntil.Some? then a.cooldownUntil
    else if latest.Some? && Failing(latest.value) then Some(latest.value.testedAt + COOLDOWN_SECONDS)
    else None
  }

  /** One step of the status switch; the exhaustion check that follows it is in `RefreshedAccount`. */
  function Switched(a: Account, used: nat, latest: Option<TestResult>, now: int): Account {
    match a.status
    case AccountActive => if OverLimit(a, used) then a.(status := Exhausted) else a
    case Exhausted => if a.dailyLimit > 0 && used < a.dailyLimit then a.(status := AccountActive) else a
    case Cooldown =>
      var end := CooldownEnd(a, latest);
      if end.Some? && end.value <= now then a.(status := AccountActive, cooldownUntil := None) else a
    case AccountDisabled => a
  }

  function RefreshedAccount(a: Account, used: nat, latest: Option<TestResult>, now: int): Account {
    var b := Switched(a, used, latest, now);
    if b.status == AccountActive && OverLimit(b, used) then b.(status := Exhausted) else b
  }

  ghost function UsedToday(pool: Pool, accountId: string, now: int): nat {
    AccountDayTotal(pool.usage, pool.leases, accountId, Day(now), None)
  }

  ghost function RefreshedAccounts(pool: Pool, order: seq<string>, now: int): map<string, Account> {
    map id | id in pool.accounts ::
      RefreshedAccount(pool.accounts[id], UsedToday(pool, id, now), LatestAlong(order, pool.tests, id), now)
  }

  /** The status an administrator's summary shows for the same usage and latest test. */
  function NormalizedSummary(a: Account, used: nat, lastTest: Option<TestResult>, now: int): Account {
    if a.status == AccountDisabled then a
    else
      var b :=
        match a.status
        case AccountActive => if a.dailyLimit > 0 && used >= a.dailyLimit then a.(status := Exhausted) else a
        case Exhausted => if a.dailyLimit > 0 && used < a.dailyLimit then a.(status := AccountActive) else a
        case Cooldown =>
          var until := if a.cooldownUntil.None? && lastTest.Some? && Failing(lastTest.value)
                       then Some(lastTest.value.testedAt + COOLDOWN_SECONDS) else a.cooldownUntil;
          if until.Some? && until.value <= now then a.(status := AccountActive, cooldownUntil := None)
          else a.(cooldownUntil := until)
        case AccountDisabled => a;
      if b.status == AccountActive && b.dailyLimit > 0 && used >= b.dailyLimit then b.(status := Exhausted) else b
  }

  /** The end of a cooldown as a summary made from the stored tables shows it: a failing latest test overrides it. */
  function ShownEnd(a: Account, latest: Option<TestResult>): Option<int> {
    if a.status == Cooldown && latest.Some? && Failing(latest.value) then Some(latest.value.testedAt + COOLDOWN_SECONDS)
    else a.cooldownUntil
  }

  // --- choosing an account -------------------------------------------------------------------------------

  ghost predicate Eligible(pool: Pool, id: string, product: Product, provider: string, model: string, now: int) {
    && id in pool.accounts
    && var a := pool.accounts[id];
      && a.product == product && a.provider == provider && a.model == model && a.status == AccountActive
      && Trim(a.secretRef) != ""
      && !OverLimit(a, UsedToday(pool, id, now))
  }

  ghost predicate HasRoom(pool: Pool, id: string) {
    id in pool.accounts && ActiveCount(pool.leases, id) < pool.accounts[id].concurrencyLimit
  }

  /** Higher priorities come first. */
  function AccountKey(accounts: map<string, Account>, id: string): Ordering.Key
    requires id in accounts
  {
    Ordering.Key(-accounts[id].priority, id)
  }

  ghost function UsableKeys(
    pool: Pool, product: Product, provider: string, model: string, now: int): set<Ordering.Key> {
    set id | id in pool.accounts && Eligible(pool, id, product, provider, model, now) && HasRoom(pool, id) ::
      AccountKey(pool.accounts, id)
  }

  ghost function SelectAccount(
    pool: Pool, product: Product, provider: string, model: string, now: int): Option<string> {
    var keys := UsableKeys(pool, product, provider, model, now);
    if keys == {} then None
    else
      Ordering.LeastIsThere(keys);
      var k :| Ordering.IsLeast(k, keys);
      Some(k.id)
  }

  /** The chosen account is usable and no usable one has a higher priority, or the same one and a smaller identifier. */
  lemma SelectedIsBest(pool: Pool, product: Product, provider: string, model: string, now: int)
    ensures match SelectAccount(pool, product, provider, model, now)
            case Some(id) =>
              && Eligible(pool, id, product, provider, model, now) && HasRoom(pool, id)
              && forall other ::
                   other in pool.accounts && Eligible(pool, other, product, provider, model, now)
                       && HasRoom(pool, other) ==>
                     Ordering.AtMost(AccountKey(pool.accounts, id), AccountKey(pool.accounts, other))
            case None =>
              forall id :: id in pool.accounts ==>
                !(Eligible(pool, id, product, provider, model, now) && HasRoom(pool, id))
  {
    var keys := UsableKeys(pool, product, provider, model, now);
    assert forall id ::
             id in pool.accounts && Eligible(pool, id, product, provider, model, now) && HasRoom(pool, id) ==>
               AccountKey(pool.accounts, id) in keys;
    if keys != {} {
      Ordering.LeastIsThere(keys);
      var k :| Ordering.IsLeast(k, keys) && SelectAccount(pool, product, provider, model, now) == Some(k.id);
    }
  }

  // --- administrative commands ---------------------------------------------------------------------------

  predicate ValidAccountInput(input: AccountInput, urlAccepted: bool) {
    && 1 <= |input.provider| <= 64 && 1 <= |input.model| <= 128 && 8 <= |input.apiKey| <= 4096
    && (input.baseUrl == "" || urlAccepted)
    && 0 <= input.dailyLimit && 1 <= input.concurrencyLimit
  }

  function NewAccount(id: string, product: Product, input: AccountInput): Account
    requires 0 <= input.dailyLimit && 1 <= input.concurrencyLimit
  {
    Account(product, input.provider, input.model, input.baseUrl, input.status, input.priority,
            input.dailyLimit, input.concurrencyLimit, "model-account/" + id, None)
  }

  function CreateAccountVerdict(
    s: State, product: Product, key: string, input: AccountInput, urlAccepted: bool): (verdict: Verdict)
    ensures verdict.Proceed? ==> CreateAccountScope(key) !in s.ledger.records && ValidAccountInput(input, urlAccepted)
  {
    if !ValidKey(key) then Reject(IdempotencyKeyRequired)
    else if !ValidAccountInput(input, urlAccepted) then Reject(InvalidRequest)
    else Lookup(s.ledger, CreateAccountScope(key), AccountPrint(product, input))
  }

  /** `stored` is the secret store's answer to the new secret. */
  function CreateAccount(
    s: State, product: Product, key: string, input: AccountInput, urlAccepted: bool, stored: bool): (State, Reply) {
    match CreateAccountVerdict(s, product, key, input, urlAccepted)
    case Reject(error) => (s, Failed(error))
    case Repeat(id) => (s, if id in s.pool.accounts then AccountReply(s.pool.accounts[id]) else Failed(InvalidRequest))
    case Proceed =>
      var drawn := Bumped(s.ledger, "mpa");
      if !stored then (s.(ledger := drawn), Failed(SecretStoreUnavailable))
      else
        var id := NextId(s.ledger, "mpa");
        (s.(pool := s.pool.(accounts := s.pool.accounts[id := NewAccount(id, product, input)]),
            ledger := Remember(drawn, CreateAccountScope(key), AccountPrint(product, input), id)),
         AccountReply(NewAccount(id, product, input)))
  }

  function SweptPool(pool: Pool, now: int, product: Option<Product>): Pool {
    pool.(leases := Sweep(pool.leases, now, product))
  }

  predicate ValidEdit(edit: AccountEdit, urlAccepted: bool) {
    && !(edit.baseUrl.None? && edit.priority.None? && edit.dailyLimit.None? && edit.concurrencyLimit.None?
        && edit.status.None?)
    && (edit.baseUrl.None? || edit.baseUrl.value == "" || urlAccepted)
    && (edit.priority.None? || 0 <= edit.priority.value)
    && (edit.dailyLimit.None? || 0 <= edit.dailyLimit.value)
    && (edit.concurrencyLimit.None? || 1 <= edit.concurrencyLimit.value)
  }

  function OrElse<T>(o: Option<T>, default: T): T {
    if o.Some? then o.value else default
  }

  function Edited(a: Account, edit: AccountEdit): Account
    requires edit.dailyLimit.Some? ==> 0 <= edit.dailyLimit.value
    requires edit.concurrencyLimit.Some? ==> 1 <= edit.concurrencyLimit.value
  {
    a.(baseUrl := OrElse(edit.baseUrl, a.baseUrl),
       priority := OrElse(edit.priority, a.priority),
       dailyLimit := OrElse(edit.dailyLimit, a.dailyLimit),
       concurrencyLimit := OrElse(edit.concurrencyLimit, a.concurrencyLimit),
       status := OrElse(edit.status, a.status),
       cooldownUntil := if edit.status.Some? && edit.status.value != Cooldown then None else a.cooldownUntil)
  }

  /** Both edits in one; where both give a field the later one counts. */
  function Together(first: AccountEdit, second: AccountEdit): AccountEdit {
    AccountEdit(if second.baseUrl.Some? then second.baseUrl else first.baseUrl,
                if second.priority.Some? then second.priority else first.priority,
                if second.dailyLimit.Some? then second.dailyLimit else first.dailyLimit,
                if second.concurrencyLimit.Some? then second.concurrencyLimit else first.concurrencyLimit,
                if second.status.Some? then second.status else first.status)
  }

  /**
   * Two edits in a row amount to one that gives the fields of both, unless the first takes the account out of a
   * cooldown with an end and the second puts it back: then the end is lost.
   */
  lemma EditsMerge(a: Account, first: AccountEdit, second: AccountEdit)
    requires ValidEdit(first, true) && ValidEdit(second, true)
    ensures ValidEdit(Together(first, second), true)
    ensures Edited(Edited(a, first), second) == Edited(a, Together(first, second))
            <==> !(first.status.Some? && first.status.value != Cooldown && second.status == Some(Cooldown)
                   && a.cooldownUntil.Some?)
  {
    var both := Together(first, second);
    assert both.dailyLimit.Some? ==> 0 <= both.dailyLimit.value;
    assert both.concurrencyLimit.Some? ==> 1 <= both.concurrencyLimit.value;
    hide ValidEdit;
    var once, twice := Edited(a, both), Edited(Edited(a, first), second);
    assert twice == once.(cooldownUntil := twice.cooldownUntil);
  }

  function UpdateAccountVerdict(
    s: State, product: Product, key: string, accountId: string, edit: AccountEdit, urlAccepted: bool)
    : (verdict: Verdict)
    ensures verdict.Proceed? ==>
              UpdateAccountScope(key) !in s.ledger.records && accountId in s.pool.accounts
                  && ValidEdit(edit, urlAccepted)
  {
    if !ValidKey(key) then Reject(IdempotencyKeyRequired)
    else if accountId == "" then Reject(ModelPoolAccountNotFound)
    else if !ValidEdit(edit, urlAccepted) then Reject(InvalidRequest)
    else
      var lookup := Lookup(s.ledger, UpdateAccountScope(key), EditPrint(accountId, product, edit));
      if lookup.Proceed? && accountId !in s.pool.accounts then Reject(ModelPoolAccountNotFound) else lookup
  }

  /** The checks made on the swept table. */
  ghost function EditRefusal(pool: Pool, product: Product, accountId: string, edit: AccountEdit): Option<Error>
    requires accountId in pool.accounts
  {
    var active := ActiveCount(pool.leases, accountId);
    if pool.accounts[accountId].product != product then Some(Forbidden)
    else if edit.status == Some(AccountDisabled) && active > 0 then Some(ModelPoolAccountInUse)
    else if edit.concurrencyLimit.Some? && active > edit.concurrencyLimit.value then Some(ModelPoolConcurrencyConflict)
    else None
  }

  ghost function UpdateAccount(
    s: State, now: int, product: Product, key: string, accountId: string, edit: AccountEdit, urlAccepted: bool)
    : (State, Reply) {
    match UpdateAccountVerdict(s, product, key, accountId, edit, urlAccepted)
    case Reject(error) => (s, Failed(error))
    case Repeat(id) => (s, if id in s.pool.accounts then AccountReply(s.pool.accounts[id])
      else Failed(ModelPoolAccountNotFound))
    case Proceed =>
      var swept := SweptPool(s.pool, now, Some(product));
      match EditRefusal(swept, product, accountId, edit)
      case Some(error) => (s.(pool := swept), Failed(error))
      case None =>
        var a := Edited(swept.accounts[accountId], edit);
        (s.(pool := swept.(accounts := swept.accounts[accountId := a]),
            ledger := Remember(s.ledger, UpdateAccountScope(key), EditPrint(accountId, product, edit), accountId)),
         AccountReply(a))
  }

  function DisableAccountVerdict(s: State, product: Product, key: string, accountId: string): (verdict: Verdict)
    ensures verdict.Proceed? ==> DisableAccountScope(key) !in s.ledger.records
  {
    if !ValidKey(key) then Reject(IdempotencyKeyRequired)
    else if accountId == "" then Reject(ModelPoolAccountNotFound)
    else Lookup(s.ledger, DisableAccountScope(key), DisableAccountPrint(accountId, product))
  }

  ghost function DisableAccount(s: State, now: int, product: Product, key: string, accountId: string): (State, Reply) {
    match DisableAccountVerdict(s, product, key, accountId)
    case Reject(error) => (s, Failed(error))
    case Repeat(id) => (s, if id in s.pool.accounts then AccountReply(s.pool.accounts[id])
      else Failed(ModelPoolAccountNotFound))
    case Proceed =>
      var swept := SweptPool(s.pool, now, Some(product));
      if accountId !in swept.accounts then (s.(pool := swept), Failed(ModelPoolAccountNotFound))
      else if swept.accounts[accountId].product != product then (s.(pool := swept), Failed(Forbidden))
      else if ActiveCount(swept.leases, accountId) > 0 then (s.(pool := swept), Failed(ModelPoolAccountInUse))
      else
        var a := swept.accounts[accountId].(status := AccountDisabled);
        (s.(pool := swept.(accounts := swept.accounts[accountId := a]),
            ledger := Remember(s.ledger, DisableAccountScope(key), DisableAccountPrint(accountId, product), accountId)),
         AccountReply(a))
  }

  /** Listing accounts sweeps every lease and refreshes every status. */
  ghost function ListAccounts(s: State, now: int, order: seq<string>): State {
    var swept := SweptPool(s.pool, now, None);
    s.(pool := swept.(accounts := RefreshedAccounts(swept, order, now)))
  }

  function Probed(a: Account, result: TestResult): Account {
    if a.status == AccountDisabled then a
    else if result.status == ProbeSucceeded then a.(status := AccountActive, cooldownUntil := None)
    else a.(status := Cooldown, cooldownUntil := Some(result.testedAt + COOLDOWN_SECONDS))
  }

  /** The closing transaction of a connectivity test, whatever the probe found. */
  function RecordTest(
    s: State, product: Product, key: string, accountId: string, timeoutSeconds: int, result: TestResult)
    : (State, Reply) {
    var scope, digest := TestScope(accountId, key), TestPrint(accountId, product, timeoutSeconds);
    match Lookup(s.ledger, scope, digest)
    case Reject(error) => (s, Failed(error))
    case Repeat(id) => (s, TestReply(if id in s.pool.tests then s.pool.tests[id] else result))
    case Proceed =>
      var id := NextId(s.ledger, "model_test");
      var accounts := if accountId in s.pool.accounts
                      then s.pool.accounts[accountId := Probed(s.pool.accounts[accountId], result)]
                          else s.pool.accounts;
      (s.(pool := s.pool.(tests := s.pool.tests[id := result], accounts := accounts),
          ledger := Remember(Bumped(s.ledger, "model_test"), scope, digest, id)),
       TestReply(result))
  }
}
