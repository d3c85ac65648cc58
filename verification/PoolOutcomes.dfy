/** What becomes of a request about model accounts: which check turns it away, what it changes, what it leaves alone. */
module PoolOutcomes {
  import opened Collections
  import opened Tables
  import opened LeaseTable
  import opened ModelPool
  import opened ControlPlane
  import opened Requests

  /** Nothing but the pool, and what is remembered of requests and draws. */
  predicate OnlyPool(s: State, t: State) {
    t == s.(pool := t.pool, ledger := t.ledger)
  }

  /** Of the leases there were, active ones of the product whose time is up are expired, once; no other one changes. */
  ghost predicate ExpiresIn(before: map<string, Lease>, after: map<string, Lease>, now: int, product: Option<Product>) {
    forall id :: id in before ==> id in after && ExpiresRow(before[id], after[id], now, product)
  }

  predicate ExpiresRow(before: Lease, after: Lease, now: int, product: Option<Product>) {
    if before.status == LeaseActive && before.expiresAt <= now && product in {None, Some(before.product)} then
      && after == before.(status := LeaseExpired, releasedAt := after.releasedAt)
      && after.releasedAt == if before.releasedAt.Some? then before.releasedAt else Some(now)
    else after == before
  }

  ghost predicate Expires(s: State, t: State, now: int, product: Option<Product>) {
    t.pool.leases.Keys == s.pool.leases.Keys && ExpiresIn(s.pool.leases, t.pool.leases, now, product)
  }

  /** Nothing but leases that expire. */
  ghost predicate OnlyExpiry(s: State, t: State, now: int, product: Option<Product>) {
    t == s.(pool := s.pool.(leases := t.pool.leases)) && Expires(s, t, now, product)
  }

  lemma SweepExpires(s: State, t: State, now: int, product: Option<Product>)
    requires t.pool.leases == Sweep(s.pool.leases, now, product)
    ensures Expires(s, t, now, product)
  {
  }

  /** The account's leases that are active and, in the product swept, not past their time. */
  function Busy(s: State, now: int, product: Product, accountId: string): set<string> {
    set id | id in s.pool.leases && s.pool.leases[id].accountId == accountId && s.pool.leases[id].status == LeaseActive
        && (s.pool.leases[id].product == product ==> now < s.pool.leases[id].expiresAt)
  }

  lemma BusyIsCounted(s: State, now: int, product: Product, accountId: string)
    ensures ActiveCount(Sweep(s.pool.leases, now, Some(product)), accountId) == |Busy(s, now, product, accountId)|
  {
    var swept := Sweep(s.pool.leases, now, Some(product));
    ActiveCountIsSize(swept, accountId);
    assert (set id | id in swept && swept[id].accountId == accountId && swept[id].status == LeaseActive)
        == Busy(s, now, product, accountId);
  }

  // --- creating an account ---------------------------------------------------------------------------------

  function AccountChecks(s: State, c: Command): seq<Check>
    requires c.CreateAccountCommand?
  {
    var a, scope := c.account, CreateAccountScope(c.key);
    var good := && 1 <= |a.provider| <= 64 && 1 <= |a.model| <= 128 && 8 <= |a.apiKey| <= 4096
                && (a.baseUrl != "" ==> c.urlAccepted) && a.dailyLimit >= 0 && a.concurrencyLimit > 0;
    [Check(!GoodKey(c.key), IdempotencyKeyRequired),
     Check(!good, InvalidRequest),
     Check(Clashes(s, scope, AccountPrint(c.product, a)), IdempotencyConflict),
     Check(Known(s, scope) && Resource(s, scope) !in s.pool.accounts, InvalidRequest),
     Check(!Known(s, scope) && !c.stored, SecretStoreUnavailable)]
  }

  lemma AccountCreationDecided(s: State, now: int, c: Command)
    requires c.CreateAccountCommand?
    ensures DecidedBy(AccountChecks(s, c), Serve(s, now, c).1)
    ensures var (t, reply) := Serve(s, now, c);
            reply.Failed? && reply.error != SecretStoreUnavailable ==> t == s
  {
    var checks := AccountChecks(s, c);
    KeysAreGood(c.key);
    Unfolds(checks);
    hide ValidKey, GoodKey, NextId;
    Decides(checks, 0, Serve(s, now, c).1);
  }

  /**
   * A new account is as asked for, with a secret reference of its own; one whose secret is not stored leaves a draw.
   */
  lemma AccountIsCreated(s: State, now: int, c: Command)
    requires c.CreateAccountCommand?
    ensures var ((t, reply), a, scope) := (Serve(s, now, c), c.account, CreateAccountScope(c.key));
            && (reply == Failed(SecretStoreUnavailable) ==>
                  t == s.(ledger := t.ledger) && Draws(s, t, "mpa", 1) && t.ledger.records == s.ledger.records)
            && (!reply.Failed? && Known(s, scope) ==>
                  t == s && reply == AccountReply(s.pool.accounts[Resource(s, scope)]))
            && (!reply.Failed? && !Known(s, scope) ==>
                  var id := NextId(s.ledger, "mpa");
                  && OnlyPool(s, t) && t.pool == s.pool.(accounts := t.pool.accounts)
                  && OnlyRow(s.pool.accounts, t.pool.accounts, id)
                  && Draws(s, t, "mpa", 1) && Remembers(s, t, scope, AccountPrint(c.product, a), id)
                  && var row := t.pool.accounts[id];
                    && row.product == c.product && row.provider == a.provider && row.model == a.model
                    && row.baseUrl == a.baseUrl && row.status == a.status && row.priority == a.priority
                    && row.dailyLimit == a.dailyLimit && row.concurrencyLimit == a.concurrencyLimit
                    && row.secretRef == "model-account/" + id && row.cooldownUntil.None? && reply == AccountReply(row))
  {
    hide ValidKey, NextId;
  }

  // --- editing and disabling an account --------------------------------------------------------------------

  ghost function EditChecks(s: State, now: int, c: Command): seq<Check>
    requires c.UpdateAccountCommand?
  {
    var e, id, scope := c.edit, c.accountId, UpdateAccountScope(c.key);
    var known, there := Known(s, scope), c.accountId in s.pool.accounts;
    var busy := |Busy(s, now, c.product, id)|;
    var empty := e == AccountEdit(None, None, None, None, None);
    var bad := || (e.baseUrl.Some? && e.baseUrl.value != "" && !c.urlAccepted)
               || (e.priority.Some? && e.priority.value < 0)
               || (e.dailyLimit.Some? && e.dailyLimit.value < 0)
               || (e.concurrencyLimit.Some? && e.concurrencyLimit.value <= 0);
    [Check(!GoodKey(c.key), IdempotencyKeyRequired),
     Check(id == "", ModelPoolAccountNotFound),
     Check(empty || bad, InvalidRequest),
     Check(Clashes(s, scope, EditPrint(id, c.product, e)), IdempotencyConflict),
     Check(known && Resource(s, scope) !in s.pool.accounts, ModelPoolAccountNotFound),
     Check(!known && !there, ModelPoolAccountNotFound),
     Check(!known && there && s.pool.accounts[id].product != c.product, Forbidden),
     Check(!known && e.status == Some(AccountDisabled) && busy > 0, ModelPoolAccountInUse),
     Check(!known && e.concurrencyLimit.Some? && e.concurrencyLimit.value < busy, ModelPoolConcurrencyConflict)]
  }

  lemma EditDecided(s: State, now: int, c: Command)
    requires c.UpdateAccountCommand?
    ensures DecidedBy(EditChecks(s, now, c), Serve(s, now, c).1)
    ensures var (t, reply) := Serve(s, now, c);
            reply.Failed? ==>
              if reply.error in {Forbidden, ModelPoolAccountInUse, ModelPoolConcurrencyConflict}
              then OnlyExpiry(s, t, now, Some(c.product)) else t == s
  {
    hide ValidKey, GoodKey, Edited, Sweep, ActiveCount, Busy, Expires;
    var checks := EditChecks(s, now, c);
    if Serve(s, now, c).1.Failed? {
      EditFails(s, now, c);
    }
    KeysAreGood(c.key);
    BusyIsCounted(s, now, c.product, c.accountId);
    Unfolds(checks);
    Decides(checks, 0, Serve(s, now, c).1);
  }

  lemma EditFails(s: State, now: int, c: Command)
    requires c.UpdateAccountCommand? && Serve(s, now, c).1.Failed?
    ensures var (t, reply) := Serve(s, now, c);
            if reply.error in {Forbidden, ModelPoolAccountInUse, ModelPoolConcurrencyConflict}
            then OnlyExpiry(s, t, now, Some(c.product)) else t == s
  {
    hide ValidKey, ValidEdit, Edited, Sweep, ActiveCount, Expires;
    var t := Serve(s, now, c).0;
    if t.pool.leases == Sweep(s.pool.leases, now, Some(c.product)) {
      SweepExpires(s, t, now, Some(c.product));
    }
  }

  /** The field is the one given, or as before if none is given. */
  predicate Takes<T(==)>(given: Option<T>, before: T, after: T) {
    after == if given.Some? then given.value else before
  }

  /**
   * The account takes over the fields given, and an end of a cooldown it leaves is dropped; nothing else of it
   * changes.
   */
  predicate TakesOver(before: Account, after: Account, e: AccountEdit) {
    && Takes(e.baseUrl, before.baseUrl, after.baseUrl) && Takes(e.priority, before.priority, after.priority)
    && Takes(e.dailyLimit, before.dailyLimit, after.dailyLimit)
    && Takes(e.concurrencyLimit, before.concurrencyLimit, after.concurrencyLimit)
    && Takes(e.status, before.status, after.status)
    && after.cooldownUntil == (if e.status in {None, Some(Cooldown)} then before.cooldownUntil else None)
    && after.product == before.product && after.provider == before.provider && after.model == before.model
    && after.secretRef == before.secretRef
  }

  lemma AccountIsEdited(s: State, now: int, c: Command)
    requires c.UpdateAccountCommand? && !Serve(s, now, c).1.Failed?
    ensures var ((t, reply), id, scope) := (Serve(s, now, c), c.accountId, UpdateAccountScope(c.key));
            if Known(s, scope) then t == s && reply == AccountReply(s.pool.accounts[Resource(s, scope)])
            else
              && OnlyPool(s, t) && t.pool == s.pool.(accounts := t.pool.accounts, leases := t.pool.leases)
              && Expires(s, t, now, Some(c.product))
              && OnlyRow(s.pool.accounts, t.pool.accounts, id)
              && TakesOver(s.pool.accounts[id], t.pool.accounts[id], c.edit)
              && reply == AccountReply(t.pool.accounts[id])
              && Remembers(s, t, scope, EditPrint(id, c.product, c.edit), id)
              && t.ledger.sequences == s.ledger.sequences
  {
    hide ValidKey, ValidEdit, Sweep, ActiveCount, Expires, TakesOver, Edited;
    var t := Serve(s, now, c).0;
    if !Known(s, UpdateAccountScope(c.key)) {
      SweepExpires(s, t, now, Some(c.product));
      FieldsAreTaken(s.pool.accounts[c.accountId], c.edit, c.urlAccepted);
    }
  }

  lemma FieldsAreTaken(a: Account, e: AccountEdit, urlAccepted: bool)
    requires ValidEdit(e, urlAccepted)
    ensures TakesOver(a, Edited(a, e), e)
  {
  }

  ghost function DisablingChecks(s: State, now: int, c: Command): seq<Check>
    requires c.DisableAccountCommand?
  {
    var id, scope := c.accountId, DisableAccountScope(c.key);
    var known, there := Known(s, scope), id in s.pool.accounts;
    [Check(!GoodKey(c.key), IdempotencyKeyRequired),
     Check(id == "", ModelPoolAccountNotFound),
     Check(Clashes(s, scope, DisableAccountPrint(id, c.product)), IdempotencyConflict),
     Check(known && Resource(s, scope) !in s.pool.accounts, ModelPoolAccountNotFound),
     Check(!known && !there, ModelPoolAccountNotFound),
     Check(!known && there && s.pool.accounts[id].product != c.product, Forbidden),
     Check(!known && Busy(s, now, c.product, id) != {}, ModelPoolAccountInUse)]
  }

  lemma AccountDisablingDecided(s: State, now: int, c: Command)
    requires c.DisableAccountCommand?
    ensures DecidedBy(DisablingChecks(s, now, c), Serve(s, now, c).1)
    ensures var (t, reply) := Serve(s, now, c);
            reply.Failed? ==>
              if reply.error in {Forbidden, ModelPoolAccountInUse} || (reply.error == ModelPoolAccountNotFound
                  && c.accountId != "" && !Known(s, DisableAccountScope(c.key)))
              then OnlyExpiry(s, t, now, Some(c.product)) else t == s
  {
    hide ValidKey, GoodKey, Sweep, ActiveCount, Busy, Expires;
    var checks := DisablingChecks(s, now, c);
    if Serve(s, now, c).1.Failed? {
      DisablingFails(s, now, c);
    }
    KeysAreGood(c.key);
    BusyIsCounted(s, now, c.product, c.accountId);
    assert Busy(s, now, c.product, c.accountId) != {} <==> |Busy(s, now, c.product, c.accountId)| > 0;
    Unfolds(checks);
    Decides(checks, 0, Serve(s, now, c).1);
  }

  lemma DisablingFails(s: State, now: int, c: Command)
    requires c.DisableAccountCommand? && Serve(s, now, c).1.Failed?
    ensures var (t, reply) := Serve(s, now, c);
            if reply.error in {Forbidden, ModelPoolAccountInUse} || (reply.error == ModelPoolAccountNotFound
                && c.accountId != "" && !Known(s, DisableAccountScope(c.key)))
            then OnlyExpiry(s, t, now, Some(c.product)) else t == s
  {
    hide ValidKey, Sweep, ActiveCount, Expires;
    var t := Serve(s, now, c).0;
    if t.pool.leases == Sweep(s.pool.leases, now, Some(c.product)) {
      SweepExpires(s, t, now, Some(c.product));
    }
  }

  lemma AccountGetsDisabled(s: State, now: int, c: Command)
    requires c.DisableAccountCommand? && !Serve(s, now, c).1.Failed?
    ensures var ((t, reply), id, scope) := (Serve(s, now, c), c.accountId, DisableAccountScope(c.key));
            if Known(s, scope) then t == s && reply == AccountReply(s.pool.accounts[Resource(s, scope)])
            else
              && OnlyPool(s, t) && t.pool == s.pool.(accounts := t.pool.accounts, leases := t.pool.leases)
              && Expires(s, t, now, Some(c.product)) && OnlyRow(s.pool.accounts, t.pool.accounts, id)
              && t.pool.accounts[id].status == AccountDisabled
              && t.pool.accounts[id] == s.pool.accounts[id].(status := AccountDisabled)
              && reply == AccountReply(t.pool.accounts[id])
              && Remembers(s, t, scope, DisableAccountPrint(id, c.product), id)
              && t.ledger.sequences == s.ledger.sequences
  {
    var t := Serve(s, now, c).0;
    if !Known(s, DisableAccountScope(c.key)) {
      hide ValidKey, Sweep, ActiveCount, Expires;
      SweepExpires(s, t, now, Some(c.product));
    }
  }

  // --- refreshed statuses ----------------------------------------------------------------------------------

  /** When a cooldown ends: at the stored end, or five minutes after a latest test that failed. */
  predicate CooldownOver(a: Account, latest: Option<TestResult>, now: int) {
    if a.cooldownUntil.Some? then a.cooldownUntil.value <= now
    else latest.Some? && latest.value.status != ProbeSucceeded && latest.value.testedAt + 300 <= now
  }

  predicate Spent(a: Account, used: nat) { a.dailyLimit > 0 && a.dailyLimit <= used }

  /**
   * The status a refresh gives: disabled stays, a cooldown that is not over stays, an exhausted account without a limit
   * stays; every other account is exhausted if its tokens of the day are spent and active otherwise.
   */
  lemma RefreshGives(a: Account, used: nat, latest: Option<TestResult>, now: int)
    ensures var b := RefreshedAccount(a, used, latest, now);
            && b == a.(status := b.status, cooldownUntil := b.cooldownUntil)
            && (b.cooldownUntil != a.cooldownUntil <==>
                  a.status == Cooldown && CooldownOver(a, latest, now) && a.cooldownUntil.Some?)
            && (b.cooldownUntil != a.cooldownUntil ==> b.cooldownUntil.None?)
            && b.status ==
               if a.status == AccountDisabled || (a.status == Cooldown && !CooldownOver(a, latest, now))
                  || (a.status == Exhausted && a.dailyLimit == 0)
               then a.status
               else if Spent(a, used) then Exhausted else AccountActive
  {
  }

  /** Listing accounts expires leases of every product, refreshes every account and does nothing else. */
  lemma AccountsAreListed(s: State, now: int, order: seq<string>)
    ensures var (t, reply) := Serve(s, now, ListAccountsCommand(order));
            && reply == Done && t == s.(pool := s.pool.(accounts := t.pool.accounts, leases := t.pool.leases))
            && Expires(s, t, now, None) && t.pool.accounts.Keys == s.pool.accounts.Keys
            && forall id :: id in s.pool.accounts ==>
                 t.pool.accounts[id] == RefreshedAccount(
                   s.pool.accounts[id],
                   AccountDayTotal(s.pool.usage, t.pool.leases, id, Day(now), None),
                   LatestAlong(order, s.pool.tests, id), now)
  {
    SweepExpires(s, Serve(s, now, ListAccountsCommand(order)).0, now, None);
    hide RefreshedAccount, AccountDayTotal, LatestAlong, Sweep, Expires;
  }

  // --- recording a test ------------------------------------------------------------------------------------

  /** A request remembered under another fingerprint is the only one that fails. */
  lemma TestDecided(s: State, now: int, c: Command)
    requires c.RecordTestCommand?
    ensures var scope, digest := TestScope(c.accountId, c.key), TestPrint(c.accountId, c.product, c.timeoutSeconds);
            Serve(s, now, c).1.Failed? <==> Clashes(s, scope, digest)
    ensures Serve(s, now, c).1.Failed? ==> Serve(s, now, c) == (s, Failed(IdempotencyConflict))
  {
  }

  /** The result is kept, and unless it is disabled its account is active after a success and cools down otherwise. */
  lemma TestIsRecorded(s: State, now: int, c: Command)
    requires c.RecordTestCommand? && !Serve(s, now, c).1.Failed?
    ensures var ((t, reply), account, scope) := (Serve(s, now, c), c.accountId, TestScope(c.accountId, c.key));
            if Known(s, scope) then
              && t == s
              && reply == TestReply(if Resource(s, scope) in s.pool.tests then s.pool.tests[Resource(s, scope)]
                                    else c.result)
            else
              var id := NextId(s.ledger, "model_test");
              && OnlyPool(s, t) && t.pool == s.pool.(accounts := t.pool.accounts, tests := t.pool.tests)
              && OnlyRow(s.pool.tests, t.pool.tests, id) && t.pool.tests[id] == c.result && reply == TestReply(c.result)
              && Draws(s, t, "model_test", 1)
              && Remembers(s, t, scope, TestPrint(account, c.product, c.timeoutSeconds), id)
              && t.pool.accounts.Keys == s.pool.accounts.Keys
              && forall k :: k in s.pool.accounts ==>
                   var before, after := s.pool.accounts[k], t.pool.accounts[k];
                   if k != account || before.status == AccountDisabled then after == before
                   else
                     && after == before.(status := after.status, cooldownUntil := after.cooldownUntil)
                     && (c.result.status == ProbeSucceeded ==>
                         after.status == AccountActive && after.cooldownUntil == None)
                     && (c.result.status != ProbeSucceeded ==>
                         after.status == Cooldown && after.cooldownUntil == Some(c.result.testedAt + 300))
  {
    hide NextId;
  }

  // --- retention -------------------------------------------------------------------------------------------

  /**
   * A retention pass drops of the requests named exactly those remembered since before the cutoff, and of the test
   * results named exactly those made before it; with a lifetime that is not positive it drops nothing.
   */
  lemma PassForgets(s: State, now: int, recordLife: int, testLife: int, scopes: set<Scope>, testIds: set<string>)
    ensures var (t, reply) := Serve(s, now, Forget(recordLife, testLife, scopes, testIds));
            var runs := recordLife > 0 && testLife > 0;
            && reply == Done && t == s.(ledger := s.ledger.(records := t.ledger.records),
                                        pool := s.pool.(tests := t.pool.tests))
            && (forall scope :: scope in t.ledger.records <==>
                  && scope in s.ledger.records
                  && !(runs && scope in scopes && scope in s.ledger.recordedAt
                       && s.ledger.recordedAt[scope] + recordLife < now))
            && (forall scope :: scope in t.ledger.records ==> t.ledger.records[scope] == s.ledger.records[scope])
            && (forall id :: id in t.pool.tests <==>
                  id in s.pool.tests && !(runs && id in testIds && s.pool.tests[id].testedAt + testLife < now))
            && (forall id :: id in t.pool.tests ==> t.pool.tests[id] == s.pool.tests[id])
  {
  }

  /** Every transaction dates the requests it has remembered, and drops the dates of those that are gone. */
  lemma StepDates(s: State, now: int, c: Command)
    ensures var (t, u) := (Serve(s, now, c).0, Step(s, now, c).0);
            && u == t.(ledger := t.ledger.(recordedAt := u.ledger.recordedAt))
            && Step(s, now, c).1 == Serve(s, now, c).1
            && u.ledger.recordedAt.Keys == t.ledger.records.Keys
            && forall scope :: scope in t.ledger.records ==>
                 u.ledger.recordedAt[scope] == if scope in t.ledger.recordedAt then t.ledger.recordedAt[scope] else now
  {
    hide Serve;
  }
}
