/**
 * The derived account status: a fixpoint of the refresh, truthful about the day's usage, and when it is well defined.
 */
module StatusRefresh {
  import opened Collections
  import opened Tables
  import opened ModelPool

  // --- one refresh -----------------------------------------------------------------------------------------

  /** Refreshing again at the same instant changes nothing. */
  lemma RefreshIdempotent(a: Account, used: nat, latest: Option<TestResult>, now: int)
    ensures var b := RefreshedAccount(a, used, latest, now); RefreshedAccount(b, used, latest, now) == b
  {
  }

  /**
   * After a refresh no account is active at or over its limit, and none is exhausted under a limit it has not reached.
   */
  lemma RefreshTellsTheTruth(a: Account, used: nat, latest: Option<TestResult>, now: int)
    ensures var b := RefreshedAccount(a, used, latest, now);
            && (b.status == AccountActive ==> !OverLimit(b, used))
            && (b.status == Exhausted && b.dailyLimit > 0 ==> OverLimit(b, used))
            && (b.status == Cooldown ==>
                a.status == Cooldown && (CooldownEnd(a, latest).None? || now < CooldownEnd(a, latest).value))
            && (b.status == AccountDisabled <==> a.status == AccountDisabled)
  {
  }

  /** The administrator's summary shows the status the refresh would store. */
  lemma SummaryAgrees(a: Account, used: nat, latest: Option<TestResult>, now: int)
    ensures NormalizedSummary(a, used, latest, now).status == RefreshedAccount(a, used, latest, now).status
  {
  }

  /** The refresh ends the cooldown at the instant shown. */
  ghost predicate EndsAsShown(a: Account, used: nat, latest: Option<TestResult>) {
    forall now :: RefreshedAccount(a, used, latest, now).status == Cooldown <==>
      (ShownEnd(a, latest).None? || now < ShownEnd(a, latest).value)
  }

  /**
   * The cooldown of a decorated summary ends for the refresh when the summary says, exactly unless a stored end differs
   * from five minutes after a failing latest test.
   */
  lemma CooldownEndsAsShownExactly(a: Account, used: nat, latest: Option<TestResult>)
    requires a.status == Cooldown
    ensures EndsAsShown(a, used, latest) <==>
            !(&& a.cooldownUntil.Some? && latest.Some? && Failing(latest.value)
              && a.cooldownUntil.value != latest.value.testedAt + COOLDOWN_SECONDS)
  {
    if a.cooldownUntil.Some? && latest.Some? && Failing(latest.value) {
      var stored, shown := a.cooldownUntil.value, latest.value.testedAt + COOLDOWN_SECONDS;
      var now := if stored < shown then stored else shown;
      assert RefreshedAccount(a, used, latest, now).status == Cooldown <==> now < stored;
    }
  }

  lemma RefreshAllIdempotent(pool: Pool, order: seq<string>, now: int)
    ensures var once := pool.(accounts := RefreshedAccounts(pool, order, now));
            RefreshedAccounts(once, order, now) == once.accounts
    ensures var once := pool.(accounts := RefreshedAccounts(pool, order, now));
            forall id :: id in once.accounts && once.accounts[id].status == AccountActive ==>
              !OverLimit(once.accounts[id], UsedToday(once, id, now))
  {
    hide RefreshedAccount, LatestAlong, AccountDayTotal;
    var once := pool.(accounts := RefreshedAccounts(pool, order, now));
    forall id | id in pool.accounts
      ensures RefreshedAccounts(once, order, now)[id] == once.accounts[id]
      ensures once.accounts[id].status == AccountActive ==> !OverLimit(once.accounts[id], UsedToday(once, id, now))
    {
      assert UsedToday(once, id, now) == UsedToday(pool, id, now);
      RefreshIdempotent(pool.accounts[id], UsedToday(pool, id, now), LatestAlong(order, pool.tests, id), now);
      RefreshTellsTheTruth(pool.accounts[id], UsedToday(pool, id, now), LatestAlong(order, pool.tests, id), now);
    }
  }

  // --- does the order of the visit matter? -----------------------------------------------------------------

  /** An order in which a map's iteration can visit the test results: each exactly once. */
  ghost predicate Visits(order: seq<string>, tests: map<string, TestResult>) {
    && (forall id :: id in tests <==> id in order)
    && (forall i, j :: 0 <= i < j < |order| ==> order[i] != order[j])
  }

  ghost predicate IsLatest(tests: map<string, TestResult>, accountId: string, id: string) {
    && id in tests && tests[id].accountId == accountId
    && forall other :: other in tests && tests[other].accountId == accountId ==>
        tests[other].testedAt <= tests[id].testedAt
  }

  /** Whatever the order, the result found is one of the account's latest, and none is found only if there is none. */
  lemma FindsALatest(order: seq<string>, tests: map<string, TestResult>, accountId: string)
    requires Visits(order, tests)
    ensures match LatestAlong(order, tests, accountId)
            case Some(result) => exists id :: IsLatest(tests, accountId, id) && tests[id] == result
            case None => forall id :: id in tests ==> tests[id].accountId != accountId
  {
    FindsLatestSoFar(order, tests, accountId);
    if LatestAlong(order, tests, accountId).Some? {
      var id :| id in order && id in tests && tests[id] == LatestAlong(order, tests, accountId).value;
      assert IsLatest(tests, accountId, id);
    }
  }

  lemma {:induction false} FindsLatestSoFar(order: seq<string>, tests: map<string, TestResult>, accountId: string)
    ensures match LatestAlong(order, tests, accountId)
            case Some(result) =>
              && result.accountId == accountId
              && (exists id :: id in order && id in tests && tests[id] == result)
              && (forall id :: id in order && id in tests && tests[id].accountId == accountId ==>
                  tests[id].testedAt <= result.testedAt)
            case None => forall id :: id in order && id in tests ==> tests[id].accountId != accountId
    decreases |order|
  {
    if order != [] {
      var before, last := order[..|order| - 1], order[|order| - 1];
      assert order == before + [last];
      FindsLatestSoFar(before, tests, accountId);
    }
  }

  /** Of tied results the first one visited wins. */
  lemma {:induction false} FirstOfATieWins(order: seq<string>, tests: map<string, TestResult>, accountId: string)
    requires order != [] && IsLatest(tests, accountId, order[0])
    ensures LatestAlong(order, tests, accountId) == Some(tests[order[0]])
    decreases |order|
  {
    if |order| > 1 {
      FirstOfATieWins(order[..|order| - 1], tests, accountId);
    } else {
      assert order[..0] == [];
    }
  }

  lemma {:induction false} SomeOrder(keys: set<string>)
    ensures exists order: seq<string> :: (forall id :: id in keys <==> id in order)
              && (forall i, j :: 0 <= i < j < |order| ==> order[i] != order[j])
    decreases |keys|
  {
    if keys == {} {
      var order: seq<string> := [];
      assert forall id :: id in keys <==> id in order;
    } else {
      var k :| k in keys;
      SomeOrder(keys - {k});
      var rest: seq<string> :| (forall id :: id in keys - {k} <==> id in rest)
          && (forall i, j :: 0 <= i < j < |rest| ==> rest[i] != rest[j]);
      var order := [k] + rest;
      assert forall id :: id in keys <==> id in order;
      assert forall j :: 0 <= j < |rest| ==> rest[j] in rest;
    }
  }

  /** Any result can be the first one visited. */
  lemma SomeOrderStartingWith(tests: map<string, TestResult>, id: string)
    requires id in tests
    ensures exists order: seq<string> :: Visits(order, tests) && order != [] && order[0] == id
  {
    SomeOrder(tests.Keys - {id});
    var rest: seq<string> :| (forall k :: k in tests.Keys - {id} <==> k in rest)
        && (forall i, j :: 0 <= i < j < |rest| ==> rest[i] != rest[j]);
    var order := [id] + rest;
    assert forall j :: 0 <= j < |rest| ==> rest[j] in rest;
    assert Visits(order, tests);
  }

  /**
   * The one situation in which the visit order decides: an account put into cooldown without an end, whose latest
   * results are tied between a failing one, already five minutes old, and one that is not failing.
   */
  ghost predicate ConflictingTie(a: Account, tests: map<string, TestResult>, accountId: string, now: int) {
    && a.status == Cooldown && a.cooldownUntil.None?
    && exists p, q :: IsLatest(tests, accountId, p) && IsLatest(tests, accountId, q)
         && Failing(tests[p]) && !Failing(tests[q]) && tests[p].testedAt + COOLDOWN_SECONDS <= now
  }

  ghost predicate SameForAllOrders(a: Account, used: nat, tests: map<string, TestResult>, accountId: string, now: int) {
    forall order, order' :: Visits(order, tests) && Visits(order', tests) ==>
      RefreshedAccount(a, used, LatestAlong(order, tests, accountId), now)
      == RefreshedAccount(a, used, LatestAlong(order', tests, accountId), now)
  }

  lemma WithoutTie(
    a: Account, used: nat, tests: map<string, TestResult>, accountId: string, now: int, order: seq<string>,
    order': seq<string>)
    requires !ConflictingTie(a, tests, accountId, now)
    requires Visits(order, tests) && Visits(order', tests)
    ensures RefreshedAccount(a, used, LatestAlong(order, tests, accountId), now)
         == RefreshedAccount(a, used, LatestAlong(order', tests, accountId), now)
  {
    FindsALatest(order, tests, accountId);
    FindsALatest(order', tests, accountId);
    var found, found' := LatestAlong(order, tests, accountId), LatestAlong(order', tests, accountId);
    if found.Some? && found'.Some? {
      var p :| IsLatest(tests, accountId, p) && tests[p] == found.value;
      var q :| IsLatest(tests, accountId, q) && tests[q] == found'.value;
      assert tests[p].testedAt == tests[q].testedAt;
      hide LatestAlong;
    }
  }

  /** The refreshed status does not depend on the iteration order exactly when no such tie exists. */
  lemma OrderMattersOnlyOnATie(a: Account, used: nat, tests: map<string, TestResult>, accountId: string, now: int)
    ensures SameForAllOrders(a, used, tests, accountId, now) <==> !ConflictingTie(a, tests, accountId, now)
  {
    hide LatestAlong, RefreshedAccount, Visits;
    if ConflictingTie(a, tests, accountId, now) {
      TieShows(a, used, tests, accountId, now);
    } else {
      forall order, order' | Visits(order, tests) && Visits(order', tests)
        ensures RefreshedAccount(a, used, LatestAlong(order, tests, accountId), now)
             == RefreshedAccount(a, used, LatestAlong(order', tests, accountId), now)
      {
        WithoutTie(a, used, tests, accountId, now, order, order');
      }
    }
  }

  lemma TieShows(a: Account, used: nat, tests: map<string, TestResult>, accountId: string, now: int)
    requires ConflictingTie(a, tests, accountId, now)
    ensures !SameForAllOrders(a, used, tests, accountId, now)
  {
    var p, q :| IsLatest(tests, accountId, p) && IsLatest(tests, accountId, q)
      && Failing(tests[p]) && !Failing(tests[q]) && tests[p].testedAt + COOLDOWN_SECONDS <= now;
    SomeOrderStartingWith(tests, p);
    SomeOrderStartingWith(tests, q);
    var order: seq<string> :| Visits(order, tests) && order != [] && order[0] == p;
    var order': seq<string> :| Visits(order', tests) && order' != [] && order'[0] == q;
    FirstOfATieWins(order, tests, accountId);
    FirstOfATieWins(order', tests, accountId);
    assert RefreshedAccount(a, used, Some(tests[p]), now).status != Cooldown;
    assert RefreshedAccount(a, used, Some(tests[q]), now).status == Cooldown;
  }

  /** Such an account exists: two probes in the same second, one failing and one not. */
  lemma TieExample() returns (a: Account, tests: map<string, TestResult>)
    ensures !SameForAllOrders(a, 0, tests, "mpa_00000001", 300)
  {
    a := Account(AutoLive, "p", "m", "", Cooldown, 0, 0, 1, "model-account/mpa_00000001", None);
    tests := map["model_test_00000001" := TestResult("mpa_00000001", ProbeFailed, 0),
                 "model_test_00000002" := TestResult("mpa_00000001", ProbeSucceeded, 0)];
    assert IsLatest(tests, "mpa_00000001", "model_test_00000001")
        && IsLatest(tests, "mpa_00000001", "model_test_00000002");
    TieShows(a, 0, tests, "mpa_00000001", 300);
  }
}
