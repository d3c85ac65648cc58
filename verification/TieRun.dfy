/** Runs that lead to what the refresh of statuses makes of crossing probes. */
module TieRun {
  import opened Collections
  import opened Tables
  import opened LeaseTable
  import opened ModelPool
  import opened ControlPlane
  import opened Runs
  import opened StatusRefresh
  import opened RedeliveryRun

  function Probe(key: string, accountId: string, status: ProbeStatus, testedAt: int): Command {
    RecordTestCommand(AutoLive, key, accountId, 30, TestResult(accountId, status, testedAt))
  }

  function CoolsDown(accountId: string): Command {
    UpdateAccountCommand(AutoLive, "cooldown", accountId, AccountEdit(None, None, None, None, Some(Cooldown)), true)
  }

  function ToTheTie(accountId: string): seq<Event> {
    [Event(0, MakesAccount()), Event(0, Probe("probing1", accountId, ProbeFailed, 0)),
     Event(0, Probe("probing2", accountId, ProbeSucceeded, 0)), Event(0, CoolsDown(accountId))]
  }

  ghost predicate Tested(
    s: State, accountId: string, account: Account, tests: map<string, TestResult>, keys: set<Scope>)
  {
    && accountId in s.pool.accounts && s.pool.accounts[accountId] == account && s.pool.tests == tests
    && s.ledger.records.Keys <= keys
  }

  lemma Probes(
    s: State, now: int, key: string, accountId: string, account: Account, tests: map<string, TestResult>,
    keys: set<Scope>, status: ProbeStatus, testedAt: int)
    requires Tested(s, accountId, account, tests, keys) && TestScope(accountId, key) !in keys
    ensures var t := Step(s, now, Probe(key, accountId, status, testedAt)).0;
            && Tested(t, accountId, Probed(account, TestResult(accountId, status, testedAt)),
                      tests[NextId(s.ledger, "model_test") := TestResult(accountId, status, testedAt)],
                      keys + {TestScope(accountId, key)})
            && Counter(t.ledger, "model_test") == Counter(s.ledger, "model_test") + 1
  {
    hide NextId;
  }

  lemma Cools(s: State, accountId: string, account: Account, tests: map<string, TestResult>, keys: set<Scope>)
    requires Tested(s, accountId, account, tests, keys) && UpdateAccountScope("cooldown") !in keys
    requires account.product == AutoLive && accountId != ""
    ensures Tested(Step(s, 0, CoolsDown(accountId)).0, accountId, account.(status := Cooldown), tests,
                   keys + {UpdateAccountScope("cooldown")})
  {
    assert ValidKey("cooldown");
    hide ValidKey, Sweep;
  }

  /**
   * Two probes of one account in the same second, one failing and one succeeding, then an administrator puts the
   * account into cooldown: five minutes later two listings that visit the results in different orders store different
   * statuses.
   */
  lemma OrderDecidesAfterARun() returns (accountId: string)
    ensures var s := Reached(PEOPLE, ToTheTie(accountId));
            && Timed(0, ToTheTie(accountId)) && accountId in s.pool.accounts
            && exists order, order' :: Visits(order, s.pool.tests) && Visits(order', s.pool.tests)
                && Step(s, 300, ListAccountsCommand(order)).0.pool.accounts
                   != Step(s, 300, ListAccountsCommand(order')).0.pool.accounts
  {
    accountId := NextId(Empty(PEOPLE).ledger, "mpa");
    TieReached(accountId);
    var s := Reached(PEOPLE, ToTheTie(accountId));
    hide Run;
    var used := UsedToday(SweptPool(s.pool, 300, None), accountId, 300);
    OrderMattersOnlyOnATie(s.pool.accounts[accountId], used, s.pool.tests, accountId, 300);
    DifferentListings(s, accountId);
  }

  lemma DifferentListings(s: State, accountId: string)
    requires accountId in s.pool.accounts
    requires !SameForAllOrders(s.pool.accounts[accountId], UsedToday(SweptPool(s.pool, 300, None), accountId, 300),
                               s.pool.tests, accountId, 300)
    ensures exists order, order' :: Visits(order, s.pool.tests) && Visits(order', s.pool.tests)
              && Step(s, 300, ListAccountsCommand(order)).0.pool.accounts
                 != Step(s, 300, ListAccountsCommand(order')).0.pool.accounts
  {
    hide LatestAlong, RefreshedAccount, Visits, UsedToday;
    var used := UsedToday(SweptPool(s.pool, 300, None), accountId, 300);
    var order, order' :| Visits(order, s.pool.tests) && Visits(order', s.pool.tests)
      && RefreshedAccount(s.pool.accounts[accountId], used, LatestAlong(order, s.pool.tests, accountId), 300)
      != RefreshedAccount(s.pool.accounts[accountId], used, LatestAlong(order', s.pool.tests, accountId), 300);
    assert Step(s, 300, ListAccountsCommand(order)).0.pool.accounts[accountId]
        != Step(s, 300, ListAccountsCommand(order')).0.pool.accounts[accountId];
  }

  lemma TieReached(accountId: string)
    requires accountId == NextId(Empty(PEOPLE).ledger, "mpa")
    ensures var s := Reached(PEOPLE, ToTheTie(accountId));
            accountId in s.pool.accounts && ConflictingTie(s.pool.accounts[accountId], s.pool.tests, accountId, 300)
  {
    assert accountId != "";
    hide Step, Serve, NextId, Run, ConflictingTie, Probed, Counter, NewAccount;
    var s := Empty(PEOPLE);
    AccountMade();
    FourSteps(s, MakesAccount(), Probe("probing1", accountId, ProbeFailed, 0),
        Probe("probing2", accountId, ProbeSucceeded, 0), CoolsDown(accountId));
    AfterTheAccount(Step(s, 0, MakesAccount()).0, accountId);
  }

  lemma AfterTheAccount(s1: State, accountId: string)
    requires HasAccount(s1, accountId) && s1.ledger.records.Keys <= {CreateAccountScope("account1")} && accountId != ""
    ensures var s2 := Step(s1, 0, Probe("probing1", accountId, ProbeFailed, 0)).0;
            var s3 := Step(s2, 0, Probe("probing2", accountId, ProbeSucceeded, 0)).0;
            var s4 := Step(s3, 0, CoolsDown(accountId)).0;
            accountId in s4.pool.accounts
            && ConflictingTie(s4.pool.accounts[accountId], s4.pool.tests, accountId, 300)
  {
    hide Step, Serve, NextId, ConflictingTie, Probed, Counter, NewAccount;
    var s2 := Step(s1, 0, Probe("probing1", accountId, ProbeFailed, 0)).0;
    var s3 := Step(s2, 0, Probe("probing2", accountId, ProbeSucceeded, 0)).0;
    var account := NewAccount(accountId, AutoLive, ACCOUNT);
    var failed, passed := TestResult(accountId, ProbeFailed, 0), TestResult(accountId, ProbeSucceeded, 0);
    var keys := {CreateAccountScope("account1")};
    var p, q := NextId(s1.ledger, "model_test"), NextId(s2.ledger, "model_test");
    Probes(s1, 0, "probing1", accountId, account, map[], keys, ProbeFailed, 0);
    Probes(s2, 0, "probing2", accountId, Probed(account, failed), map[p := failed],
        keys + {TestScope(accountId, "probing1")}, ProbeSucceeded, 0);
    DifferentDraws(s1, s2);
    TieConflicts(account, accountId, p, q);
    Cools(s3, accountId, Probed(Probed(account, failed), passed), map[p := failed, q := passed],
        keys + {TestScope(accountId, "probing1")} + {TestScope(accountId, "probing2")});
  }

  lemma TieConflicts(account: Account, accountId: string, p: string, q: string)
    requires p != q && account == NewAccount(accountId, AutoLive, ACCOUNT)
    ensures var failed, passed := TestResult(accountId, ProbeFailed, 0), TestResult(accountId, ProbeSucceeded, 0);
            var a := Probed(Probed(account, failed), passed);
            a.product == AutoLive
            && ConflictingTie(a.(status := Cooldown), map[p := failed, q := passed], accountId, 300)
  {
    var tests := map[p := TestResult(accountId, ProbeFailed, 0), q := TestResult(accountId, ProbeSucceeded, 0)];
    assert IsLatest(tests, accountId, p) && IsLatest(tests, accountId, q);
  }

  lemma DifferentDraws(s: State, t: State)
    requires Counter(t.ledger, "model_test") == Counter(s.ledger, "model_test") + 1
    ensures NextId(s.ledger, "model_test") != NextId(t.ledger, "model_test")
  {
    if NextId(s.ledger, "model_test") == NextId(t.ledger, "model_test") {
      IdentifierInjective("model_test", Counter(s.ledger, "model_test") + 1, Counter(t.ledger, "model_test") + 1);
    }
  }

  // --- probes that finish out of order ---------------------------------------------------------------------

  function ToTheCrossing(accountId: string): seq<Event> {
    [Event(0, MakesAccount()), Event(20, Probe("probing2", accountId, ProbeFailed, 20)),
     Event(21, Probe("probing1", accountId, ProbeFailed, 10))]
  }

  /**
   * A failing probe is overtaken by a later one that fails as well, and its result is stored last: the account's
   * cooldown ends ten seconds before the summary says.
   */
  lemma CrossingProbesShowAnotherEnd() returns (accountId: string)
    ensures var s := Reached(PEOPLE, ToTheCrossing(accountId));
            && Timed(0, ToTheCrossing(accountId)) && accountId in s.pool.accounts
            && var a := s.pool.accounts[accountId];
              && a.status == Cooldown
              && forall order, used :: Visits(order, s.pool.tests) ==>
                   !EndsAsShown(a, used, LatestAlong(order, s.pool.tests, accountId))
  {
    accountId := NextId(Empty(PEOPLE).ledger, "mpa");
    hide Step, Serve, NextId, Probed, Counter, NewAccount, LatestAlong, EndsAsShown;
    var s := Empty(PEOPLE);
    AccountMade();
    var s1 := Step(s, 0, MakesAccount()).0;
    var s2 := Step(s1, 20, Probe("probing2", accountId, ProbeFailed, 20)).0;
    var s3 := Step(s2, 21, Probe("probing1", accountId, ProbeFailed, 10)).0;
    ThreeEvents(s, Event(0, MakesAccount()), Event(20, Probe("probing2", accountId, ProbeFailed, 20)),
        Event(21, Probe("probing1", accountId, ProbeFailed, 10)));
    var account := NewAccount(accountId, AutoLive, ACCOUNT);
    var first, second := TestResult(accountId, ProbeFailed, 20), TestResult(accountId, ProbeFailed, 10);
    var keys := {CreateAccountScope("account1")};
    var p, q := NextId(s1.ledger, "model_test"), NextId(s2.ledger, "model_test");
    Probes(s1, 20, "probing2", accountId, account, map[], keys, ProbeFailed, 20);
    Probes(s2, 21, "probing1", accountId, Probed(account, first), map[p := first],
        keys + {TestScope(accountId, "probing2")}, ProbeFailed, 10);
    DifferentDraws(s1, s2);
    OvertakenEnd(account, accountId, p, q);
  }

  lemma ThreeEvents(s: State, a: Event, b: Event, c: Event)
    requires a.now <= b.now <= c.now
    ensures Run(s, [a, b, c])
         == Step(Step(Step(s, a.now, a.command).0, b.now, b.command).0, c.now, c.command).0
    ensures Timed(a.now, [a, b, c])
  {
    hide Step;
    assert [a, b, c][1..] == [b, c] && [b, c][1..] == [c] && [c][1..] == [];
    var s1 := Step(s, a.now, a.command).0;
    var s2 := Step(s1, b.now, b.command).0;
    assert Run(s2, [c]) == Run(Step(s2, c.now, c.command).0, []);
    assert Run(s1, [b, c]) == Run(s2, [c]);
    assert Timed(b.now, [c]);
    assert Timed(a.now, [b, c]);
  }

  lemma OvertakenEnd(account: Account, accountId: string, p: string, q: string)
    requires p != q && account == NewAccount(accountId, AutoLive, ACCOUNT)
    ensures var first, second := TestResult(accountId, ProbeFailed, 20), TestResult(accountId, ProbeFailed, 10);
            var a := Probed(Probed(account, first), second);
            && a.status == Cooldown
            && forall order, used :: Visits(order, map[p := first, q := second]) ==>
                 !EndsAsShown(a, used, LatestAlong(order, map[p := first, q := second], accountId))
  {
    var first, second := TestResult(accountId, ProbeFailed, 20), TestResult(accountId, ProbeFailed, 10);
    var a, tests := Probed(Probed(account, first), second), map[p := first, q := second];
    hide EndsAsShown, LatestAlong;
    forall order, used | Visits(order, tests)
      ensures !EndsAsShown(a, used, LatestAlong(order, tests, accountId))
    {
      FindsALatest(order, tests, accountId);
      assert tests[p] == first && tests[p].accountId == accountId;
      CooldownEndsAsShownExactly(a, used, LatestAlong(order, tests, accountId));
    }
  }
}
