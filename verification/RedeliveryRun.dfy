/** A run in which a lease is kept alive until a renewal has been forgotten, for every lifetime of records. */
module RedeliveryRun {
  import opened Collections
  import opened Tables
  import opened LeaseTable
  import opened Activation
  import opened ModelPool
  import opened Leasing
  import opened Progress
  import opened Delivery
  import opened ControlPlane
  import opened Runs
  import opened Redelivery
  import Decimal

  const USER := "user0001"
  const DEVICE := "device01"
  const PEOPLE := People(map[USER := User(UserActive)], map[], map[])
  const ACCOUNT := AccountInput("provider", "model", "", "secretkey", AccountActive, 0, 0, 1)
  const CODE := CodeInput(USER, 86400, 1)
  const ACTIVATION := ActivateInput(DEVICE, AutoLive, Profile("name", "platform", "1.0"), "")
  const LEASE := LeaseInput("provider", "model", Chat, 3600)

  function MakesAccount(): Command { CreateAccountCommand(AutoLive, "account1", ACCOUNT, true, true) }

  function MakesCode(): Command { CreateCodeCommand(AutoLive, false, "newcode1", CODE, Some("code text")) }

  function Activates(): Command { ActivateCommand("activate", USER, ACTIVATION) }

  function MakesLease(): Command { CreateLeaseCommand(AutoLive, "newlease", USER, DEVICE, LEASE, [], true) }

  function RenewalKey(i: nat): string { Decimal.Padded(i, 8) }

  function Renews(leaseId: string, i: nat): Command {
    RenewCommand(AutoLive, RenewalKey(i), USER, DEVICE, leaseId, 3600)
  }

  // --- text ------------------------------------------------------------------------------------------------

  lemma {:induction false} TrimLeavesSomething(s: string)
    requires s != "" && !IsSpace(s[0])
    ensures Trim(s) != ""
    decreases |s|
  {
    if |s| > 1 && IsSpace(s[|s| - 1]) {
      TrimLeavesSomething(s[..|s| - 1]);
    }
  }

  lemma RenewalKeysAreValid(i: nat)
    requires i < Decimal.Ten(128)
    ensures ValidKey(RenewalKey(i))
  {
    Decimal.PaddedValue(i, 8);
    Decimal.PrintLength(i, 128);
    var key := RenewalKey(i);
    assert 8 <= |key| <= 128;
    assert Decimal.IsDigit(key[0]) && Decimal.IsDigit(key[|key| - 1]);
    hide RenewalKey, Decimal.AllDigits, Decimal.Value;
    NothingToTrim(key);
  }

  lemma NothingToTrim(s: string)
    requires s != "" && !IsSpace(s[0]) && !IsSpace(s[|s| - 1])
    ensures Trim(s) == s
  {
  }

  lemma RenewalKeysDiffer(i: nat, j: nat)
    requires RenewalKey(i) == RenewalKey(j)
    ensures i == j
  {
    Decimal.PaddedValue(i, 8);
    Decimal.PaddedValue(j, 8);
  }

  // --- getting a lease -------------------------------------------------------------------------------------

  ghost predicate HasAccount(s: State, accountId: string) {
    && s.people == PEOPLE
    && s.pool == Pool(map[accountId := NewAccount(accountId, AutoLive, ACCOUNT)], map[], map[], map[])
  }

  lemma AccountMade()
    ensures var s := Step(Empty(PEOPLE), 0, MakesAccount()).0;
            && HasAccount(s, NextId(Empty(PEOPLE).ledger, "mpa")) && s.grants == Grants(map[], map[], map[])
            && s.ledger.records.Keys <= {CreateAccountScope("account1")}
  {
    hide NextId;
    assert ValidKey("account1");
  }

  lemma CodeMade(s: State, accountId: string)
    requires HasAccount(s, accountId) && s.grants == Grants(map[], map[], map[])
    requires s.ledger.records.Keys <= {CreateAccountScope("account1")}
    ensures var t := Step(s, 0, MakesCode()).0;
            && HasAccount(t, accountId)
            && t.grants == Grants(map[], map[NextId(s.ledger, "ac") := NewCode(AutoLive, CODE, "code text")], map[])
            && t.ledger.records.Keys <= {CreateAccountScope("account1"), CreateCodeScope("newcode1", None)}
  {
    hide NextId;
    assert ValidKey("newcode1");
  }

  lemma DeviceActivated(s: State, accountId: string, codeId: string)
    requires HasAccount(s, accountId)
    requires s.grants == Grants(map[], map[codeId := NewCode(AutoLive, CODE, "code text")], map[])
    requires s.ledger.records.Keys <= {CreateAccountScope("account1"), CreateCodeScope("newcode1", None)}
    ensures var t := Step(s, 0, Activates()).0;
            && HasAccount(t, accountId)
            && DEVICE in t.grants.devices && t.grants.devices[DEVICE].owner == Some(USER)
            && t.grants.devices[DEVICE].status == DeviceActive && t.grants.devices[DEVICE].product == AutoLive
            && t.ledger.records.Keys
               <= {CreateAccountScope("account1"), CreateCodeScope("newcode1", None), ActivateScope(USER, "activate")}
  {
    ActivationPasses(s, codeId);
    ChoiceIsEarliest(s.grants.codes, USER, AutoLive, 0);
    assert Open(s.grants.codes[codeId], USER, AutoLive, 0);
    hide SelectCode, Trim, ActivateVerdict;
  }

  lemma ActivationPasses(s: State, codeId: string)
    requires s.people == PEOPLE
    requires s.grants == Grants(map[], map[codeId := NewCode(AutoLive, CODE, "code text")], map[])
    requires s.ledger.records.Keys <= {CreateAccountScope("account1"), CreateCodeScope("newcode1", None)}
    ensures ActivateVerdict(s, "activate", USER, ACTIVATION).Proceed?
  {
    assert ValidKey("activate");
    assert Trim("name") == "name" && Trim("platform") == "platform" && Trim("1.0") == "1.0";
    hide Trim;
  }

  lemma AccountIsEligible(pool: Pool, accountId: string)
    requires pool == Pool(map[accountId := NewAccount(accountId, AutoLive, ACCOUNT)], map[], map[], map[])
    ensures Eligible(pool, accountId, AutoLive, "provider", "model", 0) && HasRoom(pool, accountId)
  {
    TrimLeavesSomething("model-account/" + accountId);
  }

  /** The user's lease, active until `expiresAt`, of which the renewals from the `next`th on are unheard of. */
  ghost predicate Leased(s: State, leaseId: string, expiresAt: int, next: nat) {
    && Gate(s, USER, DEVICE, AutoLive).None?
    && leaseId in s.pool.leases
    && var lease := s.pool.leases[leaseId];
      && lease.userId == USER && lease.deviceId == DEVICE && lease.product == AutoLive
      && lease.status == LeaseActive && lease.expiresAt == expiresAt
      && lease.accountId in s.pool.accounts && s.pool.accounts[lease.accountId].status == AccountActive
      && forall i :: i >= next ==> RenewScope(leaseId, RenewalKey(i), AutoLive) !in s.ledger.records
  }

  lemma LeaseMade(s: State, accountId: string)
    requires HasAccount(s, accountId)
    requires DEVICE in s.grants.devices && s.grants.devices[DEVICE].owner == Some(USER)
              && s.grants.devices[DEVICE].status == DeviceActive && s.grants.devices[DEVICE].product == AutoLive
    requires s.ledger.records.Keys
          <= {CreateAccountScope("account1"), CreateCodeScope("newcode1", None), ActivateScope(USER, "activate")}
    ensures Leased(Step(s, 0, MakesLease()).0, NextId(s.ledger, "lease"), 3600, 0)
  {
    hide Serve, Step, Allocate, Leased, Gate;
    MakesByAllocating(s, accountId);
    Allocated(s, accountId);
    StepServes(s, 0, MakesLease());
    LeasedAnyway(Serve(s, 0, MakesLease()).0, Step(s, 0, MakesLease()).0, NextId(s.ledger, "lease"), 3600, 0);
  }

  lemma MakesByAllocating(s: State, accountId: string)
    requires HasAccount(s, accountId)
    requires DEVICE in s.grants.devices && s.grants.devices[DEVICE].owner == Some(USER)
              && s.grants.devices[DEVICE].status == DeviceActive && s.grants.devices[DEVICE].product == AutoLive
    requires s.ledger.records.Keys
          <= {CreateAccountScope("account1"), CreateCodeScope("newcode1", None), ActivateScope(USER, "activate")}
    ensures Gate(s, USER, DEVICE, AutoLive).None?
    ensures Serve(s, 0, MakesLease()).0 == Allocate(s, 0, AutoLive, "newlease", USER, DEVICE, LEASE, [], true).0
  {
    GatePasses(s);
    InputIsTrimmed();
    assert SweptPool(s.pool, 0, Some(AutoLive)) == s.pool;
    assert PolicyRefusal(s, 0, AutoLive, USER, LEASE).None?;
    assert Lookup(s.ledger, CreateLeaseScope(USER, DEVICE, "newlease", AutoLive),
        LeasePrint(USER, DEVICE, AutoLive, LEASE)).Proceed?;
    hide Trim, ValidKey, Allocate, Sweep, Gate, LeaseDefaults, PolicyRefusal, Lookup, SweptPool;
  }

  lemma GatePasses(s: State)
    requires s.people == PEOPLE && DEVICE in s.grants.devices && s.grants.devices[DEVICE].owner == Some(USER)
              && s.grants.devices[DEVICE].status == DeviceActive && s.grants.devices[DEVICE].product == AutoLive
    ensures Gate(s, USER, DEVICE, AutoLive).None?
  {
    assert Trim(DEVICE) == DEVICE;
    hide Trim;
  }

  lemma InputIsTrimmed()
    ensures ValidKey("newlease") && LeaseDefaults(LEASE) == LEASE
  {
    assert Trim("newlease") == "newlease";
    assert Trim("provider") == "provider" && Trim("model") == "model";
    hide Trim;
  }

  lemma LeasedAnyway(s: State, t: State, leaseId: string, expiresAt: int, next: nat)
    requires Leased(s, leaseId, expiresAt, next) && t == s.(ledger := t.ledger) && t.ledger.records == s.ledger.records
    ensures Leased(t, leaseId, expiresAt, next)
  {
    hide Trim, RenewalKey;
  }

  lemma Allocated(s: State, accountId: string)
    requires HasAccount(s, accountId) && Gate(s, USER, DEVICE, AutoLive).None?
    requires s.ledger.records.Keys
          <= {CreateAccountScope("account1"), CreateCodeScope("newcode1", None), ActivateScope(USER, "activate")}
    ensures Leased(Allocate(s, 0, AutoLive, "newlease", USER, DEVICE, LEASE, [], true).0,
                   NextId(s.ledger, "lease"), 3600, 0)
  {
    hide Trim, ValidKey, NextId, Eligible, HasRoom, SelectAccount, RenewalKey;
    var pool := s.pool.(accounts := RefreshedAccounts(s.pool, [], 0));
    assert pool.accounts == s.pool.accounts;
    AccountIsEligible(pool, accountId);
    SelectedIsBest(pool, AutoLive, "provider", "model", 0);
    ChosenAmongOne(pool, accountId);
  }

  lemma ChosenAmongOne(pool: Pool, accountId: string)
    requires pool.accounts.Keys == {accountId}
    requires Eligible(pool, accountId, AutoLive, "provider", "model", 0) && HasRoom(pool, accountId)
    ensures SelectAccount(pool, AutoLive, "provider", "model", 0) == Some(accountId)
  {
    SelectedIsBest(pool, AutoLive, "provider", "model", 0);
    hide SelectAccount;
    var choice := SelectAccount(pool, AutoLive, "provider", "model", 0);
    assert choice.Some? ==> choice.value in pool.accounts;
  }

  // --- renewing it again and again -------------------------------------------------------------------------

  /** What a renewal at time zero writes. */
  lemma RenewalServed(s: State, leaseId: string, expiresAt: int, i: nat)
    requires Leased(s, leaseId, expiresAt, i) && expiresAt > 0 && ValidKey(RenewalKey(i))
    ensures var (t, reply) := Serve(s, 0, Renews(leaseId, i));
            && !reply.Failed? && t.people == s.people && t.grants == s.grants && t.pool.accounts == s.pool.accounts
            && leaseId in t.pool.leases
            && t.pool.leases[leaseId] == s.pool.leases[leaseId].(expiresAt := expiresAt + 3600)
            && t.ledger.records.Keys == s.ledger.records.Keys + {RenewScope(leaseId, RenewalKey(i), AutoLive)}
  {
    hide ValidKey, RenewalKey, Gate;
  }

  lemma SameGate(s: State, t: State)
    requires t.people == s.people && t.grants == s.grants
    ensures Gate(t, USER, DEVICE, AutoLive) == Gate(s, USER, DEVICE, AutoLive)
  {
    hide Trim;
  }

  lemma RenewsOnce(s: State, leaseId: string, expiresAt: int, i: nat)
    requires Leased(s, leaseId, expiresAt, i) && expiresAt > 0 && i < Decimal.Ten(128)
    ensures !Step(s, 0, Renews(leaseId, i)).1.Failed?
    ensures Leased(Step(s, 0, Renews(leaseId, i)).0, leaseId, expiresAt + 3600, i + 1)
  {
    RenewalKeysAreValid(i);
    forall j | j >= i + 1 ensures RenewalKey(j) != RenewalKey(i) {
      if RenewalKey(j) == RenewalKey(i) { RenewalKeysDiffer(j, i); }
    }
    hide ValidKey, RenewalKey, Serve, Step, Gate;
    RenewalServed(s, leaseId, expiresAt, i);
    StepServes(s, 0, Renews(leaseId, i));
    SameGate(s, Step(s, 0, Renews(leaseId, i)).0);
  }

  /** The renewals from the `i`th up to but not including the `n`th, all at time zero. */
  function Renewals(leaseId: string, i: nat, n: nat): seq<Event>
    requires i <= n
    decreases n - i
  {
    if i == n then [] else [Event(0, Renews(leaseId, i))] + Renewals(leaseId, i + 1, n)
  }

  lemma {:induction false} KeptAlive(s: State, leaseId: string, expiresAt: int, i: nat, n: nat)
    requires Leased(s, leaseId, expiresAt, i) && expiresAt > 0 && i <= n <= Decimal.Ten(128)
    ensures Leased(Run(s, Renewals(leaseId, i, n)), leaseId, expiresAt + (n - i) * 3600, n)
    decreases n - i
  {
    hide Leased, Step;
    if i < n {
      RenewsOnce(s, leaseId, expiresAt, i);
      var e := Renewals(leaseId, i, n);
      assert e[0] == Event(0, Renews(leaseId, i)) && e[1..] == Renewals(leaseId, i + 1, n);
      KeptAlive(Step(s, 0, Renews(leaseId, i)).0, leaseId, expiresAt + 3600, i + 1, n);
    }
  }

  // --- dates -----------------------------------------------------------------------------------------------

  /** Every request is remembered since time zero. */
  ghost predicate SinceZero(ledger: Ledger) {
    && ledger.recordedAt.Keys == ledger.records.Keys
    && forall scope :: scope in ledger.recordedAt ==> ledger.recordedAt[scope] == 0
  }

  lemma StepSinceZero(s: State, c: Command)
    requires SinceZero(s.ledger)
    ensures SinceZero(Step(s, 0, c).0.ledger)
  {
    ServeKeepsDates(s, 0, c);
    hide Serve;
  }

  predicate AtZero(events: seq<Event>) {
    forall i :: 0 <= i < |events| ==> events[i].now == 0
  }

  lemma {:induction false} RunSinceZero(s: State, events: seq<Event>)
    requires SinceZero(s.ledger) && AtZero(events)
    ensures SinceZero(Run(s, events).ledger)
    decreases |events|
  {
    hide SinceZero, Step;
    if events != [] {
      StepSinceZero(s, events[0].command);
      RunSinceZero(Step(s, 0, events[0].command).0, events[1..]);
    }
  }

  lemma {:induction false} RenewalsAtZero(leaseId: string, i: nat, n: nat)
    requires i <= n
    ensures AtZero(Renewals(leaseId, i, n))
    decreases n - i
  {
    if i < n {
      RenewalsAtZero(leaseId, i + 1, n);
    }
  }

  /** The retention pass that finds everything older than `life`. */
  function ForgetsAll(life: int, records: set<Scope>): Event {
    Event(life + 1, Forget(life, life, records, {}))
  }

  lemma AllForgotten(s: State, life: int, leaseId: string, expiresAt: int, n: nat)
    requires life > 0 && SinceZero(s.ledger) && Leased(s, leaseId, expiresAt, n)
    ensures var e := ForgetsAll(life, s.ledger.records.Keys);
            var t := Step(s, e.now, e.command).0;
            t.ledger.records == map[] && Leased(t, leaseId, expiresAt, 0)
  {
    assert OldRecords(s.ledger, 1) == s.ledger.records.Keys;
  }

  lemma RenewableAgain(s: State, now: int, leaseId: string, expiresAt: int)
    requires Leased(s, leaseId, expiresAt, 0) && now < expiresAt
    ensures Renewable(s, now, Renews(leaseId, 0))
    ensures RenewScope(leaseId, RenewalKey(0), AutoLive) !in s.ledger.records
  {
  }

  lemma {:induction false} RunConcat(s: State, a: seq<Event>, b: seq<Event>)
    ensures Run(s, a + b) == Run(Run(s, a), b)
    decreases |a|
  {
    hide Step;
    if a == [] {
      assert a + b == b;
    } else {
      assert (a + b)[0] == a[0] && (a + b)[1..] == a[1..] + b;
      RunConcat(Step(s, a[0].now, a[0].command).0, a[1..], b);
    }
  }

  // --- the whole run ---------------------------------------------------------------------------------------

  function Setup(): seq<Event> {
    [Event(0, MakesAccount()), Event(0, MakesCode()), Event(0, Activates()), Event(0, MakesLease())]
  }

  lemma LeaseReached() returns (leaseId: string)
    ensures Leased(Reached(PEOPLE, Setup()), leaseId, 3600, 0) && SinceZero(Reached(PEOPLE, Setup()).ledger)
  {
    hide Leased, Serve, Step, NextId, HasAccount;
    var s := Empty(PEOPLE);
    var s1 := Step(s, 0, MakesAccount()).0;
    var s2 := Step(s1, 0, MakesCode()).0;
    var s3 := Step(s2, 0, Activates()).0;
    AccountMade();
    CodeMade(s1, NextId(s.ledger, "mpa"));
    DeviceActivated(s2, NextId(s.ledger, "mpa"), NextId(s1.ledger, "ac"));
    LeaseMade(s3, NextId(s.ledger, "mpa"));
    leaseId := NextId(s3.ledger, "lease");
    FourSteps(s, MakesAccount(), MakesCode(), Activates(), MakesLease());
    RunSinceZero(s, Setup());
  }

  lemma FourSteps(s: State, a: Command, b: Command, c: Command, d: Command)
    ensures Run(s, [Event(0, a), Event(0, b), Event(0, c), Event(0, d)])
         == Step(Step(Step(Step(s, 0, a).0, 0, b).0, 0, c).0, 0, d).0
  {
    hide Step;
    var e := [Event(0, a), Event(0, b), Event(0, c), Event(0, d)];
    assert e[1..] == [Event(0, b), Event(0, c), Event(0, d)];
    assert e[1..][1..] == [Event(0, c), Event(0, d)] && e[1..][1..][1..] == [Event(0, d)];
    assert e[1..][1..][1..][1..] == [];
    var s1 := Step(s, 0, a).0;
    var s2 := Step(s1, 0, b).0;
    var s3 := Step(s2, 0, c).0;
    assert Run(s3, [Event(0, d)]) == Run(Step(s3, 0, d).0, []);
    assert Run(s2, [Event(0, c), Event(0, d)]) == Run(s3, [Event(0, d)]);
    assert Run(s1, [Event(0, b), Event(0, c), Event(0, d)]) == Run(s2, [Event(0, c), Event(0, d)]);
  }

  /** How many renewals outlive the records. */
  function Enough(life: nat): nat { life / 3600 + 1 }

  lemma EnoughIsEnough(life: nat)
    ensures life + 1 < 3600 + 3600 + (Enough(life) - 1) * 3600
  {
  }

  /** The renewals that keep the lease alive, then the pass that forgets them. */
  ghost function Meanwhile(life: nat, leaseId: string, s: State): seq<Event> {
    var renewals := Renewals(leaseId, 1, Enough(life));
    renewals + [ForgetsAll(life, Run(s, renewals).ledger.records.Keys)]
  }

  lemma {:induction false} TimedAppends(from: int, events: seq<Event>, e: Event)
    requires AtZero(events) && from <= 0 <= e.now
    ensures Timed(from, events + [e])
    decreases |events|
  {
    if events != [] {
      assert (events + [e])[0] == events[0] && (events + [e])[1..] == events[1..] + [e];
      TimedAppends(0, events[1..], e);
    }
  }

  /**
   * For every lifetime of records that other renewals can bridge, a key having at most 128 characters, there is a run
   * from the empty store in which a lease is renewed, kept alive by other renewals until a retention pass finds the
   * first renewal older than that lifetime, and extended once more when that first renewal is delivered again.
   */
  lemma ForgottenRenewalExtendsAgain(life: nat)
    returns (leaseId: string, between: seq<Event>)
    requires 0 < life && Enough(life) <= Decimal.Ten(128)
    ensures var s := Reached(PEOPLE, Setup());
            var c := Renews(leaseId, 0);
            && Timed(0, Setup()) && !Step(s, 0, c).1.Failed? && Timed(0, between) && LastTime(0, between) <= life + 1
            && var u := Run(Step(s, 0, c).0, between);
               var v := Step(u, life + 1, c).0;
               && leaseId in u.pool.leases && leaseId in v.pool.leases
               && v.pool.leases[leaseId].expiresAt == u.pool.leases[leaseId].expiresAt + 3600
    ensures forall i :: 0 <= i < |between| && between[i].command.Forget? ==> between[i].command.recordLife == life
  {
    leaseId := LeaseReached();
    var s, c := Reached(PEOPLE, Setup()), Renews(leaseId, 0);
    ReachedIsSound(PEOPLE, 0, Setup());
    RenewsOnce(s, leaseId, 3600, 0);
    var t := Step(s, 0, c).0;
    StepSinceZero(s, c);
    between := Meanwhile(life, leaseId, t);
    MeanwhileForgets(life, leaseId, t);
    hide Leased, Step, SinceZero, Run, Invariant, Renewable;
    RedeliveryExtendsExactly(s, 0, c, between, life + 1);
  }

  lemma OneEvent(s: State, e: Event)
    ensures Run(s, [e]) == Step(s, e.now, e.command).0
  {
    hide Step;
    assert [e][1..] == [];
  }

  lemma MeanwhileForgets(life: nat, leaseId: string, t: State)
    requires 0 < life && Enough(life) <= Decimal.Ten(128)
    requires Leased(t, leaseId, 7200, 1) && SinceZero(t.ledger)
    ensures var between := Meanwhile(life, leaseId, t);
            var u := Run(t, between);
            && Timed(0, between) && LastTime(0, between) == life + 1
            && Renewable(u, life + 1, Renews(leaseId, 0))
            && RenewScope(leaseId, RenewalKey(0), AutoLive) !in u.ledger.records
            && forall i :: 0 <= i < |between| && between[i].command.Forget? ==> between[i].command.recordLife == life
  {
    hide Leased, Step, SinceZero, Renewals, Renewable;
    var n := Enough(life);
    var renewals := Renewals(leaseId, 1, n);
    KeptAlive(t, leaseId, 7200, 1, n);
    RenewalsAtZero(leaseId, 1, n);
    RunSinceZero(t, renewals);
    var w := Run(t, renewals);
    var e := ForgetsAll(life, w.ledger.records.Keys);
    AllForgotten(w, life, leaseId, 7200 + (n - 1) * 3600, n);
    RunConcat(t, renewals, [e]);
    TimedAppends(0, renewals, e);
    RenewalsForgetNothing(leaseId, 1, n);
    EnoughIsEnough(life);
    OneEvent(w, e);
    RenewableAgain(Run(w, [e]), life + 1, leaseId, 7200 + (n - 1) * 3600);
  }

  lemma {:induction false} RenewalsForgetNothing(leaseId: string, i: nat, n: nat)
    requires i <= n
    ensures forall k :: 0 <= k < |Renewals(leaseId, i, n)| ==> Renewals(leaseId, i, n)[k].command.RenewCommand?
    decreases n - i
  {
    if i < n {
      RenewalsForgetNothing(leaseId, i + 1, n);
    }
  }
}
