/** Concrete runs of two replacements that cross: one loses an assignment, one leaves nobody in charge. */
module RoleExamples {
  import opened Collections
  import opened AdminRbac
  import opened Delegation
  import opened RoleReplacements

  ghost predicate Reaches(s: State, actions: seq<Action>, m: Machine) {
    Possible(Machine(s, map[]), actions) && Run(Machine(s, map[]), actions) == m
  }

  lemma {:induction false} RunAppends(m: Machine, actions: seq<Action>, action: Action)
    requires Possible(m, actions) && Enabled(Run(m, actions), action)
    ensures Possible(m, actions + [action]) && Run(m, actions + [action]) == Apply(Run(m, actions), action)
    decreases |actions|
  {
    hide Apply, Enabled;
    var all := actions + [action];
    if actions == [] {
      assert all[0] == action && all[1..] == [];
    } else {
      RunAppends(Apply(m, actions[0]), actions[1..], action);
      assert all[0] == actions[0] && all[1..] == actions[1..] + [action];
    }
  }

  lemma OneMore(s: State, actions: seq<Action>, m: Machine, action: Action, n: Machine)
    requires Reaches(s, actions, m) && Enabled(m, action) && Apply(m, action) == n
    ensures Reaches(s, actions + [action], n)
  {
    hide Apply, Enabled, Possible, Run;
    RunAppends(Machine(s, map[]), actions, action);
  }

  const ADMIN := User(true, true)
  const ASSIGN := "roles.assign"

  // --- a lost assignment -----------------------------------------------------------------------------------

  /** One administrator for each product, and a third who is a member of both. */
  const TWO_PRODUCTS := State(
    map["ann" := ADMIN, "boris" := ADMIN, "target" := ADMIN], {("target", AutoLive), ("target", DouyinDesktop)},
    {ASSIGN},
    map[SUPER_ADMIN := Role(None, "", true, {ASSIGN}), "live_admin" := Role(Some(AutoLive), "", false, {ASSIGN}),
        "desktop_admin" := Role(Some(DouyinDesktop), "", false, {ASSIGN}),
        "viewer" := Role(Some(DouyinDesktop), "", false, {})],
    {Assignment("ann", "live_admin", Some(AutoLive)), Assignment("boris", "desktop_admin", Some(DouyinDesktop))})

  const VIEWS := Assignment("target", "viewer", Some(DouyinDesktop))

  function AnnEmptiesLive(): Action {
    BeginReplace(0, "ann", AutoLive, "target", Some(AutoLive), [])
  }

  function BorisAddsViewer(): Action {
    BeginReplace(1, "boris", DouyinDesktop, "target", Some(DouyinDesktop), [VIEWS])
  }

  lemma BothMayAssign()
    ensures var s := TWO_PRODUCTS;
            && Authorize(s, "ann", AutoLive, ASSIGN).Ok? && !IsGlobal(s, "ann")
            && Authorize(s, "boris", DouyinDesktop, ASSIGN).Ok? && !IsGlobal(s, "boris")
            && Listed(s, "target") == {}
  {
    var s := TWO_PRODUCTS;
    var a, b := Assignment("ann", "live_admin", Some(AutoLive)),
        Assignment("boris", "desktop_admin", Some(DouyinDesktop));
    assert a in Listed(s, "ann") && AppliesTo(a, AutoLive) && ASSIGN in RolePermissions(s, a.role);
    assert b in Listed(s, "boris") && AppliesTo(b, DouyinDesktop) && ASSIGN in RolePermissions(s, b.role);
    assert ASSIGN in Granted(s, "ann", AutoLive) && ASSIGN in Granted(s, "boris", DouyinDesktop);
  }

  lemma NoSuperAdminThere(next: set<Assignment>)
    ensures !RemovesLastSuperAdmin(TWO_PRODUCTS, "target", next)
  {
    assert Stored(TWO_PRODUCTS, "target") == {};
  }

  function AnnWaits(guarded: bool): Pending {
    Replacing("target", Some(AutoLive), {}, {}, guarded)
  }

  function BorisWaits(guarded: bool): Pending {
    Replacing("target", Some(DouyinDesktop), {VIEWS}, {}, guarded)
  }

  lemma AnnListsAndGuards()
    ensures Reaches(TWO_PRODUCTS, [AnnEmptiesLive()], Apply(Machine(TWO_PRODUCTS, map[]), AnnEmptiesLive()))
    ensures var m := Apply(Machine(TWO_PRODUCTS, map[]), AnnEmptiesLive());
            && Enabled(m, ListExisting(0))
            && Apply(m, ListExisting(0)) == Machine(TWO_PRODUCTS, map[0 := AnnWaits(false)])
  {
    BothMayAssign();
    hide Granted, IsGlobal, Listed;
    assert Reaches(TWO_PRODUCTS, [], Machine(TWO_PRODUCTS, map[]));
    OneMore(TWO_PRODUCTS, [], Machine(TWO_PRODUCTS, map[]), AnnEmptiesLive(),
            Apply(Machine(TWO_PRODUCTS, map[]), AnnEmptiesLive()));
    assert [] + [AnnEmptiesLive()] == [AnnEmptiesLive()];
    assert Apply(Machine(TWO_PRODUCTS, map[]), AnnEmptiesLive()).pending[0].Checking?;
  }

  lemma BorisChecks(x: Pending)
    ensures var m := Machine(TWO_PRODUCTS, map[0 := x]);
            && Enabled(m, BorisAddsViewer())
            && var n := Apply(m, BorisAddsViewer());
              && Enabled(n, CheckNext(1))
              && var u := Apply(n, CheckNext(1));
                && Enabled(u, ListExisting(1))
                && Apply(u, ListExisting(1))
                == Machine(TWO_PRODUCTS, map[0 := x, 1 := BorisWaits(false)])
  {
    BothMayAssign();
    hide Granted, IsGlobal, Listed;
    var m := Machine(TWO_PRODUCTS, map[0 := x]);
    var n := Apply(m, BorisAddsViewer());
    assert n.pending[1].Checking? && n.pending[1].wanted == [VIEWS];
    assert AssignmentError(TWO_PRODUCTS, n.pending[1].auth, "target", Some(DouyinDesktop), VIEWS).None?;
    var u := Apply(n, CheckNext(1));
    assert u.pending[1].wanted == [] && u.pending[1].accepted == {VIEWS};
  }

  /** What happens while the first request waits between its guard and its write. */
  function Crossing(): seq<Action> {
    [GuardLastSuperAdmin(0), BorisAddsViewer(), CheckNext(1), ListExisting(1), GuardLastSuperAdmin(1), Commit(1)]
  }

  lemma GuardPasses(m: Machine, r: nat)
    requires m.state == TWO_PRODUCTS && r in m.pending && m.pending[r].Replacing? && !m.pending[r].guarded
    requires m.pending[r].target == "target"
    ensures Enabled(m, GuardLastSuperAdmin(r))
    ensures Apply(m, GuardLastSuperAdmin(r)) == m.(pending := m.pending[r := m.pending[r].(guarded := true)])
  {
    NoSuperAdminThere(OutsideScope(m.pending[r].existing, m.pending[r].scope) + m.pending[r].accepted);
    hide RemovesLastSuperAdmin;
  }

  function WithViewer(): State {
    TWO_PRODUCTS.(assignments := TWO_PRODUCTS.assignments + {VIEWS})
  }

  lemma BorisCommits()
    ensures var m := Machine(TWO_PRODUCTS, map[0 := AnnWaits(true), 1 := BorisWaits(true)]);
            && Enabled(m, Commit(1)) && Apply(m, Commit(1)) == Machine(WithViewer(), map[0 := AnnWaits(true)])
            && WritesFor(m, Commit(1), "target") && Merged(m.pending[1]) == {VIEWS}
  {
    var m := Machine(TWO_PRODUCTS, map[0 := AnnWaits(true), 1 := BorisWaits(true)]);
    assert OutsideScope({}, Some(DouyinDesktop)) + {VIEWS} == {VIEWS};
    assert Storable(TWO_PRODUCTS, "target", VIEWS);
    assert CanReplace(TWO_PRODUCTS, "target", {VIEWS});
    assert Stored(TWO_PRODUCTS, "target") == {};
    assert TWO_PRODUCTS.assignments - {} + {VIEWS} == TWO_PRODUCTS.assignments + {VIEWS};
    assert map[0 := AnnWaits(true), 1 := BorisWaits(true)] - {1} == map[0 := AnnWaits(true)];
  }

  lemma {:induction false} Crosses(u: Machine, actions: seq<Action>, n: Machine, action: Action, w: Machine)
    requires Possible(u, actions) && Run(u, actions) == n && Enabled(n, action) && Apply(n, action) == w
    ensures Possible(u, actions + [action]) && Run(u, actions + [action]) == w
  {
    hide Apply, Enabled;
    RunAppends(u, actions, action);
  }

  function BothWait(first: bool, second: bool): Machine {
    Machine(TWO_PRODUCTS, map[0 := AnnWaits(first), 1 := BorisWaits(second)])
  }

  lemma GuardsPass()
    ensures var n := Machine(TWO_PRODUCTS, map[0 := AnnWaits(false)]);
            && Enabled(n, GuardLastSuperAdmin(0))
            && Apply(n, GuardLastSuperAdmin(0)) == Machine(TWO_PRODUCTS, map[0 := AnnWaits(true)])
    ensures var m := BothWait(true, false);
            Enabled(m, GuardLastSuperAdmin(1)) && Apply(m, GuardLastSuperAdmin(1)) == BothWait(true, true)
  {
    var n, m := Machine(TWO_PRODUCTS, map[0 := AnnWaits(false)]), BothWait(true, false);
    GuardPasses(n, 0);
    assert n.pending[0 := AnnWaits(true)] == map[0 := AnnWaits(true)];
    GuardPasses(m, 1);
    assert m.pending[1 := BorisWaits(true)] == BothWait(true, true).pending;
    hide Apply, Enabled;
  }

  lemma CrossingRuns()
    ensures var n := Machine(TWO_PRODUCTS, map[0 := AnnWaits(false)]);
            Possible(n, Crossing()) && Run(n, Crossing()) == Machine(WithViewer(), map[0 := AnnWaits(true)])
  {
    hide Apply, Enabled, BorisAddsViewer;
    var n, guarded := Machine(TWO_PRODUCTS, map[0 := AnnWaits(false)]), Machine(TWO_PRODUCTS, map[0 := AnnWaits(true)]);
    GuardsPass();
    BorisChecks(AnnWaits(true));
    BorisCommits();
    var c := Crossing();
    assert Possible(n, []) && Run(n, []) == n;
    hide Possible, Run;
    Crosses(n, [], n, c[0], guarded);
    assert [] + [c[0]] == c[..1];
    Crosses(n, c[..1], guarded, c[1], Apply(guarded, c[1]));
    assert c[..1] + [c[1]] == c[..2];
    Crosses(n, c[..2], Apply(guarded, c[1]), c[2], Apply(Apply(guarded, c[1]), c[2]));
    assert c[..2] + [c[2]] == c[..3];
    Crosses(n, c[..3], Apply(Apply(guarded, c[1]), c[2]), c[3], BothWait(true, false));
    assert c[..3] + [c[3]] == c[..4];
    Crosses(n, c[..4], BothWait(true, false), c[4], BothWait(true, true));
    assert c[..4] + [c[4]] == c[..5];
    Crosses(n, c[..5], BothWait(true, true), c[5], Machine(WithViewer(), map[0 := AnnWaits(true)]));
    assert c[..5] + [c[5]] == c;
  }

  lemma AnnCommits()
    ensures var u := Machine(WithViewer(), map[0 := AnnWaits(true)]);
            && Enabled(u, Commit(0)) && Write(u.state, u.pending[0]).Ok?
            && VIEWS in Listed(u.state, "target") && VIEWS !in Listed(Apply(u, Commit(0)).state, "target")
  {
    assert OutsideScope({}, Some(AutoLive)) + {} == {};
    assert CanReplace(WithViewer(), "target", {});
    assert VIEWS in Stored(WithViewer(), "target");
  }

  /**
   * Two replacements for one target in different products: the first lists the target's assignments, the second adds
   * one and is committed, the first then writes what it listed, and the addition is gone.
   */
  lemma CrossingReplacementLosesAssignment()
    ensures Loses(TWO_PRODUCTS, [AnnEmptiesLive()], 0, Crossing(), "target", VIEWS)
  {
    AnnListsAndGuards();
    CrossingRuns();
    AnnCommits();
    hide Apply, Enabled, Possible, Run, Listed, Write;
  }

  /** After `before` the request lists, and its write after `between` takes an assignment away from the user. */
  ghost predicate Loses(
    s: State, before: seq<Action>, r: nat, between: seq<Action>, user: string, assignment: Assignment)
  {
    && Possible(Machine(s, map[]), before)
    && var m := Run(Machine(s, map[]), before);
      && Enabled(m, ListExisting(r)) && LeavesWaiting(between, r)
      && var n := Apply(m, ListExisting(r));
        && r in n.pending && n.pending[r].Replacing? && n.pending[r].target == user
        && assignment.product != n.pending[r].scope && Possible(n, between)
        && var u := Run(n, between);
          && Enabled(u, Commit(r)) && Write(u.state, u.pending[r]).Ok?
          && assignment in Listed(u.state, user) && assignment !in Listed(Apply(u, Commit(r)).state, user)
  }

  // --- nobody left in charge -------------------------------------------------------------------------------

  function Global(user: string): Assignment {
    Assignment(user, SUPER_ADMIN, None)
  }

  /** Two super administrators and nobody else. */
  const TWO_IN_CHARGE := State(
    map["ann" := ADMIN, "boris" := ADMIN], {}, {ASSIGN}, map[SUPER_ADMIN := Role(None, "", true, {ASSIGN})],
    {Global("ann"), Global("boris")})

  function Demotes(r: nat, actor: string, target: string): Action {
    BeginReplace(r, actor, AutoLive, target, None, [])
  }

  function Emptying(target: string, guarded: bool): Pending {
    Replacing(target, None, {}, {Global(target)}, guarded)
  }

  lemma TheyAreInCharge(user: string)
    requires user in TWO_IN_CHARGE.users
    ensures Listed(TWO_IN_CHARGE, user) == Stored(TWO_IN_CHARGE, user) == {Global(user)}
    ensures IsGlobal(TWO_IN_CHARGE, user) && Authorize(TWO_IN_CHARGE, user, AutoLive, ASSIGN).Ok?
    ensures EffectiveSuperAdmin(TWO_IN_CHARGE, user, {Global(user)})
  {
    assert ASSIGN in Granted(TWO_IN_CHARGE, user, AutoLive);
    assert Global(user) in {Global(user)};
  }

  lemma SomebodyIsInCharge()
    ensures SomebodyInCharge(TWO_IN_CHARGE)
  {
    TheyAreInCharge("ann");
    assert EffectiveSuperAdmin(TWO_IN_CHARGE, "ann", Stored(TWO_IN_CHARGE, "ann"));
  }

  lemma Lists(pending: map<nat, Pending>, r: nat, actor: string, target: string)
    requires actor in TWO_IN_CHARGE.users && target in TWO_IN_CHARGE.users && r !in pending
    ensures var m := Machine(TWO_IN_CHARGE, pending);
            && Enabled(m, Demotes(r, actor, target))
            && var n := Apply(m, Demotes(r, actor, target));
              Enabled(n, ListExisting(r))
              && Apply(n, ListExisting(r)) == Machine(TWO_IN_CHARGE, pending[r := Emptying(target, false)])
  {
    TheyAreInCharge(actor);
    TheyAreInCharge(target);
    hide Granted, IsGlobal, Listed;
    var n := Apply(Machine(TWO_IN_CHARGE, pending), Demotes(r, actor, target));
    assert n.pending[r].Checking? && n.pending[r].wanted == [];
  }

  lemma GuardSeesTheOther(pending: map<nat, Pending>, r: nat, actor: string, target: string)
    requires actor in TWO_IN_CHARGE.users && target in TWO_IN_CHARGE.users && actor != target
    requires r in pending && pending[r] == Emptying(target, false)
    ensures var m := Machine(TWO_IN_CHARGE, pending);
            && Enabled(m, GuardLastSuperAdmin(r))
            && Apply(m, GuardLastSuperAdmin(r))
            == Machine(TWO_IN_CHARGE, pending[r := Emptying(target, true)])
  {
    TheyAreInCharge(actor);
    hide Listed, Stored;
  }

  function Demotions(): seq<Action> {
    [Demotes(0, "ann", "boris"), ListExisting(0), Demotes(1, "boris", "ann"), ListExisting(1),
     GuardLastSuperAdmin(0), GuardLastSuperAdmin(1), Commit(0)]
  }

  function OneLeft(): State {
    TWO_IN_CHARGE.(assignments := {Global("ann")})
  }

  lemma EmptyMerge(target: string)
    ensures OutsideScope({Global(target)}, None) + {} == {}
  {
  }

  lemma FirstDemotion()
    ensures var x, y := Emptying("boris", true), Emptying("ann", true);
            var m := Machine(TWO_IN_CHARGE, map[0 := x, 1 := y]);
            Enabled(m, Commit(0)) && Apply(m, Commit(0)) == Machine(OneLeft(), map[1 := y])
  {
    var x, y := Emptying("boris", true), Emptying("ann", true);
    EmptyMerge("boris");
    assert CanReplace(TWO_IN_CHARGE, "boris", {});
    assert Stored(TWO_IN_CHARGE, "boris") == {Global("boris")};
    assert TWO_IN_CHARGE.assignments - {Global("boris")} + {} == {Global("ann")};
    assert map[0 := x, 1 := y] - {0} == map[1 := y];
  }

  lemma SecondDemotion()
    ensures var m := Machine(OneLeft(), map[1 := Emptying("ann", true)]);
            && Enabled(m, Commit(1)) && RemovesLast(m, Commit(1))
            && SomebodyInCharge(m.state) && !SomebodyInCharge(Apply(m, Commit(1)).state)
  {
    var m := Machine(OneLeft(), map[1 := Emptying("ann", true)]);
    EmptyMerge("ann");
    assert CanReplace(OneLeft(), "ann", {});
    assert Global("ann") in Stored(OneLeft(), "ann");
    assert EffectiveSuperAdmin(OneLeft(), "ann", Stored(OneLeft(), "ann"));
    assert Stored(OneLeft(), "boris") == {};
    assert RemovesLastSuperAdmin(OneLeft(), "ann", {});
    StepInCharge(m, Commit(1));
  }

  function BothListed(first: bool, second: bool): Machine {
    Machine(TWO_IN_CHARGE, map[0 := Emptying("boris", first), 1 := Emptying("ann", second)])
  }

  lemma BothList()
    ensures Reaches(TWO_IN_CHARGE, Demotions()[..4], BothListed(false, false))
  {
    var s := TWO_IN_CHARGE;
    var x := Emptying("boris", false);
    assert Reaches(s, [], Machine(s, map[]));
    Lists(map[], 0, "ann", "boris");
    var listed := Machine(s, map[0 := x]);
    assert map[][0 := x] == map[0 := x];
    Lists(map[0 := x], 1, "boris", "ann");
    assert map[0 := x][1 := Emptying("ann", false)] == BothListed(false, false).pending;
    hide Apply, Enabled, Reaches, Demotes;
    var c := Demotions();
    OneMore(s, [], Machine(s, map[]), c[0], Apply(Machine(s, map[]), c[0]));
    assert [] + [c[0]] == c[..1];
    OneMore(s, c[..1], Apply(Machine(s, map[]), c[0]), c[1], listed);
    assert c[..1] + [c[1]] == c[..2];
    OneMore(s, c[..2], listed, c[2], Apply(listed, c[2]));
    assert c[..2] + [c[2]] == c[..3];
    OneMore(s, c[..3], Apply(listed, c[2]), c[3], BothListed(false, false));
    assert c[..3] + [c[3]] == c[..4];
  }

  lemma BothPass()
    ensures var m, n := BothListed(false, false), BothListed(true, false);
            && Enabled(m, GuardLastSuperAdmin(0)) && Apply(m, GuardLastSuperAdmin(0)) == n
            && Enabled(n, GuardLastSuperAdmin(1)) && Apply(n, GuardLastSuperAdmin(1)) == BothListed(true, true)
  {
    var m, n := BothListed(false, false), BothListed(true, false);
    GuardSeesTheOther(m.pending, 0, "ann", "boris");
    assert m.pending[0 := Emptying("boris", true)] == n.pending;
    GuardSeesTheOther(n.pending, 1, "boris", "ann");
    assert n.pending[1 := Emptying("ann", true)] == BothListed(true, true).pending;
    hide Apply, Enabled;
  }

  lemma DemotionsRun()
    ensures Reaches(TWO_IN_CHARGE, Demotions(), Machine(OneLeft(), map[1 := Emptying("ann", true)]))
  {
    var s := TWO_IN_CHARGE;
    BothList();
    BothPass();
    FirstDemotion();
    hide Apply, Enabled, Reaches, Demotes;
    var c := Demotions();
    OneMore(s, c[..4], BothListed(false, false), c[4], BothListed(true, false));
    assert c[..4] + [c[4]] == c[..5];
    OneMore(s, c[..5], BothListed(true, false), c[5], BothListed(true, true));
    assert c[..5] + [c[5]] == c[..6];
    OneMore(s, c[..6], BothListed(true, true), c[6], Machine(OneLeft(), map[1 := Emptying("ann", true)]));
    assert c[..6] + [c[6]] == c;
  }

  /** Two super administrators demote each other: both guards see the other one, and nobody is left. */
  lemma CrossingDemotionsLeaveNobody()
    ensures && SomebodyInCharge(TWO_IN_CHARGE) && Possible(Machine(TWO_IN_CHARGE, map[]), Demotions())
            && var m := Run(Machine(TWO_IN_CHARGE, map[]), Demotions());
              && Enabled(m, Commit(1)) && RemovesLast(m, Commit(1)) && SomebodyInCharge(m.state)
              && !SomebodyInCharge(Apply(m, Commit(1)).state)
  {
    SomebodyIsInCharge();
    DemotionsRun();
    SecondDemotion();
    hide Apply, Enabled, Possible, Run, SomebodyInCharge, RemovesLast;
  }

  // --- the implicit assignment -----------------------------------------------------------------------------

  /** The state a fresh store is seeded with: the local administrator, the built-in role, no assignment. */
  const SEEDED := State(
    map[LOCAL_ADMIN := ADMIN], {}, {ASSIGN}, map[SUPER_ADMIN := Role(None, "", true, {ASSIGN})], {})

  /** In the seeded state a product-scoped replacement for the local administrator stores a global assignment. */
  lemma ImplicitIsWrittenDown()
    ensures Authorize(SEEDED, LOCAL_ADMIN, AutoLive, ASSIGN).Ok?
    ensures var auth := Authorize(SEEDED, LOCAL_ADMIN, AutoLive, ASSIGN).value;
            var result := Replace(SEEDED, auth, LOCAL_ADMIN, Some(AutoLive), []);
            && Stored(SEEDED, LOCAL_ADMIN) == {}
            && result.Ok? && Global(LOCAL_ADMIN) in Stored(result.value, LOCAL_ADMIN)
  {
    var implicit := Global(LOCAL_ADMIN);
    assert implicit in Listed(SEEDED, LOCAL_ADMIN);
    assert ASSIGN in Granted(SEEDED, LOCAL_ADMIN, AutoLive);
    var merged := OutsideScope(Listed(SEEDED, LOCAL_ADMIN), Some(AutoLive)) + Normalized([], LOCAL_ADMIN);
    assert merged == {implicit};
    assert Storable(SEEDED, LOCAL_ADMIN, implicit) && CanReplace(SEEDED, LOCAL_ADMIN, merged);
    assert implicit in Replaced(SEEDED, LOCAL_ADMIN, merged).assignments;
  }
}
