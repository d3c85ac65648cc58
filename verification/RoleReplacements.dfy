/**
 * Replacements of a user's role assignments that cross: a request writes what it listed earlier and was allowed by a
 * guard that looked earlier. When that goes wrong, exactly, with concrete runs.
 */
module RoleReplacements {
  import opened Collections
  import opened AdminRbac
  import opened Delegation

  // --- what a request has accepted -------------------------------------------------------------------------

  ghost predicate AllFor(assignments: set<Assignment>, target: string, scope: Option<Product>) {
    forall a :: a in assignments ==> a.user == target && a.product == scope
  }

  /** A request accepts assignments of its target in its scope only, and lists assignments of its target. */
  ghost predicate Scoped(x: Pending) {
    && (x.Checking? || x.Replacing? ==> AllFor(x.accepted, x.target, x.scope))
    && (x.Replacing? ==> forall a :: a in x.existing ==> a.user == x.target)
  }

  ghost predicate AllScoped(m: Machine) {
    forall r :: r in m.pending ==> Scoped(m.pending[r])
  }

  lemma ApplyScoped(m: Machine, action: Action)
    requires AllScoped(m) && Enabled(m, action)
    ensures AllScoped(Apply(m, action))
  {
    hide RemovesLastSuperAdmin, CanReplace, LocalSuperAdmin;
    match action
    case CheckNext(r) => assert Scoped(m.pending[r]);
    case ListExisting(r) => assert Scoped(m.pending[r]);
    case GuardLastSuperAdmin(r) => assert Scoped(m.pending[r]);
    case _ =>
  }

  lemma {:induction false} RunScoped(m: Machine, actions: seq<Action>)
    requires AllScoped(m) && Possible(m, actions)
    ensures AllScoped(Run(m, actions))
    decreases |actions|
  {
    hide Apply, Enabled, AllScoped;
    if actions != [] {
      ApplyScoped(m, actions[0]);
      RunScoped(Apply(m, actions[0]), actions[1..]);
    }
  }

  /** What a replacement writes for its target. */
  function Merged(x: Pending): set<Assignment>
    requires x.Replacing?
  {
    OutsideScope(x.existing, x.scope) + x.accepted
  }

  // --- the assignments of one user along a run -------------------------------------------------------------

  /** The step writes the user's assignments. */
  predicate WritesFor(m: Machine, action: Action, user: string)
    requires Enabled(m, action)
  {
    action.Commit? && m.pending[action.r].Replacing? && m.pending[action.r].target == user
    && Write(m.state, m.pending[action.r]).Ok?
  }

  /** The assignments of the user written last along a run. */
  ghost function LastCommitted(m: Machine, actions: seq<Action>, user: string): Option<set<Assignment>>
    requires Possible(m, actions)
    decreases |actions|
  {
    if actions == [] then None
    else
      var rest := LastCommitted(Apply(m, actions[0]), actions[1..], user);
      if rest.Some? then rest
      else if WritesFor(m, actions[0], user) then Some(Merged(m.pending[actions[0].r]))
      else None
  }

  lemma StepStores(m: Machine, action: Action, user: string)
    requires AllScoped(m) && Enabled(m, action)
    ensures Apply(m, action).state.users == m.state.users
    ensures Stored(Apply(m, action).state, user)
         == if WritesFor(m, action, user) then Merged(m.pending[action.r]) else Stored(m.state, user)
  {
    hide RemovesLastSuperAdmin, LocalSuperAdmin;
    if action.Commit? {
      assert Scoped(m.pending[action.r]);
    }
  }

  lemma {:induction false} StoredIsLastCommitted(m: Machine, actions: seq<Action>, user: string)
    requires AllScoped(m) && Possible(m, actions)
    ensures Run(m, actions).state.users == m.state.users
    ensures Stored(Run(m, actions).state, user)
         == match LastCommitted(m, actions, user) case None => Stored(m.state, user) case Some(written) => written
    decreases |actions|
  {
    hide Apply, Enabled, AllScoped, WritesFor, Stored;
    if actions != [] {
      ApplyScoped(m, actions[0]);
      StepStores(m, actions[0], user);
      StoredIsLastCommitted(Apply(m, actions[0]), actions[1..], user);
    }
  }

  // --- when a replacement loses assignments ----------------------------------------------------------------

  predicate Begins(action: Action, r: nat) {
    (action.BeginCreate? || action.BeginUpdate? || action.BeginReplace?) && action.r == r
  }

  /** Steps between listing and writing: of the request itself there is only the guard. */
  predicate LeavesWaiting(actions: seq<Action>, r: nat) {
    forall i :: 0 <= i < |actions| ==>
      !Begins(actions[i], r) && actions[i] != Commit(r) && actions[i] != Abandon(r)
  }

  /** The request is still waiting with what it listed, unless the guard has turned it away for good. */
  predicate WaitsOrGone(m: Machine, r: nat, x: Pending) {
    r in m.pending ==>
      m.pending[r].Replacing? && x.Replacing? && m.pending[r].(guarded := false) == x.(guarded := false)
  }

  lemma StepWaits(m: Machine, action: Action, r: nat, x: Pending)
    requires Enabled(m, action) && WaitsOrGone(m, r, x)
    requires !Begins(action, r) && action != Commit(r) && action != Abandon(r)
    ensures WaitsOrGone(Apply(m, action), r, x)
  {
    hide RemovesLastSuperAdmin, CanReplace, LocalSuperAdmin, Write, Authorize;
  }

  lemma {:induction false} StillWaits(m: Machine, actions: seq<Action>, r: nat, x: Pending)
    requires Possible(m, actions) && LeavesWaiting(actions, r) && WaitsOrGone(m, r, x)
    ensures WaitsOrGone(Run(m, actions), r, x)
    decreases |actions|
  {
    hide Apply, Enabled, WaitsOrGone, Begins;
    if actions != [] {
      assert !Begins(actions[0], r) && actions[0] != Commit(r) && actions[0] != Abandon(r);
      StepWaits(m, actions[0], r, x);
      assert LeavesWaiting(actions[1..], r);
      StillWaits(Apply(m, actions[0]), actions[1..], r, x);
    }
  }

  function ListedOutside(s: State, user: string, scope: Option<Product>): set<Assignment> {
    OutsideScope(Listed(s, user), scope)
  }

  /** The user's assignments outside the scope, had those given been stored. */
  function ListedOutsideWith(s: State, user: string, scope: Option<Product>, stored: set<Assignment>): set<Assignment> {
    OutsideScope(stored + if LocalSuperAdmin(s, user) then {Assignment(user, SUPER_ADMIN, None)} else {}, scope)
  }

  /**
   * Nothing is locked between listing and writing. Whatever happened in between, a replacement makes the target's
   * assignments outside its scope what they were when it listed them, and inside its scope the accepted ones. So it
   * leaves the others as it finds them if and only if no replacement for the same target was committed in between, or
   * the last one that was left the assignments outside the scope as they had been listed.
   */
  lemma OthersStayExactly(s: State, before: seq<Action>, r: nat, between: seq<Action>)
    requires Possible(Machine(s, map[]), before)
    requires var m := Run(Machine(s, map[]), before);
             && Enabled(m, ListExisting(r)) && r in Apply(m, ListExisting(r)).pending
             && var n := Apply(m, ListExisting(r));
               && Possible(n, between) && LeavesWaiting(between, r)
               && Enabled(Run(n, between), Commit(r))
               && Write(Run(n, between).state, Run(n, between).pending[r]).Ok?
    ensures var m := Run(Machine(s, map[]), before);
            var n := Apply(m, ListExisting(r));
            var u := Run(n, between);
            var t := Apply(u, Commit(r)).state;
            var x := n.pending[r];
            && ListedOutside(t, x.target, x.scope) == ListedOutside(m.state, x.target, x.scope)
            && (set a | a in Stored(t, x.target) && a.product == x.scope) == x.accepted
            && (ListedOutside(t, x.target, x.scope) == ListedOutside(u.state, x.target, x.scope) <==>
                match LastCommitted(n, between, x.target)
                case None => true
                case Some(written) =>
                  ListedOutsideWith(m.state, x.target, x.scope, written) == ListedOutside(m.state, x.target, x.scope))
  {
    var m := Run(Machine(s, map[]), before);
    RunScoped(Machine(s, map[]), before);
    hide Run, Possible, AllScoped;
    ApplyScoped(m, ListExisting(r));
    var n := Apply(m, ListExisting(r));
    var x := n.pending[r];
    ListedNow(m, r);
    StillWaits(n, between, r, x);
    RunScoped(n, between);
    StoredIsLastCommitted(n, between, x.target);
    hide Apply, Enabled, Write;
    var u := Run(n, between);
    CommitWrites(u, r);
    OutsideOfUnion(m.state, u.state, Apply(u, Commit(r)).state, x);
  }

  lemma ListedNow(m: Machine, r: nat)
    requires Enabled(m, ListExisting(r)) && r in Apply(m, ListExisting(r)).pending
    ensures var n := Apply(m, ListExisting(r));
            n.state == m.state && n.pending[r].Replacing? && WaitsOrGone(n, r, n.pending[r])
            && n.pending[r].existing == Listed(m.state, n.pending[r].target)
  {
  }

  lemma CommitWrites(u: Machine, r: nat)
    requires AllScoped(u) && Enabled(u, Commit(r)) && u.pending[r].Replacing? && Write(u.state, u.pending[r]).Ok?
    ensures var t, x := Apply(u, Commit(r)).state, u.pending[r];
            t.users == u.state.users && Stored(t, x.target) == Merged(x) && AllFor(x.accepted, x.target, x.scope)
  {
    StepStores(u, Commit(r), u.pending[r].target);
    assert Scoped(u.pending[r]);
  }

  lemma OutsideOfUnion(s: State, u: State, t: State, x: Pending)
    requires x.Replacing? && AllFor(x.accepted, x.target, x.scope)
    requires s.users == u.users == t.users && x.existing == Listed(s, x.target) && Stored(t, x.target) == Merged(x)
    ensures ListedOutside(t, x.target, x.scope) == ListedOutside(s, x.target, x.scope)
    ensures (set a | a in Stored(t, x.target) && a.product == x.scope) == x.accepted
    ensures ListedOutside(u, x.target, x.scope) == ListedOutsideWith(s, x.target, x.scope, Stored(u, x.target))
  {
  }

  // --- when nobody is left in charge -----------------------------------------------------------------------

  /** The step writes a replacement that its guard would refuse by now. */
  predicate RemovesLast(m: Machine, action: Action)
    requires Enabled(m, action)
  {
    action.Commit? && m.pending[action.r].Replacing? && Write(m.state, m.pending[action.r]).Ok?
    && RemovesLastSuperAdmin(m.state, m.pending[action.r].target, Merged(m.pending[action.r]))
  }

  lemma InChargeIsListed(s: State, t: State)
    requires t.users == s.users && t.assignments == s.assignments && SomebodyInCharge(s)
    ensures SomebodyInCharge(t)
  {
    var u :| u in s.users && s.users[u].active && EffectiveSuperAdmin(s, u, Stored(s, u));
    assert Stored(t, u) == Stored(s, u);
    assert EffectiveSuperAdmin(t, u, Stored(t, u));
  }

  /** A replacement that is written leaves somebody in charge exactly if the guard would still let it pass. */
  lemma ReplacementLeavesSomebody(s: State, target: string, next: set<Assignment>)
    requires SomebodyInCharge(s) && CanReplace(s, target, next)
    ensures SomebodyInCharge(Replaced(s, target, next)) <==> !RemovesLastSuperAdmin(s, target, next)
  {
    var t := Replaced(s, target, next);
    assert Stored(t, target) == next;
    assert forall u :: u != target ==> Stored(t, u) == Stored(s, u);
    hide CanReplace, Storable;
    if RemovesLastSuperAdmin(s, target, next) {
      forall u | u in t.users && t.users[u].active ensures !EffectiveSuperAdmin(t, u, Stored(t, u)) {
        assert EffectiveSuperAdmin(t, u, Stored(t, u)) ==>
            EffectiveSuperAdmin(s, u, if u == target then next else Stored(s, u));
      }
    } else if EffectiveSuperAdmin(s, target, next) {
      assert EffectiveSuperAdmin(t, target, Stored(t, target));
    } else if EffectiveSuperAdmin(s, target, Stored(s, target)) {
      var u :| u in s.users && u != target && s.users[u].active && EffectiveSuperAdmin(s, u, Stored(s, u));
      assert EffectiveSuperAdmin(t, u, Stored(t, u));
    } else {
      var u :| u in s.users && s.users[u].active && EffectiveSuperAdmin(s, u, Stored(s, u));
      assert u != target && EffectiveSuperAdmin(t, u, Stored(t, u));
    }
  }

  lemma StepInCharge(m: Machine, action: Action)
    requires SomebodyInCharge(m.state) && Enabled(m, action)
    ensures SomebodyInCharge(Apply(m, action).state) <==> !RemovesLast(m, action)
  {
    hide SomebodyInCharge, RemovesLastSuperAdmin;
    if action.Commit? && m.pending[action.r].Replacing? && Write(m.state, m.pending[action.r]).Ok? {
      ReplacementLeavesSomebody(m.state, m.pending[action.r].target, Merged(m.pending[action.r]));
    } else {
      InChargeIsListed(m.state, Apply(m, action).state);
    }
  }

  ghost predicate AlwaysInCharge(m: Machine, actions: seq<Action>)
    requires Possible(m, actions)
    decreases |actions|
  {
    SomebodyInCharge(m.state) && (actions == [] || AlwaysInCharge(Apply(m, actions[0]), actions[1..]))
  }

  ghost predicate NeverRemovesLast(m: Machine, actions: seq<Action>)
    requires Possible(m, actions)
    decreases |actions|
  {
    actions == [] || (!RemovesLast(m, actions[0]) && NeverRemovesLast(Apply(m, actions[0]), actions[1..]))
  }

  /**
   * However requests interleave, there is a super administrator all along if and only if no replacement is written that
   * its own guard, asked once more at the time of the write, would refuse.
   */
  lemma {:induction false} InChargeExactly(m: Machine, actions: seq<Action>)
    requires SomebodyInCharge(m.state) && Possible(m, actions)
    ensures AlwaysInCharge(m, actions) <==> NeverRemovesLast(m, actions)
    decreases |actions|
  {
    hide Apply, Enabled, SomebodyInCharge, RemovesLast;
    if actions != [] {
      StepInCharge(m, actions[0]);
      if RemovesLast(m, actions[0]) {
        assert !AlwaysInCharge(Apply(m, actions[0]), actions[1..]);
      } else {
        InChargeExactly(Apply(m, actions[0]), actions[1..]);
      }
    }
  }
}
