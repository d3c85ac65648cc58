/**
 * What a role request comes to when nothing crosses it: when it is carried out, what it writes, and that the separate
 * transactions then amount to one step.
 */
module RoleOutcomes {
  import opened Collections
  import opened AdminRbac
  import opened Delegation

  // --- what a user holds -----------------------------------------------------------------------------------

  predicate SuperAdmin(s: State, user: string) {
    Assignment(user, SUPER_ADMIN, None) in s.assignments
    || (user == "usr_local_admin" && user in s.users && s.users[user].isAdmin && s.users[user].active)
  }

  ghost predicate AssignedIn(s: State, user: string, product: Product, permission: string) {
    exists role :: role in s.roles && permission in s.roles[role].permissions
      && (Assignment(user, role, Some(product)) in s.assignments || Assignment(user, role, None) in s.assignments)
  }

  /**
   * An active user holds a permission in a product exactly if a role assigned there or everywhere has it, or the user
   * is a super administrator and the permission exists at all. Nobody else holds anything.
   */
  lemma HoldsExactly(s: State, user: string, product: Product, permission: string)
    requires WellFormed(s)
    ensures permission in Held(s, user, product) <==>
            && user in s.users && s.users[user].active
            && (AssignedIn(s, user, product, permission) || (SuperAdmin(s, user) && permission in s.catalog))
  {
    if AssignedIn(s, user, product, permission) {
      var role :| role in s.roles && permission in s.roles[role].permissions
          && (Assignment(user, role, Some(product)) in s.assignments || Assignment(user, role, None) in s.assignments);
      var a := if Assignment(user, role, Some(product)) in s.assignments then Assignment(user, role, Some(product))
               else Assignment(user, role, None);
      assert a in Listed(s, user) && AppliesTo(a, product) && permission in RolePermissions(s, a.role);
    }
    if permission in Granted(s, user, product) && !IsGlobal(s, user) {
      var a :| a in Listed(s, user) && AppliesTo(a, product) && permission in RolePermissions(s, a.role);
      assert a == Assignment(user, a.role, a.product);
    }
  }

  /** The request is made by an active user who holds the permission it takes. */
  predicate Allowed(s: State, actor: string, product: Product, needed: string) {
    actor in s.users && s.users[actor].active && needed in Held(s, actor, product)
  }

  // --- roles -----------------------------------------------------------------------------------------------

  predicate GoodRole(s: State, code: string, name: string, permissions: set<string>) {
    && 0 < |code| <= 128 && 0 < |name| <= 128 && forall p :: p in permissions ==> p in s.catalog
  }

  /** Carrying on with a request until it has been carried out or given up, with nothing in between. */
  function Driven(m: Machine, r: nat, steps: nat): Machine
    decreases steps
  {
    if r !in m.pending || steps == 0 then m
    else
      var x := m.pending[r];
      var next :=
        if Writable(x) then Commit(r)
        else if x.UpdateAllowed? then CheckUpdate(r)
        else if x.Replacing? then GuardLastSuperAdmin(r)
        else if x.wanted != [] then CheckNext(r) else ListExisting(r);
      Driven(Apply(m, next), r, steps - 1)
  }

  /** The super administrator's product is every product. */
  predicate OfProduct(s: State, actor: string, actorProduct: Product, product: Option<Product>) {
    SuperAdmin(s, actor) || product == Some(actorProduct)
  }

  /**
   * A role is created exactly if the administrator may manage roles, holds every permission it gets, makes it for the
   * product at hand or is a super administrator, and its code is free; then it is as asked for and nothing else
   * changes.
   */
  lemma RoleIsCreatedExactly(m: Machine, action: Action)
    requires action.BeginCreate? && Enabled(m, action)
    ensures var (s, n) := (m.state, Driven(Apply(m, action), action.r, 1));
            var may := && Allowed(s, action.actor, action.actorProduct, "roles.manage")
                       && GoodRole(s, action.code, action.name, action.permissions) && action.code != "super_admin"
                       && OfProduct(s, action.actor, action.actorProduct, Some(action.product))
                       && action.permissions <= Held(s, action.actor, action.actorProduct)
                       && action.code !in s.roles;
            && n.pending == m.pending
            && (if may then
                  && n.state == s.(roles := n.state.roles) && n.state.roles.Keys == s.roles.Keys + {action.code}
                  && (forall c :: c in s.roles ==> n.state.roles[c] == s.roles[c])
                  && var role := n.state.roles[action.code];
                    && role.product == Some(action.product) && role.name == action.name && !role.builtIn
                    && role.permissions == action.permissions
                else n.state == s)
  {
    CreationDriven(m, action);
    hide Granted, Driven, Apply;
  }

  lemma CreationDriven(m: Machine, action: Action)
    requires action.BeginCreate? && Enabled(m, action)
    ensures var step := BeginCreateStep(m.state, action.actor, action.actorProduct, action.code, action.product,
                                        action.name, action.permissions);
            Driven(Apply(m, action), action.r, 1) == if step.Err? then m else
              Machine(if Write(m.state, step.value).Ok? then Write(m.state, step.value).value else m.state, m.pending)
    ensures var step := BeginCreateStep(m.state, action.actor, action.actorProduct, action.code, action.product,
                                        action.name, action.permissions);
            step.Ok? ==> step.value.Creating?
  {
    var step := BeginCreateStep(m.state, action.actor, action.actorProduct, action.code, action.product, action.name,
        action.permissions);
    assert m.pending - {action.r} == m.pending;
    assert step.Ok? ==> step.value.Creating?;
    hide BeginCreateStep, Write;
    if step.Ok? {
      var u := Apply(m, action);
      assert m.pending[action.r := step.value] - {action.r} == m.pending;
      assert Driven(u, action.r, 1) == Driven(Apply(u, Commit(action.r)), action.r, 0);
    }
  }

  /**
   * A role is changed exactly if the administrator may manage roles, the role is there and not built in, is of the
   * product at hand or the administrator is a super administrator, and gets no permission the administrator lacks; then
   * its name and permissions are as asked for and nothing else changes.
   */
  lemma RoleIsUpdatedExactly(m: Machine, action: Action)
    requires action.BeginUpdate? && Enabled(m, action)
    ensures var (s, n) := (m.state, Driven(Apply(m, action), action.r, 2));
            var may := && Allowed(s, action.actor, action.actorProduct, "roles.manage")
                       && action.code in s.roles && !s.roles[action.code].builtIn
                       && OfProduct(s, action.actor, action.actorProduct, s.roles[action.code].product)
                       && GoodRole(s, action.code, action.name, action.permissions)
                       && action.permissions <= Held(s, action.actor, action.actorProduct);
            && n.pending == m.pending
            && (if may then
                  && n.state == s.(roles := n.state.roles) && n.state.roles.Keys == s.roles.Keys
                  && (forall c :: c in s.roles && c != action.code ==> n.state.roles[c] == s.roles[c])
                  && n.state.roles[action.code].name == action.name
                  && n.state.roles[action.code].permissions == action.permissions
                  && n.state.roles[action.code].product == s.roles[action.code].product
                  && !n.state.roles[action.code].builtIn
                else n.state == s)
  {
    UpdateDriven(m, action);
    hide Granted, Driven, Apply;
  }

  lemma UpdateDriven(m: Machine, action: Action)
    requires action.BeginUpdate? && Enabled(m, action)
    ensures var (s, auth) := (m.state, Authorize(m.state, action.actor, action.actorProduct, "roles.manage"));
            Driven(Apply(m, action), action.r, 2) ==
              if auth.Err? then m
              else
                var checked := UpdateChecked(s, auth.value, action.code, action.name, action.permissions);
                if checked.Err? then m
                else
                  var written := UpdateRole(s, action.code, checked.value, action.name, action.permissions);
                  Machine(if written.Ok? then written.value else s, m.pending)
  {
    hide Authorize, UpdateChecked, UpdateRole;
    var (s, r, auth) := (m.state, action.r, Authorize(m.state, action.actor, action.actorProduct, "roles.manage"));
    assert m.pending - {r} == m.pending;
    var u := Apply(m, action);
    if auth.Ok? {
      var first := UpdateAllowed(auth.value, action.code, action.name, action.permissions);
      assert u.pending == m.pending[r := first] && m.pending[r := first] - {r} == m.pending;
      var v := Apply(u, CheckUpdate(r));
      assert Driven(u, r, 2) == Driven(v, r, 1);
      var checked := UpdateChecked(s, auth.value, action.code, action.name, action.permissions);
      if checked.Ok? {
        var second := Updating(action.code, checked.value, action.name, action.permissions);
        assert v.pending == m.pending[r := first][r := second] && v.pending - {r} == m.pending;
        assert Driven(v, r, 1) == Driven(Apply(v, Commit(r)), r, 0);
      }
    }
  }

  /** A role is deleted exactly if it is there, not built in, and assigned to nobody; nothing else changes. */
  lemma RoleIsDeletedExactly(m: Machine, code: string)
    ensures var (s, n) := (m.state, Apply(m, Delete(code)));
            var may := code in s.roles && !s.roles[code].builtIn && forall a :: a in s.assignments ==> a.role != code;
            && n.pending == m.pending && n.state == s.(roles := n.state.roles)
            && n.state.roles == if may then s.roles - {code} else s.roles
  {
  }

  // --- assignments -----------------------------------------------------------------------------------------

  lemma {:induction false} ChecksDriven(m: Machine, r: nat, more: nat)
    requires r in m.pending && m.pending[r].Checking?
    ensures var x := m.pending[r];
            Driven(m, r, |x.wanted| + more) ==
              if FirstError(m.state, x.auth, x.target, x.scope, x.wanted).Some? then m.(pending := m.pending - {r})
              else Driven(m.(pending := m.pending[r := x.(wanted := [],
                            accepted := x.accepted + Normalized(x.wanted, x.target))]), r, more)
    decreases |m.pending[r].wanted|
  {
    hide AssignmentError;
    var x := m.pending[r];
    if x.wanted == [] {
      assert x.accepted + Normalized([], x.target) == x.accepted;
      assert m.pending[r := x] == m.pending;
    } else {
      var n := Apply(m, CheckNext(r));
      assert Driven(m, r, |x.wanted| + more) == Driven(n, r, |x.wanted| - 1 + more);
      if AssignmentError(m.state, x.auth, x.target, x.scope, x.wanted[0]).None? {
        ChecksDriven(n, r, more);
        assert x.wanted == [x.wanted[0]] + x.wanted[1..];
        assert x.accepted + {ForUser(x.wanted[0], x.target)} + Normalized(x.wanted[1..], x.target)
            == x.accepted + Normalized(x.wanted, x.target);
        var y := x.(wanted := [], accepted := x.accepted + Normalized(x.wanted, x.target));
        assert n.pending[r := y] == m.pending[r := y] && n.pending - {r} == m.pending - {r};
      }
    }
  }

  /** Listing, guarding and writing once every check has been made. */
  lemma WritingDriven(m: Machine, r: nat)
    requires r in m.pending && m.pending[r].Checking? && m.pending[r].wanted == []
    ensures var (s, x) := (m.state, m.pending[r]);
            var merged := OutsideScope(Listed(s, x.target), x.scope) + x.accepted;
            Driven(m, r, 3) == Machine(
              if x.target in s.users && s.users[x.target].active && !RemovesLastSuperAdmin(s, x.target, merged)
                 && CanReplace(s, x.target, merged)
              then Replaced(s, x.target, merged) else s, m.pending - {r})
  {
    hide RemovesLastSuperAdmin, CanReplace, Listed, OutsideScope;
    var (s, x) := (m.state, m.pending[r]);
    var u := Apply(m, ListExisting(r));
    assert Driven(m, r, 3) == Driven(u, r, 2);
    if x.target in s.users {
      var y := Replacing(x.target, x.scope, x.accepted, Listed(s, x.target), false);
      assert u.pending == m.pending[r := y] && u.pending - {r} == m.pending - {r};
      var v := Apply(u, GuardLastSuperAdmin(r));
      assert Driven(u, r, 2) == Driven(v, r, 1);
      if GuardStep(s, y).Ok? {
        assert v.pending == u.pending[r := y.(guarded := true)] && v.pending - {r} == m.pending - {r};
        assert Driven(v, r, 1) == Driven(Apply(v, Commit(r)), r, 0);
      }
    }
  }

  /** The separate transactions of a replacement request, with nothing in between, are the replacement in one step. */
  lemma ReplacementIsOneStep(m: Machine, action: Action)
    requires action.BeginReplace? && Enabled(m, action)
    ensures var (s, auth) := (m.state, Authorize(m.state, action.actor, action.actorProduct, "roles.assign"));
            Driven(Apply(m, action), action.r, |action.wanted| + 3) == Machine(
              if auth.Ok? && Replace(s, auth.value, action.target, action.requested, action.wanted).Ok?
              then Replace(s, auth.value, action.target, action.requested, action.wanted).value else s, m.pending)
  {
    hide Authorize, ResolveScope, FirstError, RemovesLastSuperAdmin, CanReplace, Listed, OutsideScope, Normalized;
    var (s, r, u) := (m.state, action.r, Apply(m, action));
    assert m.pending - {r} == m.pending;
    var begun := BeginReplaceStep(s, action.actor, action.actorProduct, action.target, action.requested, action.wanted);
    if begun.Ok? {
      assert u.pending == m.pending[r := begun.value];
      ChecksDriven(u, r, 3);
      var accepted := Normalized(action.wanted, action.target);
      var v := u.(pending := u.pending[r := begun.value.(wanted := [], accepted := {} + accepted)]);
      assert {} + accepted == accepted;
      assert u.pending - {r} == m.pending && v.pending - {r} == m.pending;
      WritingDriven(v, r);
    }
    hide Driven, Apply;
  }

  /** The administrator may assign the role to the target in the scope. */
  predicate Assignable(
    s: State, actor: string, actorProduct: Product, target: string, scope: Option<Product>, a: Assignment) {
    && a.user in {"", target} && a.role != "" && a.role in s.roles && a.product == scope
    && match scope
       case None => a.role == "super_admin"
       case Some(product) =>
         && a.role != "super_admin" && s.roles[a.role].product == Some(product)
         && (SuperAdmin(s, actor) || s.roles[a.role].permissions <= Held(s, actor, actorProduct))
  }

  /**
   * The target's assignments as they will be: those outside the scope, implicit ones included, and the requested ones.
   */
  predicate InNext(s: State, target: string, scope: Option<Product>, wanted: seq<Assignment>, a: Assignment) {
    a.user == target && (KeptOutside(s, target, scope, a) || a in wanted || Assignment("", a.role, a.product) in wanted)
  }

  predicate KeptOutside(s: State, target: string, scope: Option<Product>, a: Assignment) {
    a.product != scope
    && (a in s.assignments || (a == Assignment(target, SUPER_ADMIN, None) && SuperAdmin(s, target)))
  }

  /** The store takes the assignment: the role exists and is of its product, of which the target is a member. */
  predicate Fits(s: State, target: string, a: Assignment) {
    a.role in s.roles
    && match a.product
       case None => a.role == "super_admin"
       case Some(product) =>
         a.role != "super_admin" && s.roles[a.role].product == Some(product) && (target, product) in s.members
  }

  /**
   * Somebody active is a super administrator other than by the target's assignments, or the target stays or was none.
   */
  ghost predicate LeavesSomebody(s: State, target: string, scope: Option<Product>, wanted: seq<Assignment>) {
    || !SuperAdmin(s, target) || InNext(s, target, scope, wanted, Assignment(target, "super_admin", None))
    || (target == "usr_local_admin" && target in s.users && s.users[target].isAdmin)
    || exists u :: u in s.users && u != target && s.users[u].active && SuperAdmin(s, u)
  }

  /** What a replacement request has to meet to be carried out. */
  ghost predicate MayReplace(s: State, action: Action)
    requires action.BeginReplace?
  {
    var (target, scope) := (action.target, action.requested);
    && Allowed(s, action.actor, action.actorProduct, "roles.assign")
    && (SuperAdmin(s, action.actor) || scope == Some(action.actorProduct))
    && (forall i :: 0 <= i < |action.wanted| ==>
          Assignable(s, action.actor, action.actorProduct, target, scope, action.wanted[i]))
    && target != "" && target in s.users && s.users[target].active
    && LeavesSomebody(s, target, scope, action.wanted)
    && forall a :: InNext(s, target, scope, action.wanted, a) ==> Fits(s, target, a)
  }

  lemma {:induction false} FirstErrorIsNone(
    s: State, auth: Auth, target: string, scope: Option<Product>, wanted: seq<Assignment>)
    ensures FirstError(s, auth, target, scope, wanted).None? <==>
            forall i :: 0 <= i < |wanted| ==> AssignmentError(s, auth, target, scope, wanted[i]).None?
    decreases |wanted|
  {
    hide AssignmentError;
    if wanted != [] {
      FirstErrorIsNone(s, auth, target, scope, wanted[1..]);
      if AssignmentError(s, auth, target, scope, wanted[0]).None?
          && forall i :: 0 <= i < |wanted[1..]| ==> AssignmentError(s, auth, target, scope, wanted[1..][i]).None? {
        forall i | 0 <= i < |wanted| ensures AssignmentError(s, auth, target, scope, wanted[i]).None? {
          if i > 0 { assert wanted[i] == wanted[1..][i - 1]; }
        }
      }
    }
  }

  lemma AssignableHasNoError(
    s: State, auth: Auth, actor: string, target: string, scope: Option<Product>, a: Assignment)
    requires actor in s.users && s.users[actor].active && target != ""
    requires auth == Auth(actor, auth.product, IsGlobal(s, actor), Granted(s, actor, auth.product))
    ensures AssignmentError(s, auth, target, scope, a).None? <==>
            Assignable(s, actor, auth.product, target, scope, a)
  {
    hide Granted;
    assert IsGlobal(s, actor) <==> SuperAdmin(s, actor);
  }

  lemma NextIsMerged(s: State, target: string, scope: Option<Product>, wanted: seq<Assignment>, a: Assignment)
    requires target != ""
    requires forall i :: 0 <= i < |wanted| ==> wanted[i].user in {"", target}
    ensures a in OutsideScope(Listed(s, target), scope) + Normalized(wanted, target)
            <==> InNext(s, target, scope, wanted, a)
  {
    if a in Normalized(wanted, target) {
      var raw :| raw in wanted && ForUser(raw, target) == a;
      assert raw == a || raw == Assignment("", a.role, a.product);
    }
    if a.user == target && Assignment("", a.role, a.product) in wanted {
      assert ForUser(Assignment("", a.role, a.product), target) == a;
    }
    if a.user == target && a in wanted {
      assert ForUser(a, target) == a;
    }
  }

  /**
   * A replacement request is carried out exactly if the administrator may assign roles and is in scope, every
   * assignment asked for is one the administrator may make, the target is active, somebody stays in charge, and the
   * store takes every assignment the target will have. Then the target has exactly those, and nobody else's change.
   */
  lemma ReplacementIsMadeExactly(m: Machine, action: Action)
    requires action.BeginReplace? && Enabled(m, action)
    ensures var (s, n) := (m.state, Driven(Apply(m, action), action.r, |action.wanted| + 3));
            && n.pending == m.pending
            && (if MayReplace(s, action) then
                  && n.state == s.(assignments := n.state.assignments)
                  && forall a :: a in n.state.assignments <==>
                       if a.user == action.target
                       then InNext(s, action.target, action.requested, action.wanted, a) else a in s.assignments
                else n.state == s)
  {
    hide Driven, Apply;
    ReplacementIsOneStep(m, action);
    var (s, actor, auth) :=
      (m.state, action.actor, Authorize(m.state, action.actor, action.actorProduct, "roles.assign"));
    assert auth.Ok? <==> Allowed(s, actor, action.actorProduct, "roles.assign") by { hide Granted; }
    if auth.Ok? {
      assert IsGlobal(s, actor) <==> SuperAdmin(s, actor);
      hide Granted, SuperAdmin, IsGlobal, Allowed, MayReplace, Replace, InNext;
      ReplaceIsMade(s, auth.value, action);
    } else {
      hide Replace;
    }
  }

  lemma ReplaceIsMade(s: State, auth: Auth, action: Action)
    requires action.BeginReplace? && Authorize(s, action.actor, action.actorProduct, "roles.assign") == Ok(auth)
    ensures Replace(s, auth, action.target, action.requested, action.wanted).Ok? <==> MayReplace(s, action)
    ensures Replace(s, auth, action.target, action.requested, action.wanted).Ok? ==>
              var t := Replace(s, auth, action.target, action.requested, action.wanted).value;
              && t == s.(assignments := t.assignments)
              && forall a :: a in t.assignments <==>
                   if a.user == action.target
                   then InNext(s, action.target, action.requested, action.wanted, a) else a in s.assignments
  {
    var (actor, target, scope, wanted) := (action.actor, action.target, action.requested, action.wanted);
    var merged := OutsideScope(Listed(s, target), scope) + Normalized(wanted, target);
    assert IsGlobal(s, actor) <==> SuperAdmin(s, actor);
    assert Allowed(s, actor, action.actorProduct, "roles.assign") by { hide Granted; }
    FirstErrorIsNone(s, auth, target, scope, wanted);
    if target != "" {
      forall i | 0 <= i < |wanted|
        ensures AssignmentError(s, auth, target, scope, wanted[i]).None? <==>
                Assignable(s, actor, auth.product, target, scope, wanted[i])
        ensures Assignable(s, actor, auth.product, target, scope, wanted[i]) ==> wanted[i].user in {"", target}
      {
        AssignableHasNoError(s, auth, actor, target, scope, wanted[i]);
      }
    }
    hide Granted, Held, IsGlobal, SuperAdmin, AssignmentError, Assignable, Listed, OutsideScope, Normalized, Allowed,
        RemovesLastSuperAdmin, LeavesSomebody, CanReplace, Fits, InNext, FirstError;
    if target != "" && forall i :: 0 <= i < |wanted| ==> Assignable(s, actor, auth.product, target, scope, wanted[i]) {
      forall a ensures a in merged <==> InNext(s, target, scope, wanted, a) {
        NextIsMerged(s, target, scope, wanted, a);
      }
      if target in s.users && s.users[target].active {
        WritesWhatFits(s, target, scope, wanted, merged);
      }
    }
  }

  lemma WritesWhatFits(
    s: State, target: string, scope: Option<Product>, wanted: seq<Assignment>, merged: set<Assignment>)
    requires target in s.users && s.users[target].active
    requires forall a :: a in merged <==> InNext(s, target, scope, wanted, a)
    ensures RemovesLastSuperAdmin(s, target, merged) <==> !LeavesSomebody(s, target, scope, wanted)
    ensures CanReplace(s, target, merged) <==> forall a :: InNext(s, target, scope, wanted, a) ==> Fits(s, target, a)
    ensures forall a :: a in Replaced(s, target, merged).assignments <==>
              if a.user == target then InNext(s, target, scope, wanted, a) else a in s.assignments
  {
    forall a | a in merged ensures a.user == target && (Storable(s, target, a) <==> Fits(s, target, a)) {
      assert InNext(s, target, scope, wanted, a);
    }
    assert forall u: string :: u in s.users && s.users[u].active ==>
        (EffectiveSuperAdmin(s, u, Stored(s, u)) <==> SuperAdmin(s, u)) by {
      forall u: string | u in s.users && s.users[u].active
        ensures EffectiveSuperAdmin(s, u, Stored(s, u)) <==> SuperAdmin(s, u)
      {
        ChargeIsSuperAdmin(s, u);
      }
    }
    NextInCharge(s, target, scope, wanted, merged);
    hide EffectiveSuperAdmin, SuperAdmin, InNext, Storable, Fits;
  }

  lemma ChargeIsSuperAdmin(s: State, u: string)
    requires u in s.users && s.users[u].active
    ensures EffectiveSuperAdmin(s, u, Stored(s, u)) <==> SuperAdmin(s, u)
  {
    if a :| a in Stored(s, u) && a.role == SUPER_ADMIN && a.product.None? {
      assert a == Assignment(u, SUPER_ADMIN, None);
    }
    if SuperAdmin(s, u) && !LocalSuperAdmin(s, u) {
      assert Assignment(u, SUPER_ADMIN, None) in Stored(s, u);
    }
  }

  lemma NextInCharge(
    s: State, target: string, scope: Option<Product>, wanted: seq<Assignment>, merged: set<Assignment>)
    requires target in s.users && s.users[target].active
    requires forall a :: a in merged <==> InNext(s, target, scope, wanted, a)
    ensures EffectiveSuperAdmin(s, target, merged) <==>
            LocalSuperAdmin(s, target) || InNext(s, target, scope, wanted, Assignment(target, SUPER_ADMIN, None))
  {
    if a :| a in merged && a.role == SUPER_ADMIN && a.product.None? {
      assert InNext(s, target, scope, wanted, a) && a == Assignment(target, SUPER_ADMIN, None);
    }
  }

  // --- which error a refused request gets ------------------------------------------------------------------

  function ErrorOf<T>(result: Result<T>): Option<Error> {
    if result.Err? then Some(result.error) else None
  }

  /** An unknown user, an inactive one and one without the permission are told apart, in this order. */
  lemma AuthorisationDecided(s: State, user: string, product: Product, needed: string)
    ensures var (error, there) := (ErrorOf(Authorize(s, user, product, needed)), user in s.users);
            && (error == Some(UserNotFound) <==> !there)
            && (error == Some(UserIsDisabled) <==> there && !s.users[user].active)
            && (error == Some(PermissionDenied) <==> there && s.users[user].active && needed !in Held(s, user, product))
            && (error == None <==> Allowed(s, user, product, needed))
  {
    hide Granted;
  }

  /** Global assignments are for super administrators, and those of another product too. */
  lemma ScopeDecided(auth: Auth, requested: Option<Product>)
    ensures var error := ErrorOf(ResolveScope(auth, requested));
            && (error == Some(DelegationForbidden) <==> requested.None? && !auth.isGlobal)
            && (error == Some(ScopeMismatch) <==>
                requested.Some? && !auth.isGlobal && requested.value != auth.product)
            && (error == None <==> auth.isGlobal || requested == Some(auth.product))
            && (error == None ==> ResolveScope(auth, requested) == Ok(requested))
  {
  }

  /** Why an assignment may not be made: malformed, of an unknown role, out of scope, or beyond the administrator. */
  lemma AssignmentDecided(s: State, auth: Auth, target: string, scope: Option<Product>, a: Assignment)
    requires target != ""
    ensures var error := AssignmentError(s, auth, target, scope, a);
            var formed := a.user in {"", target} && a.role != "";
            var there := formed && a.role in s.roles;
            var fits := there && scope.Some? && a.product == scope;
            && (error == Some(InvalidRequest) <==> !formed)
            && (error == Some(RoleNotFound) <==> formed && !there)
            && (error == Some(ScopeMismatch) <==>
                  there && scope.Some? && (a.product != scope || (a.role != "super_admin"
                  && s.roles[a.role].product != scope)))
            && (error == Some(DelegationForbidden) <==>
                  || (there && scope.None? && (a.role != "super_admin" || a.product.Some?))
                  || (fits && a.role == "super_admin")
                  || (fits && s.roles[a.role].product == scope && !auth.isGlobal
                      && !(s.roles[a.role].permissions <= auth.permissions)))
            && (error.None? || error.value in {InvalidRequest, RoleNotFound, ScopeMismatch, DelegationForbidden})
  {
  }

  /** Why a new role is refused; built-in roles are nobody's to change. */
  lemma RoleChecksDecided(
    s: State, auth: Auth, code: string, product: Product, name: string, permissions: set<string>)
    ensures var error := ErrorOf(CreateAllowed(s, auth, code, product, name, permissions));
            var good := GoodRole(s, code, name, permissions);
            var scoped := good && code != "super_admin" && (auth.isGlobal || product == auth.product);
            && (error == Some(InvalidRequest) <==> !good)
            && (error == Some(ScopeMismatch) <==> good && !scoped)
            && (error == Some(DelegationForbidden) <==> scoped && !(permissions <= auth.permissions))
            && (error == None <==> scoped && permissions <= auth.permissions)
    ensures var error := ErrorOf(UpdateChecked(s, auth, code, name, permissions));
            var there := code in s.roles && !s.roles[code].builtIn;
            var scoped := there && (auth.isGlobal || s.roles[code].product == Some(auth.product));
            var good := scoped && GoodRole(s, code, name, permissions);
            && (error == Some(RoleNotFound) <==> code !in s.roles)
            && (error == Some(BuiltInImmutable) <==> code in s.roles && s.roles[code].builtIn)
            && (error == Some(ScopeMismatch) <==> there && !scoped)
            && (error == Some(InvalidRequest) <==> scoped && !good)
            && (error == Some(DelegationForbidden) <==> good && !(permissions <= auth.permissions))
            && (error == None <==> good && permissions <= auth.permissions)
  {
  }

  /** Why the store refuses a write. */
  lemma StoreDecided(s: State, code: string, product: Option<Product>, role: Role)
    ensures var there := code in s.roles;
            && ErrorOf(CreateRole(s, code, role)) == (if there then Some(InvalidRequest) else None)
            && ErrorOf(UpdateRole(s, code, product, role.name, role.permissions)) ==
               (if !there then Some(RoleNotFound) else if s.roles[code].builtIn then Some(BuiltInImmutable)
                else if s.roles[code].product != product then Some(ScopeMismatch) else None)
            && var error := ErrorOf(DeleteRole(s, code));
              && (error == Some(RoleNotFound) <==> !there)
              && (error == Some(BuiltInImmutable) <==> there && s.roles[code].builtIn)
              && (error == Some(RoleAssigned) <==>
                  there && !s.roles[code].builtIn && exists a :: a in s.assignments && a.role == code)
  {
  }
}
