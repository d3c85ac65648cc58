/** Role changes with the checks and the write of every request in separate transactions that interleave freely. */
module Delegation {
  import opened Collections
  import opened AdminRbac

  /** A request between its transactions. */
  datatype Pending =
    | Creating(code: string, role: Role)
    | UpdateAllowed(auth: Auth, code: string, name: string, permissions: set<string>)
    | Updating(code: string, product: Option<Product>, name: string, permissions: set<string>)
    | Checking(auth: Auth, target: string, scope: Option<Product>, wanted: seq<Assignment>, accepted: set<Assignment>)
    | Replacing(target: string, scope: Option<Product>, accepted: set<Assignment>, existing: set<Assignment>,
      guarded: bool)

  datatype Machine = Machine(state: State, pending: map<nat, Pending>)

  datatype Action =
    | BeginCreate(r: nat, actor: string, actorProduct: Product, code: string, product: Product, name: string,
      permissions: set<string>)
    | BeginUpdate(r: nat, actor: string, actorProduct: Product, code: string, name: string, permissions: set<string>)
    | CheckUpdate(r: nat)
    | BeginReplace(r: nat, actor: string, actorProduct: Product, target: string, requested: Option<Product>,
      wanted: seq<Assignment>)
    | CheckNext(r: nat)
    | ListExisting(r: nat)
    | GuardLastSuperAdmin(r: nat)
    | Commit(r: nat)
    | Abandon(r: nat)
    | Delete(code: string)

  // --- the checks of each request --------------------------------------------------------------------------

  predicate ValidRole(s: State, code: string, name: string, permissions: set<string>) {
    1 <= |code| <= MAX_TEXT && 1 <= |name| <= MAX_TEXT && permissions <= s.catalog
  }

  /** Creating: the role must be of the administrator's product and within the administrator's own permissions. */
  function CreateAllowed(
    s: State, auth: Auth, code: string, product: Product, name: string, permissions: set<string>): Result<Role> {
    if !ValidRole(s, code, name, permissions) then Err(InvalidRequest)
    else if code == SUPER_ADMIN then Err(ScopeMismatch)
    else if !auth.isGlobal && product != auth.product then Err(ScopeMismatch)
    else if !(permissions <= auth.permissions) then Err(DelegationForbidden)
    else Ok(Role(Some(product), name, false, permissions))
  }

  function UpdateChecked(
    s: State, auth: Auth, code: string, name: string, permissions: set<string>): Result<Option<Product>> {
    if code !in s.roles then Err(RoleNotFound)
    else if s.roles[code].builtIn then Err(BuiltInImmutable)
    else if !auth.isGlobal && s.roles[code].product != Some(auth.product) then Err(ScopeMismatch)
    else if !ValidRole(s, code, name, permissions) then Err(InvalidRequest)
    else if !(permissions <= auth.permissions) then Err(DelegationForbidden)
    else Ok(s.roles[code].product)
  }

  predicate Writable(x: Pending) {
    x.Creating? || x.Updating? || (x.Replacing? && x.guarded)
  }

  predicate Enabled(m: Machine, action: Action) {
    match action
    case BeginCreate(r, _, _, _, _, _, _) => r !in m.pending
    case BeginUpdate(r, _, _, _, _, _) => r !in m.pending
    case CheckUpdate(r) => r in m.pending && m.pending[r].UpdateAllowed?
    case BeginReplace(r, _, _, _, _, _) => r !in m.pending
    case CheckNext(r) => r in m.pending && m.pending[r].Checking? && m.pending[r].wanted != []
    case ListExisting(r) => r in m.pending && m.pending[r].Checking? && m.pending[r].wanted == []
    case GuardLastSuperAdmin(r) => r in m.pending && m.pending[r].Replacing? && !m.pending[r].guarded
    case Commit(r) => r in m.pending && Writable(m.pending[r])
    case Abandon(r) => r in m.pending
    case Delete(_) => true
  }

  function Continue(m: Machine, r: nat, step: Result<Pending>): Machine {
    if step.Ok? then m.(pending := m.pending[r := step.value]) else m.(pending := m.pending - {r})
  }

  function Finish(m: Machine, r: nat, step: Result<State>): Machine {
    Machine(if step.Ok? then step.value else m.state, m.pending - {r})
  }

  function BeginCreateStep(
    s: State, actor: string, actorProduct: Product, code: string, product: Product, name: string,
    permissions: set<string>)
    : Result<Pending> {
    match Authorize(s, actor, actorProduct, "roles.manage")
    case Err(error) => Err(error)
    case Ok(auth) =>
      match CreateAllowed(s, auth, code, product, name, permissions)
      case Err(error) => Err(error)
      case Ok(role) => Ok(Creating(code, role))
  }

  function BeginReplaceStep(
    s: State, actor: string, actorProduct: Product, target: string, requested: Option<Product>, wanted: seq<Assignment>)
    : Result<Pending> {
    match Authorize(s, actor, actorProduct, "roles.assign")
    case Err(error) => Err(error)
    case Ok(auth) =>
      match ResolveScope(auth, requested)
      case Err(error) => Err(error)
      case Ok(scope) => if target == "" then Err(UserNotFound) else Ok(Checking(auth, target, scope, wanted, {}))
  }

  function CheckNextStep(s: State, x: Pending): Result<Pending>
    requires x.Checking? && x.wanted != []
  {
    match AssignmentError(s, x.auth, x.target, x.scope, x.wanted[0])
    case Some(error) => Err(error)
    case None => Ok(x.(wanted := x.wanted[1..], accepted := x.accepted + {ForUser(x.wanted[0], x.target)}))
  }

  function GuardStep(s: State, x: Pending): Result<Pending>
    requires x.Replacing?
  {
    if x.target !in s.users then Err(UserNotFound)
    else if !s.users[x.target].active then Err(UserIsDisabled)
    else if RemovesLastSuperAdmin(s, x.target, OutsideScope(x.existing, x.scope) + x.accepted) then Err(LastSuperAdmin)
    else Ok(x.(guarded := true))
  }

  function Write(s: State, x: Pending): Result<State>
    requires Writable(x)
  {
    match x
    case Creating(code, role) => CreateRole(s, code, role)
    case Updating(code, product, name, permissions) => UpdateRole(s, code, product, name, permissions)
    case Replacing(target, scope, accepted, existing, _) =>
      var merged := OutsideScope(existing, scope) + accepted;
      if CanReplace(s, target, merged) then Ok(Replaced(s, target, merged)) else Err(ScopeMismatch)
  }

  function Apply(m: Machine, action: Action): Machine
    requires Enabled(m, action)
  {
    var s := m.state;
    match action
    case BeginCreate(r, actor, actorProduct, code, product, name, permissions) =>
      Continue(m, r, BeginCreateStep(s, actor, actorProduct, code, product, name, permissions))
    case BeginUpdate(r, actor, actorProduct, code, name, permissions) =>
      Continue(m, r, match Authorize(s, actor, actorProduct, "roles.manage")
                     case Err(error) => Err(error)
                     case Ok(auth) => Ok(UpdateAllowed(auth, code, name, permissions)))
    case CheckUpdate(r) =>
      var x := m.pending[r];
      Continue(m, r, match UpdateChecked(s, x.auth, x.code, x.name, x.permissions)
                     case Err(error) => Err(error)
                     case Ok(product) => Ok(Updating(x.code, product, x.name, x.permissions)))
    case BeginReplace(r, actor, actorProduct, target, requested, wanted) =>
      Continue(m, r, BeginReplaceStep(s, actor, actorProduct, target, requested, wanted))
    case CheckNext(r) => Continue(m, r, CheckNextStep(s, m.pending[r]))
    case ListExisting(r) =>
      var x := m.pending[r];
      Continue(m, r, if x.target in s.users
                     then Ok(Replacing(x.target, x.scope, x.accepted, Listed(s, x.target), false))
                         else Err(UserNotFound))
    case GuardLastSuperAdmin(r) => Continue(m, r, GuardStep(s, m.pending[r]))
    case Commit(r) => Finish(m, r, Write(s, m.pending[r]))
    case Abandon(r) => m.(pending := m.pending - {r})
    case Delete(code) => m.(state := if DeleteRole(s, code).Ok? then DeleteRole(s, code).value else s)
  }

  ghost predicate Possible(m: Machine, actions: seq<Action>)
    decreases |actions|
  {
    actions == [] || (Enabled(m, actions[0]) && Possible(Apply(m, actions[0]), actions[1..]))
  }

  ghost function Run(m: Machine, actions: seq<Action>): Machine
    requires Possible(m, actions)
    decreases |actions|
  {
    if actions == [] then m else Run(Apply(m, actions[0]), actions[1..])
  }

  // --- closure ---------------------------------------------------------------------------------------------

  /** For each product, permissions that nobody should come to exceed. */
  type Bounds = Product -> set<string>

  /** Assignments name existing roles of their product; only the built-in role is global, and it holds everything. */
  ghost predicate WellFormed(s: State) {
    && (forall a :: a in s.assignments ==>
          && a.role in s.roles && s.roles[a.role].product == a.product
          && (a.product.None? <==> a.role == SUPER_ADMIN))
    && (forall code :: code in s.roles ==>
        && (code == SUPER_ADMIN <==> s.roles[code].builtIn) && (code == SUPER_ADMIN <==> s.roles[code].product.None?)
        && s.roles[code].permissions <= s.catalog)
    && SUPER_ADMIN in s.roles && s.roles[SUPER_ADMIN].permissions == s.catalog
  }

  /** No active user holds more than the bound in any product. */
  ghost predicate Within(s: State, bounds: Bounds) {
    forall u, p :: Held(s, u, p) <= bounds(p)
  }

  /** The role, if it exists, hands out no more than the bound of its product. */
  ghost predicate Good(s: State, code: string, product: Option<Product>, bounds: Bounds) {
    code in s.roles && product.Some? && s.roles[code].product == product ==>
        s.roles[code].permissions <= bounds(product.value)
  }

  /** A global assignment is only possible where everything is within the bounds anyway. */
  ghost predicate Harmless(s: State, a: Assignment, bounds: Bounds) {
    && Good(s, a.role, a.product, bounds)
    && (a.product.None? ==> forall p :: s.catalog <= bounds(p))
  }

  /** What a super administrator may do is within the bounds in every product. */
  ghost predicate AuthWithin(s: State, auth: Auth, bounds: Bounds) {
    auth.permissions <= bounds(auth.product) && (auth.isGlobal ==> forall p :: s.catalog <= bounds(p))
  }

  ghost predicate PendingWithin(s: State, x: Pending, bounds: Bounds) {
    match x
    case Creating(code, role) =>
      && code != SUPER_ADMIN && !role.builtIn && role.product.Some?
      && role.permissions <= bounds(role.product.value) && role.permissions <= s.catalog
    case UpdateAllowed(auth, _, _, _) => AuthWithin(s, auth, bounds)
    case Updating(_, product, _, permissions) =>
      product.Some? && permissions <= bounds(product.value) && permissions <= s.catalog
    case Checking(auth, target, scope, _, accepted) =>
      && AuthWithin(s, auth, bounds) && (!auth.isGlobal ==> scope == Some(auth.product))
      && forall a :: a in accepted ==> Harmless(s, a, bounds)
    case Replacing(target, _, accepted, existing, _) =>
      && (forall a :: a in accepted ==> Harmless(s, a, bounds))
      && (target in s.users && s.users[target].active ==> forall a :: a in existing ==> Harmless(s, a, bounds))
  }

  ghost predicate Closed(m: Machine, bounds: Bounds) {
    && WellFormed(m.state) && Within(m.state, bounds)
    && forall r :: r in m.pending ==> PendingWithin(m.state, m.pending[r], bounds)
  }

  /** What an active user's assignments hand out is within the bounds. */
  lemma AssignedIsHarmless(s: State, a: Assignment, bounds: Bounds)
    requires WellFormed(s) && Within(s, bounds)
    requires a in Listed(s, a.user) && a.user in s.users && s.users[a.user].active
    ensures Harmless(s, a, bounds)
  {
    if a.product.Some? {
      var p := a.product.value;
      if a.role in s.roles && s.roles[a.role].product == a.product {
        forall x | x in s.roles[a.role].permissions ensures x in bounds(p) {
          assert a in Listed(s, a.user) && AppliesTo(a, p) && x in RolePermissions(s, a.role);
          assert x in Held(s, a.user, p);
        }
      }
    } else {
      forall p ensures s.catalog <= bounds(p) {
        assert IsGlobal(s, a.user);
        assert Held(s, a.user, p) <= bounds(p);
      }
    }
  }

  /** Conversely, harmless assignments keep a user within the bounds. */
  lemma HarmlessIsWithin(s: State, u: string, p: Product, bounds: Bounds)
    requires WellFormed(s)
    requires forall a :: a in Listed(s, u) ==> Harmless(s, a, bounds)
    ensures Held(s, u, p) <= bounds(p)
  {
    forall x | x in Held(s, u, p) ensures x in bounds(p) {
      if !(IsGlobal(s, u) && x in s.catalog) {
        var a :| a in Listed(s, u) && AppliesTo(a, p) && x in RolePermissions(s, a.role);
        assert Harmless(s, a, bounds);
      } else {
        assert Harmless(s, Assignment(u, SUPER_ADMIN, None), bounds);
      }
    }
  }

  // --- what a write does -----------------------------------------------------------------------------------

  /** Writing a role within the bounds of its product turns no harmless assignment into a harmful one. */
  lemma RoleWriteKeepsHarmless(s: State, code: string, role: Role, a: Assignment, bounds: Bounds)
    requires Harmless(s, a, bounds)
    requires role.product.Some? && role.permissions <= bounds(role.product.value)
    ensures Harmless(s.(roles := s.roles[code := role]), a, bounds)
  {
  }

  lemma RoleWriteKeepsWithin(s: State, t: State, bounds: Bounds)
    requires WellFormed(s) && WellFormed(t) && Within(s, bounds)
    requires t.users == s.users && t.assignments == s.assignments && t.catalog == s.catalog
    requires forall a :: Harmless(s, a, bounds) ==> Harmless(t, a, bounds)
    ensures Within(t, bounds)
  {
    forall u, p ensures Held(t, u, p) <= bounds(p) {
      if u in t.users && t.users[u].active {
        assert Listed(t, u) == Listed(s, u);
        forall a | a in Listed(t, u) ensures Harmless(t, a, bounds) {
          AssignedIsHarmless(s, a, bounds);
        }
        HarmlessIsWithin(t, u, p, bounds);
      }
    }
  }

  lemma PendingStaysWithin(s: State, t: State, x: Pending, bounds: Bounds)
    requires PendingWithin(s, x, bounds) && t.users == s.users && t.catalog == s.catalog
    requires forall a :: Harmless(s, a, bounds) ==> Harmless(t, a, bounds)
    ensures PendingWithin(t, x, bounds)
  {
  }

  lemma ReplaceKeepsWithin(s: State, target: string, merged: set<Assignment>, bounds: Bounds)
    requires WellFormed(s) && Within(s, bounds) && CanReplace(s, target, merged)
    requires forall a :: a in merged ==> Harmless(s, a, bounds)
    ensures WellFormed(Replaced(s, target, merged)) && Within(Replaced(s, target, merged), bounds)
  {
    var t := Replaced(s, target, merged);
    forall u, p ensures Held(t, u, p) <= bounds(p) {
      if u in t.users && t.users[u].active {
        forall a | a in Listed(t, u) ensures Harmless(t, a, bounds) {
          if a !in merged {
            assert a in Listed(s, u);
            AssignedIsHarmless(s, a, bounds);
          }
        }
        HarmlessIsWithin(t, u, p, bounds);
      }
    }
  }

  lemma CommitKeeps(m: Machine, r: nat, bounds: Bounds)
    requires Closed(m, bounds) && Enabled(m, Commit(r))
    ensures Closed(Apply(m, Commit(r)), bounds)
  {
    var s, x := m.state, m.pending[r];
    assert PendingWithin(s, x, bounds);
    var written := Write(s, x);
    if written.Ok? {
      var t := written.value;
      WriteKeeps(s, x, bounds);
      hide Write, WellFormed, Within;
      forall q | q in m.pending - {r} ensures PendingWithin(t, m.pending[q], bounds) {
        PendingStaysWithin(s, t, m.pending[q], bounds);
      }
    }
  }

  lemma WriteKeeps(s: State, x: Pending, bounds: Bounds)
    requires WellFormed(s) && Within(s, bounds) && PendingWithin(s, x, bounds)
    requires Writable(x) && Write(s, x).Ok?
    ensures var t := Write(s, x).value;
            && WellFormed(t) && Within(t, bounds) && t.users == s.users && t.catalog == s.catalog
            && forall a :: Harmless(s, a, bounds) ==> Harmless(t, a, bounds)
  {
    var t := Write(s, x).value;
    match x
    case Creating(code, role) =>
      forall a | Harmless(s, a, bounds) ensures Harmless(t, a, bounds) {
        RoleWriteKeepsHarmless(s, code, role, a, bounds);
      }
      RoleWriteKeepsWithin(s, t, bounds);
    case Updating(code, product, name, permissions) =>
      forall a | Harmless(s, a, bounds) ensures Harmless(t, a, bounds) {
        RoleWriteKeepsHarmless(s, code, t.roles[code], a, bounds);
      }
      RoleWriteKeepsWithin(s, t, bounds);
    case Replacing(target, scope, accepted, existing, _) =>
      ReplaceKeepsWithin(s, target, OutsideScope(existing, scope) + accepted, bounds);
  }

  // --- runs ------------------------------------------------------------------------------------------------

  lemma AuthorizedIsWithin(s: State, actor: string, product: Product, needed: string, bounds: Bounds)
    requires Within(s, bounds) && Authorize(s, actor, product, needed).Ok?
    ensures var auth := Authorize(s, actor, product, needed).value;
            auth.product == product && AuthWithin(s, auth, bounds)
  {
    assert Held(s, actor, product) <= bounds(product);
    if IsGlobal(s, actor) {
      forall p ensures s.catalog <= bounds(p) {
        assert Held(s, actor, p) <= bounds(p);
      }
    }
  }

  lemma DeleteKeeps(m: Machine, code: string, bounds: Bounds)
    requires Closed(m, bounds)
    ensures Closed(Apply(m, Delete(code)), bounds)
  {
    var s := m.state;
    if DeleteRole(s, code).Ok? {
      var t := DeleteRole(s, code).value;
      RoleWriteKeepsWithin(s, t, bounds);
      forall r | r in m.pending ensures PendingWithin(t, m.pending[r], bounds) {
        PendingStaysWithin(s, t, m.pending[r], bounds);
      }
    }
  }

  lemma ContinueKeeps(m: Machine, r: nat, step: Result<Pending>, bounds: Bounds)
    requires Closed(m, bounds)
    requires step.Ok? ==> PendingWithin(m.state, step.value, bounds)
    ensures Closed(Continue(m, r, step), bounds)
  {
  }

  lemma ApplyKeeps(m: Machine, action: Action, bounds: Bounds)
    requires Closed(m, bounds) && Enabled(m, action)
    ensures Closed(Apply(m, action), bounds)
  {
    var s := m.state;
    hide Within, Held, Granted, Write;
    match action
    case BeginCreate(r, actor, actorProduct, code, product, name, permissions) =>
      var step := BeginCreateStep(s, actor, actorProduct, code, product, name, permissions);
      if step.Ok? { AuthorizedIsWithin(s, actor, actorProduct, "roles.manage", bounds); }
      ContinueKeeps(m, r, step, bounds);
    case BeginUpdate(r, actor, actorProduct, code, name, permissions) =>
      if Authorize(s, actor, actorProduct, "roles.manage").Ok? {
        AuthorizedIsWithin(s, actor, actorProduct, "roles.manage", bounds);
      }
    case CheckUpdate(r) => assert PendingWithin(s, m.pending[r], bounds);
    case BeginReplace(r, actor, actorProduct, target, requested, wanted) =>
      var step := BeginReplaceStep(s, actor, actorProduct, target, requested, wanted);
      if step.Ok? { AuthorizedIsWithin(s, actor, actorProduct, "roles.assign", bounds); }
      ContinueKeeps(m, r, step, bounds);
    case CheckNext(r) =>
      assert PendingWithin(s, m.pending[r], bounds);
      ContinueKeeps(m, r, CheckNextStep(s, m.pending[r]), bounds);
    case ListExisting(r) => ListingKeeps(m, r, bounds);
    case GuardLastSuperAdmin(r) =>
      assert PendingWithin(s, m.pending[r], bounds);
      ContinueKeeps(m, r, GuardStep(s, m.pending[r]), bounds);
    case Commit(r) => CommitKeeps(m, r, bounds);
    case Abandon(r) =>
    case Delete(code) => DeleteKeeps(m, code, bounds);
  }

  lemma ListingKeeps(m: Machine, r: nat, bounds: Bounds)
    requires Closed(m, bounds) && Enabled(m, ListExisting(r))
    ensures Closed(Apply(m, ListExisting(r)), bounds)
  {
    var s, x := m.state, m.pending[r];
    assert PendingWithin(s, x, bounds);
    if x.target in s.users && s.users[x.target].active {
      forall a | a in Listed(s, x.target) ensures Harmless(s, a, bounds) {
        AssignedIsHarmless(s, a, bounds);
      }
    }
    hide Within, WellFormed;
  }

  lemma {:induction false} RunKeeps(m: Machine, actions: seq<Action>, bounds: Bounds)
    requires Closed(m, bounds) && Possible(m, actions)
    ensures Closed(Run(m, actions), bounds)
    decreases |actions|
  {
    hide Closed, Apply, Enabled;
    if actions != [] {
      ApplyKeeps(m, actions[0], bounds);
      RunKeeps(Apply(m, actions[0]), actions[1..], bounds);
    }
  }

  /** The permissions active users hold in a product. */
  ghost predicate HeldBySomebody(s: State, product: Product, permission: string) {
    exists u :: u in s.users && permission in Held(s, u, product)
  }

  function AllHeld(s: State): Bounds {
    (p: Product) => set u, x | u in s.users && x in Held(s, u, p) :: x
  }

  /**
   * Delegation closure. However role creations, updates, deletions and replacements interleave, nobody ever holds a
   * permission in a product that nobody held there at the start.
   */
  lemma NobodyGainsMore(s: State, actions: seq<Action>, user: string, product: Product, permission: string)
    requires WellFormed(s) && Possible(Machine(s, map[]), actions)
    requires permission in Held(Run(Machine(s, map[]), actions).state, user, product)
    ensures HeldBySomebody(s, product, permission)
  {
    var bounds := AllHeld(s);
    forall u, p ensures Held(s, u, p) <= bounds(p) {
    }
    RunKeeps(Machine(s, map[]), actions, bounds);
    hide Run, Possible, Held;
    assert permission in bounds(product);
  }
}
