/** Administrative roles: who holds which permission, and what an administrator may hand on. */
module AdminRbac {
  import opened Collections

  const SUPER_ADMIN := "super_admin"
  const LOCAL_ADMIN := "usr_local_admin"
  const MAX_TEXT := 128

  datatype Product = AutoLive | DouyinDesktop
  datatype User = User(active: bool, isAdmin: bool)

  /** Only the built-in super administrator role belongs to no product. */
  datatype Role = Role(product: Option<Product>, name: string, builtIn: bool, permissions: set<string>)
  datatype Assignment = Assignment(user: string, role: string, product: Option<Product>)

  /** `members` says which users belong to which product; `catalog` is the fixed list of permissions. */
  datatype State = State(
    users: map<string, User>, members: set<(string, Product)>, catalog: set<string>,
    roles: map<string, Role>, assignments: set<Assignment>)

  datatype Error =
    | InvalidRequest | UserNotFound | UserIsDisabled | PermissionDenied | PermissionUnknown | ScopeMismatch
    | DelegationForbidden | RoleNotFound | BuiltInImmutable | RoleAssigned | LastSuperAdmin

  datatype Result<+T> = Ok(value: T) | Err(error: Error)

  // --- what a user holds -----------------------------------------------------------------------------------

  /** The local administrator counts as a super administrator without a stored assignment. */
  predicate LocalSuperAdmin(s: State, user: string) {
    user == LOCAL_ADMIN && user in s.users && s.users[user].isAdmin && s.users[user].active
  }

  function Stored(s: State, user: string): set<Assignment> {
    set a | a in s.assignments && a.user == user
  }

  /** The assignments as they are listed, the local administrator's implicit one included. */
  function Listed(s: State, user: string): set<Assignment> {
    Stored(s, user) + if LocalSuperAdmin(s, user) then {Assignment(user, SUPER_ADMIN, None)} else {}
  }

  predicate AppliesTo(a: Assignment, product: Product) {
    a.product.None? || a.product == Some(product)
  }

  predicate IsGlobal(s: State, user: string) {
    Assignment(user, SUPER_ADMIN, None) in Listed(s, user)
  }

  function RolePermissions(s: State, code: string): set<string> {
    if code in s.roles then s.roles[code].permissions else {}
  }

  function Granted(s: State, user: string, product: Product): set<string> {
    (set a, x | a in Listed(s, user) && AppliesTo(a, product) && x in RolePermissions(s, a.role) :: x)
    + if IsGlobal(s, user) then s.catalog else {}
  }

  /** What an active user may do in a product. */
  function Held(s: State, user: string, product: Product): set<string> {
    if user in s.users && s.users[user].active then Granted(s, user, product) else {}
  }

  /** The authorisation read at the start of every administrative request. */
  datatype Auth = Auth(user: string, product: Product, isGlobal: bool, permissions: set<string>)

  function Authorize(s: State, user: string, product: Product, needed: string): Result<Auth> {
    if user !in s.users then Err(UserNotFound)
    else if !s.users[user].active then Err(UserIsDisabled)
    else
      var auth := Auth(user, product, IsGlobal(s, user), Granted(s, user, product));
      if needed in auth.permissions then Ok(auth) else Err(PermissionDenied)
  }

  // --- the loops over lists --------------------------------------------------------------------------------

  method PermissionsSubset(target: seq<string>, owned: seq<string>) returns (subset: bool)
    ensures subset <==> forall p :: p in target ==> p in owned
  {
    if |target| == 0 {
      return true;
    }
    var ownedSet: set<string> := {};
    for i := 0 to |owned|
      invariant forall p :: p in ownedSet <==> p in owned[..i]
    {
      assert owned[..i + 1] == owned[..i] + [owned[i]];
      ownedSet := ownedSet + {owned[i]};
    }
    assert owned[..|owned|] == owned;
    for i := 0 to |target|
      invariant forall j :: 0 <= j < i ==> target[j] in owned
    {
      if target[i] !in ownedSet {
        return false;
      }
    }
    return true;
  }

  /** Which product's assignments a replacement may touch; `None` stands for the global ones. */
  function ResolveScope(auth: Auth, requested: Option<Product>): Result<Option<Product>> {
    if requested.None? then if auth.isGlobal then Ok(None) else Err(DelegationForbidden)
    else if !auth.isGlobal && requested.value != auth.product then Err(ScopeMismatch)
    else Ok(requested)
  }

  function ForUser(a: Assignment, target: string): Assignment {
    if a.user == "" then a.(user := target) else a
  }

  /** Why one requested assignment may not be made. */
  function AssignmentError(
    s: State, auth: Auth, target: string, scope: Option<Product>, raw: Assignment): Option<Error> {
    var a := ForUser(raw, target);
    if a.user != target || a.role == "" then Some(InvalidRequest)
    else if a.role !in s.roles then Some(RoleNotFound)
    else if scope.None? then
      if a.role != SUPER_ADMIN || a.product.Some? then Some(DelegationForbidden) else None
    else if a.product != scope then Some(ScopeMismatch)
    else if a.role == SUPER_ADMIN then Some(DelegationForbidden)
    else if s.roles[a.role].product != scope then Some(ScopeMismatch)
    else if !auth.isGlobal && !(s.roles[a.role].permissions <= auth.permissions) then Some(DelegationForbidden)
    else None
  }

  function FirstError(
    s: State, auth: Auth, target: string, scope: Option<Product>, wanted: seq<Assignment>): Option<Error> {
    if wanted == [] then None
    else if AssignmentError(s, auth, target, scope, wanted[0]).Some?
        then AssignmentError(s, auth, target, scope, wanted[0])
    else FirstError(s, auth, target, scope, wanted[1..])
  }

  function Normalized(wanted: seq<Assignment>, target: string): set<Assignment> {
    set a | a in wanted :: ForUser(a, target)
  }

  method NormalizeDesiredAssignments(
    s: State, auth: Auth, target: string, scope: Option<Product>, wanted: seq<Assignment>)
    returns (result: Result<set<Assignment>>)
    ensures result == match FirstError(s, auth, target, scope, wanted)
                      case Some(error) => Err(error)
                      case None => Ok(Normalized(wanted, target))
    ensures result.Ok? <==> forall i :: 0 <= i < |wanted| ==> AssignmentError(s, auth, target, scope, wanted[i]).None?
  {
    var normalized: set<Assignment> := {};
    for i := 0 to |wanted|
      invariant FirstError(s, auth, target, scope, wanted) == FirstError(s, auth, target, scope, wanted[i..])
      invariant forall j :: 0 <= j < i ==> AssignmentError(s, auth, target, scope, wanted[j]).None?
      invariant normalized == Normalized(wanted[..i], target)
    {
      var error := AssignmentError(s, auth, target, scope, wanted[i]);
      if error.Some? {
        return Err(error.value);
      }
      assert wanted[i..][1..] == wanted[i + 1..];
      assert wanted[..i + 1] == wanted[..i] + [wanted[i]];
      normalized := normalized + {ForUser(wanted[i], target)};
    }
    assert wanted[..|wanted|] == wanted;
    return Ok(normalized);
  }

  /** What a replacement leaves alone. */
  function OutsideScope(assignments: set<Assignment>, scope: Option<Product>): set<Assignment> {
    set a | a in assignments && a.product != scope
  }

  method MergeScopedAssignments(
    existing: seq<Assignment>, desired: seq<Assignment>, scope: Option<Product>) returns (merged: seq<Assignment>)
    ensures (set a | a in merged) == OutsideScope((set a | a in existing), scope) + (set a | a in desired)
    ensures forall i :: 0 <= i < |desired| ==> |merged| >= |desired| && merged[|merged| - |desired| + i] == desired[i]
  {
    merged := [];
    for i := 0 to |existing|
      invariant forall a :: a in merged <==> a in existing[..i] && a.product != scope
    {
      assert existing[..i + 1] == existing[..i] + [existing[i]];
      if existing[i].product != scope {
        merged := merged + [existing[i]];
      }
    }
    assert existing[..|existing|] == existing;
    merged := merged + desired;
  }

  // --- the store's transactions ----------------------------------------------------------------------------

  function CreateRole(s: State, code: string, role: Role): Result<State> {
    if code in s.roles then Err(InvalidRequest) else Ok(s.(roles := s.roles[code := role]))
  }

  function UpdateRole(
    s: State, code: string, product: Option<Product>, name: string, permissions: set<string>): Result<State> {
    if code !in s.roles then Err(RoleNotFound)
    else if s.roles[code].builtIn then Err(BuiltInImmutable)
    else if s.roles[code].product != product then Err(ScopeMismatch)
    else Ok(s.(roles := s.roles[code := s.roles[code].(name := name, permissions := permissions)]))
  }

  function DeleteRole(s: State, code: string): Result<State> {
    if code !in s.roles then Err(RoleNotFound)
    else if s.roles[code].builtIn then Err(BuiltInImmutable)
    else if exists a :: a in s.assignments && a.role == code then Err(RoleAssigned)
    else Ok(s.(roles := s.roles - {code}))
  }

  predicate Storable(s: State, target: string, a: Assignment) {
    && a.user == target && a.role in s.roles
    && if a.role == SUPER_ADMIN then a.product.None?
       else a.product.Some? && s.roles[a.role].product == a.product && (target, a.product.value) in s.members
  }

  /** Replaces all stored assignments of the user, provided each new one is valid by now. */
  predicate CanReplace(s: State, target: string, assignments: set<Assignment>) {
    && target in s.users && s.users[target].active
    && forall a :: a in assignments ==> Storable(s, target, a)
  }

  function Replaced(s: State, target: string, assignments: set<Assignment>): State {
    s.(assignments := (s.assignments - Stored(s, target)) + assignments)
  }

  // --- one replacement at a time ---------------------------------------------------------------------------

  predicate EffectiveSuperAdmin(s: State, user: string, assignments: set<Assignment>) {
    LocalSuperAdmin(s, user) || exists a :: a in assignments && a.role == SUPER_ADMIN && a.product.None?
  }

  /** The replacement would leave nobody in charge. */
  predicate RemovesLastSuperAdmin(s: State, target: string, next: set<Assignment>) {
    && EffectiveSuperAdmin(s, target, Stored(s, target)) && !EffectiveSuperAdmin(s, target, next)
    && forall u :: u in s.users && u != target && s.users[u].active ==> !EffectiveSuperAdmin(s, u, Stored(s, u))
  }

  /** A whole replacement request with nothing in between. */
  function Replace(
    s: State, auth: Auth, target: string, requested: Option<Product>, wanted: seq<Assignment>): Result<State> {
    if target == "" then Err(UserNotFound)
    else
      match ResolveScope(auth, requested)
      case Err(error) => Err(error)
      case Ok(scope) =>
        match FirstError(s, auth, target, scope, wanted)
        case Some(error) => Err(error)
        case None =>
          var merged := OutsideScope(Listed(s, target), scope) + Normalized(wanted, target);
          if target !in s.users then Err(UserNotFound)
          else if !s.users[target].active then Err(UserIsDisabled)
          else if RemovesLastSuperAdmin(s, target, merged) then Err(LastSuperAdmin)
          else if !CanReplace(s, target, merged) then Err(ScopeMismatch)
          else Ok(Replaced(s, target, merged))
  }

  lemma {:induction false} DesiredAreInScope(
    s: State, auth: Auth, target: string, scope: Option<Product>, wanted: seq<Assignment>)
    requires FirstError(s, auth, target, scope, wanted).None?
    ensures forall a :: a in Normalized(wanted, target) ==> a.user == target && a.product == scope
    decreases |wanted|
  {
    if wanted != [] {
      DesiredAreInScope(s, auth, target, scope, wanted[1..]);
      assert wanted == [wanted[0]] + wanted[1..];
      assert Normalized(wanted, target) == {ForUser(wanted[0], target)} + Normalized(wanted[1..], target);
    }
  }

  /**
   * A replacement changes nothing outside its scope: other users keep their assignments, the target's listed
   * assignments outside the scope stay, and inside the scope exactly the requested ones remain.
   */
  lemma ReplacementStaysInScope(
    s: State, auth: Auth, target: string, requested: Option<Product>, wanted: seq<Assignment>)
    requires Replace(s, auth, target, requested, wanted).Ok?
    ensures var t, scope := Replace(s, auth, target, requested, wanted).value, ResolveScope(auth, requested).value;
            && t == s.(assignments := t.assignments)
            && (forall a: Assignment :: a.user != target ==> (a in t.assignments <==> a in s.assignments))
            && OutsideScope(Listed(t, target), scope) == OutsideScope(Listed(s, target), scope)
            && (set a | a in Stored(t, target) && a.product == scope) == Normalized(wanted, target)
  {
    DesiredAreInScope(s, auth, target, ResolveScope(auth, requested).value, wanted);
  }

  /**
   * In the stored table one assignment can appear outside the scope: the local administrator's implicit one is written
   * down by a product-scoped replacement. That is the only case.
   */
  lemma StoredOutsideScopeStays(
    s: State, auth: Auth, target: string, requested: Option<Product>, wanted: seq<Assignment>)
    requires Replace(s, auth, target, requested, wanted).Ok?
    ensures var t, scope := Replace(s, auth, target, requested, wanted).value, ResolveScope(auth, requested).value;
            OutsideScope(Stored(t, target), scope) == OutsideScope(Stored(s, target), scope)
            <==> scope.None? || !LocalSuperAdmin(s, target) || Assignment(target, SUPER_ADMIN, None) in s.assignments
  {
    var t, scope := Replace(s, auth, target, requested, wanted).value, ResolveScope(auth, requested).value;
    DesiredAreInScope(s, auth, target, scope, wanted);
    var implicit := Assignment(target, SUPER_ADMIN, None);
    assert scope.Some? && LocalSuperAdmin(s, target) ==> implicit in OutsideScope(Stored(t, target), scope);
    assert implicit !in s.assignments ==> implicit !in OutsideScope(Stored(s, target), scope);
  }

  ghost predicate SomebodyInCharge(s: State) {
    exists u :: u in s.users && s.users[u].active && EffectiveSuperAdmin(s, u, Stored(s, u))
  }

  /** Replacements made one at a time never remove the last super administrator. */
  lemma SomebodyStaysInCharge(s: State, auth: Auth, target: string, requested: Option<Product>, wanted: seq<Assignment>)
    requires Replace(s, auth, target, requested, wanted).Ok? && SomebodyInCharge(s)
    ensures SomebodyInCharge(Replace(s, auth, target, requested, wanted).value)
  {
    var t, scope := Replace(s, auth, target, requested, wanted).value, ResolveScope(auth, requested).value;
    var next := OutsideScope(Listed(s, target), scope) + Normalized(wanted, target);
    DesiredAreInScope(s, auth, target, scope, wanted);
    assert Stored(t, target) == next;
    assert forall u :: u != target ==> Stored(t, u) == Stored(s, u);
    if EffectiveSuperAdmin(s, target, Stored(s, target)) {
      if EffectiveSuperAdmin(s, target, next) {
        assert EffectiveSuperAdmin(t, target, Stored(t, target));
      } else {
        var u :| u in s.users && u != target && s.users[u].active && EffectiveSuperAdmin(s, u, Stored(s, u));
        assert EffectiveSuperAdmin(t, u, Stored(t, u));
      }
    } else {
      var u :| u in s.users && s.users[u].active && EffectiveSuperAdmin(s, u, Stored(s, u));
      assert EffectiveSuperAdmin(t, u, Stored(t, u));
    }
  }
}
