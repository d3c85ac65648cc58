/** Activation codes, the device binding table and the device lifecycle, as functions of the tables. */
module Activation {
  import opened Collections
  import opened Tables
  import opened LeaseTable
  import Ordering

  const MAX_CODE_DEVICES := 100

  // --- granting and withdrawing codes --------------------------------------------------------------------

  ghost predicate HasProduct(memberships: map<string, Membership>, userId: string, product: Product) {
    || (exists m :: m in memberships && memberships[m] == Membership(userId, product, true))
    || (product == AutoLive && forall m :: m in memberships ==> memberships[m].userId != userId)
  }

  function StrictScope(strict: bool, product: Product): Option<Product> {
    if strict then Some(product) else None
  }

  predicate ValidCodeInput(input: CodeInput, now: int) {
    ValidId(input.userId) && 1 <= input.maxDevices <= MAX_CODE_DEVICES && now < input.expiresAt
  }

  ghost function CreateCodeVerdict(
    s: State, now: int, product: Product, strict: bool, key: string, input: CodeInput): (verdict: Verdict)
    ensures verdict.Proceed? ==> CreateCodeScope(key, StrictScope(strict, product)) !in s.ledger.records
  {
    if !ValidKey(key) then Reject(IdempotencyKeyRequired)
    else if !ValidCodeInput(input, now) then Reject(InvalidRequest)
    else
      var lookup := Lookup(s.ledger, CreateCodeScope(key, StrictScope(strict, product)), CodePrint(product, input));
      if !lookup.Proceed? then lookup
      else if input.userId !in s.people.users then Reject(UserNotFound)
      else if s.people.users[input.userId].status != UserActive then Reject(UserIsDisabled)
      else if !HasProduct(s.people.memberships, input.userId, product) then Reject(Forbidden)
      else Proceed
  }

  function NewCode(product: Product, input: CodeInput, text: string): Code
    requires 0 <= input.maxDevices
  {
    Code(input.userId, product, CodeActive, input.expiresAt, input.maxDevices, 0, Some(text), None)
  }

  /** `token` is the outcome of drawing the random code text. */
  ghost function CreateCode(
    s: State, now: int, product: Product, strict: bool, key: string, input: CodeInput,
    token: Option<string>): (State, Reply)
  {
    match CreateCodeVerdict(s, now, product, strict, key, input)
    case Reject(error) => (s, Failed(error))
    case Repeat(id) => (s, if id in s.grants.codes then CodeReply(s.grants.codes[id])
      else Failed(ActivationCodeNotFound))
    case Proceed =>
      var drawn := Bumped(s.ledger, "ac");
      if token.None? then (s.(ledger := drawn), Failed(RandomGenerationFailed))
      else
        var id, code := NextId(s.ledger, "ac"), NewCode(product, input, token.value);
        (s.(grants := s.grants.(codes := s.grants.codes[id := code]),
            ledger := Remember(drawn, CreateCodeScope(key, StrictScope(strict, product)), CodePrint(product, input),
                id)),
         CodeReply(code))
  }

  function Revoked(code: Code): Code {
    code.(status := CodeRevoked, plain := None)
  }

  function RevokeVerdict(s: State, product: Product, strict: bool, key: string, codeId: string): (verdict: Verdict)
    ensures verdict.Proceed? ==>
              RevokeCodeScope(key, StrictScope(strict, product)) !in s.ledger.records && codeId in s.grants.codes
  {
    if !ValidKey(key) then Reject(IdempotencyKeyRequired)
    else if codeId == "" then Reject(ActivationCodeNotFound)
    else
      var lookup := Lookup(s.ledger, RevokeCodeScope(key, StrictScope(strict, product)), RevokePrint(codeId, product));
      if !lookup.Proceed? then lookup
      else if codeId !in s.grants.codes then Reject(ActivationCodeNotFound)
      else if strict && s.grants.codes[codeId].product != product then Reject(Forbidden)
      else if s.grants.codes[codeId].status == CodeExpired then Reject(ActivationCodeStateConflict)
      else Proceed
  }

  function RevokeCode(s: State, product: Product, strict: bool, key: string, codeId: string): (State, Reply) {
    match RevokeVerdict(s, product, strict, key, codeId)
    case Reject(error) => (s, Failed(error))
    case Repeat(id) =>
      (s, if id in s.grants.codes then CodeReply(s.grants.codes[id].(plain := None))
          else Failed(ActivationCodeNotFound))
    case Proceed =>
      var code := Revoked(s.grants.codes[codeId]);
      (s.(grants := s.grants.(codes := s.grants.codes[codeId := code]),
          ledger := Remember(s.ledger, RevokeCodeScope(key, StrictScope(strict, product)),
              RevokePrint(codeId, product), codeId)),
       CodeReply(code))
  }

  function Lapsed(code: Code, now: int, product: Option<Product>): Code {
    if (product.None? || code.product == product.value) && code.status == CodeActive && code.expiresAt <= now
    then code.(status := CodeExpired) else code
  }

  /** Listing codes records the expiry of the active ones it passes. */
  function ListCodes(s: State, now: int, product: Option<Product>): State {
    s.(grants := s.grants.(codes := map id | id in s.grants.codes :: Lapsed(s.grants.codes[id], now, product)))
  }

  // --- choosing a code -----------------------------------------------------------------------------------

  datatype Choice = Chosen(codeId: string) | Refused(error: Error)

  predicate Entitles(code: Code, userId: string, product: Product) {
    code.userId == userId && code.product == product && code.status != CodeRevoked
  }

  predicate Current(code: Code, now: int) { now < code.expiresAt }

  predicate Open(code: Code, userId: string, product: Product, now: int) {
    Entitles(code, userId, product) && Current(code, now) && code.maxDevices > 0 && code.boundDevices < code.maxDevices
  }

  function CodeKey(codes: map<string, Code>, id: string): Ordering.Key
    requires id in codes
  {
    Ordering.Key(codes[id].expiresAt, id)
  }

  function OpenKeys(codes: map<string, Code>, userId: string, product: Product, now: int): set<Ordering.Key> {
    set id | id in codes && Open(codes[id], userId, product, now) :: CodeKey(codes, id)
  }

  ghost predicate SomeGrant(codes: map<string, Code>, userId: string, product: Product) {
    exists id :: id in codes && Entitles(codes[id], userId, product)
  }

  ghost predicate SomeCurrentGrant(codes: map<string, Code>, userId: string, product: Product, now: int) {
    exists id :: id in codes && Entitles(codes[id], userId, product) && Current(codes[id], now)
  }

  /** The open code that expires first (the smaller identifier on a tie), or the reason there is none. */
  ghost function SelectCode(codes: map<string, Code>, userId: string, product: Product, now: int): Choice {
    var keys := OpenKeys(codes, userId, product, now);
    if keys != {} then
      Ordering.LeastIsThere(keys);
      var k :| Ordering.IsLeast(k, keys);
      Chosen(k.id)
    else if SomeCurrentGrant(codes, userId, product, now) then Refused(DeviceLimitExceeded)
    else if SomeGrant(codes, userId, product) then Refused(AccountActivationExpired)
    else Refused(AccountActivationRequired)
  }

  /** A chosen code is open, and every other open code expires later or on a tie has a larger identifier. */
  lemma ChoiceIsEarliest(codes: map<string, Code>, userId: string, product: Product, now: int)
    ensures match SelectCode(codes, userId, product, now)
            case Chosen(id) =>
              && id in codes && Open(codes[id], userId, product, now)
              && forall other :: other in codes && Open(codes[other], userId, product, now) ==>
                   Ordering.AtMost(CodeKey(codes, id), CodeKey(codes, other))
            case Refused(error) =>
              && (forall id :: id in codes ==> !Open(codes[id], userId, product, now))
              && (error == DeviceLimitExceeded <==> SomeCurrentGrant(codes, userId, product, now))
              && (error == AccountActivationRequired <==> !SomeGrant(codes, userId, product))
              && error in {DeviceLimitExceeded, AccountActivationExpired, AccountActivationRequired}
  {
    var keys := OpenKeys(codes, userId, product, now);
    assert forall id :: id in codes && Open(codes[id], userId, product, now) ==> CodeKey(codes, id) in keys;
    if keys != {} {
      Ordering.LeastIsThere(keys);
      var k :| Ordering.IsLeast(k, keys) && SelectCode(codes, userId, product, now) == Chosen(k.id);
    }
  }

  // --- activating, disabling and unbinding a device --------------------------------------------------------

  predicate ValidActivation(input: ActivateInput) {
    && ValidId(input.deviceId)
    && Trim(input.profile.name) != "" && |input.profile.name| <= 128
    && Trim(input.profile.platform) != "" && |input.profile.platform| <= 64
    && Trim(input.profile.appVersion) != "" && |input.profile.appVersion| <= 64
    && |input.osVersion| <= 128
  }

  function Trimmed(p: Profile): Profile {
    Profile(Trim(p.name), Trim(p.platform), Trim(p.appVersion))
  }

  /** A device record nobody holds. */
  predicate Vacant(d: Device) { d.status == PendingActivation && d.owner.None? }

  /** Why an already registered device cannot be activated by this user at all. */
  function Refusal(g: Grants, userId: string, input: ActivateInput): Option<Error> {
    if input.deviceId !in g.devices then None
    else
      var d := g.devices[input.deviceId];
      if d.product != input.product then Some(Forbidden)
      else if Vacant(d) then None
      else if d.status == DeviceDisabled && d.owner == Some(userId) then Some(DeviceIsDisabled)
      else if d.owner != Some(userId) then Some(DeviceBindingConflict)
      else None
  }

  /** The device is already held by the user under a code of theirs that has not expired. */
  predicate Covered(g: Grants, now: int, userId: string, input: ActivateInput) {
    var id := input.deviceId;
    && id in g.devices && !Vacant(g.devices[id])
    && id in g.bindings && g.bindings[id] in g.codes
    && var code := g.codes[g.bindings[id]];
      code.userId == userId && code.product == input.product && Current(code, now)
  }

  function OneFewer(code: Code): Code {
    code.(boundDevices := if code.boundDevices > 0 then code.boundDevices - 1 else 0)
  }

  function OneMore(code: Code, now: int, userId: string, deviceId: string): Code {
    var bound := code.boundDevices + 1;
    code.(boundDevices := bound,
          status := if bound >= code.maxDevices then CodeUsed else CodeActive,
          plain := None,
          firstUse := if code.firstUse.None? then Some(FirstUse(userId, deviceId, now)) else code.firstUse)
  }

  /** The codes once the device has left the code it was bound to, unless that is the one it is moving to. */
  function Vacated(
    codes: map<string, Code>, bindings: map<string, string>, deviceId: string, codeId: string): map<string, Code> {
    if deviceId in bindings && bindings[deviceId] != codeId && bindings[deviceId] in codes
    then codes[bindings[deviceId] := OneFewer(codes[bindings[deviceId]])]
    else codes
  }

  function Activated(now: int, userId: string, input: ActivateInput, code: Code): Device {
    Device(Some(userId), input.product, Trimmed(input.profile), DeviceActive, now, code.expiresAt)
  }

  function BindTo(g: Grants, now: int, userId: string, input: ActivateInput, codeId: string): Grants
    requires codeId in g.codes
  {
    var id := input.deviceId;
    Grants(g.devices[id := Activated(now, userId, input, g.codes[codeId])],
           Vacated(g.codes, g.bindings, id, codeId)[codeId := OneMore(g.codes[codeId], now, userId, id)],
           g.bindings[id := codeId])
  }

  ghost function ActivateVerdict(s: State, key: string, userId: string, input: ActivateInput): (verdict: Verdict)
    ensures verdict.Proceed? ==>
              ActivateScope(userId, key) !in s.ledger.records && Refusal(s.grants, userId, input).None?
  {
    if !ValidKey(key) then Reject(IdempotencyKeyRequired)
    else if !ValidActivation(input) then Reject(InvalidRequest)
    else
      var lookup := Lookup(s.ledger, ActivateScope(userId, key), ActivatePrint(userId, input));
      if !lookup.Proceed? then lookup
      else if userId !in s.people.users then Reject(UserNotFound)
      else if s.people.users[userId].status != UserActive then Reject(UserIsDisabled)
      else if !HasProduct(s.people.memberships, userId, input.product) then Reject(Forbidden)
      else if Refusal(s.grants, userId, input).Some? then Reject(Refusal(s.grants, userId, input).value)
      else Proceed
  }

  function ReRegistered(g: Grants, input: ActivateInput): Device
    requires input.deviceId in g.devices && input.deviceId in g.bindings && g.bindings[input.deviceId] in g.codes
  {
    g.devices[input.deviceId].(
      profile := Trimmed(input.profile), activationExpiresAt := g.codes[g.bindings[input.deviceId]].expiresAt)
  }

  ghost function Activate(s: State, now: int, key: string, userId: string, input: ActivateInput): (State, Reply) {
    match ActivateVerdict(s, key, userId, input)
    case Reject(error) => (s, Failed(error))
    case Repeat(id) => (s, if id in s.grants.devices then DeviceReply(s.grants.devices[id]) else Failed(DeviceNotFound))
    case Proceed =>
      var g, recorded := s.grants,
          Remember(s.ledger, ActivateScope(userId, key), ActivatePrint(userId, input), input.deviceId);
      if Covered(g, now, userId, input) then
        var d := ReRegistered(g, input);
        (s.(grants := g.(devices := g.devices[input.deviceId := d]), ledger := recorded), DeviceReply(d))
      else
        ChoiceIsEarliest(g.codes, userId, input.product, now);
        match SelectCode(g.codes, userId, input.product, now)
        case Refused(error) => (s, Failed(error))
        case Chosen(codeId) =>
          (s.(grants := BindTo(g, now, userId, input, codeId), ledger := recorded),
           DeviceReply(Activated(now, userId, input, g.codes[codeId])))
  }

  function DeviceVerdict(s: State, scope: Scope, product: Product, key: string, deviceId: string): (verdict: Verdict)
    ensures verdict.Proceed? ==> scope !in s.ledger.records
    ensures !verdict.Reject? ==> deviceId in s.grants.devices && s.grants.devices[deviceId].product == product
  {
    if !ValidKey(key) then Reject(IdempotencyKeyRequired)
    else if deviceId !in s.grants.devices then Reject(DeviceNotFound)
    else if s.grants.devices[deviceId].product != product then Reject(Forbidden)
    else Lookup(s.ledger, scope, DevicePrint(deviceId, product))
  }

  function Freed(pool: Pool, deviceId: string, now: int, product: Product): Pool {
    pool.(leases := ReleaseForDevice(pool.leases, deviceId, now, product))
  }

  /** Disabling, also when repeated, ends the device's leases. */
  function DisableDevice(s: State, now: int, product: Product, key: string, deviceId: string): (State, Reply) {
    var scope := DisableDeviceScope(deviceId, key, product);
    match DeviceVerdict(s, scope, product, key, deviceId)
    case Reject(error) => (s, Failed(error))
    case Repeat(_) => (s.(pool := Freed(s.pool, deviceId, now, product)), DeviceReply(s.grants.devices[deviceId]))
    case Proceed =>
      var d := s.grants.devices[deviceId].(status := DeviceDisabled);
      (s.(pool := Freed(s.pool, deviceId, now, product),
          grants := s.grants.(devices := s.grants.devices[deviceId := d]),
          ledger := Remember(s.ledger, scope, DevicePrint(deviceId, product), deviceId)),
       DeviceReply(d))
  }

  function Reopened(code: Code): Code {
    var fewer := OneFewer(code);
    if fewer.status == CodeUsed && fewer.boundDevices < fewer.maxDevices then fewer.(status := CodeActive) else fewer
  }

  function CodesWithout(codes: map<string, Code>, bindings: map<string, string>, deviceId: string): map<string, Code> {
    if deviceId in bindings && bindings[deviceId] in codes
    then codes[bindings[deviceId] := Reopened(codes[bindings[deviceId]])] else codes
  }

  function Unbound(d: Device): Device {
    d.(owner := None, status := PendingActivation)
  }

  function Detached(g: Grants, deviceId: string): Grants
    requires deviceId in g.devices
  {
    Grants(g.devices[deviceId := Unbound(g.devices[deviceId])],
           CodesWithout(g.codes, g.bindings, deviceId),
           g.bindings - {deviceId})
  }

  /** Unbinding, also when repeated, ends the device's leases. */
  function UnbindDevice(s: State, now: int, product: Product, key: string, deviceId: string): (State, Reply) {
    var scope := UnbindScope(deviceId, key, product);
    match DeviceVerdict(s, scope, product, key, deviceId)
    case Reject(error) => (s, Failed(error))
    case Repeat(_) => (s.(pool := Freed(s.pool, deviceId, now, product)), DeviceReply(s.grants.devices[deviceId]))
    case Proceed =>
      (s.(pool := Freed(s.pool, deviceId, now, product),
          grants := Detached(s.grants, deviceId),
          ledger := Remember(s.ledger, scope, DevicePrint(deviceId, product), deviceId)),
       DeviceReply(Unbound(s.grants.devices[deviceId])))
  }
}
