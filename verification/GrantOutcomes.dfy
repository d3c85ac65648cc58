/**
 * What becomes of a request about codes and devices: which check turns it away, what it changes, and what it leaves
 * alone, in terms of the tables before and after.
 */
module GrantOutcomes {
  import opened Collections
  import opened Tables
  import opened LeaseTable
  import opened Activation
  import opened ControlPlane
  import opened Requests
  import Ordering

  // --- who asks --------------------------------------------------------------------------------------------

  predicate ActiveUser(s: State, userId: string) {
    userId in s.people.users && s.people.users[userId].status == UserActive
  }

  /** The user is an active member of the product, or has no memberships at all and asks for the default product. */
  ghost predicate Entitled(s: State, userId: string, product: Product) {
    || (exists m :: m in s.people.memberships && s.people.memberships[m].userId == userId
          && s.people.memberships[m].product == product && s.people.memberships[m].active)
    || (product == AutoLive && !exists m :: m in s.people.memberships && s.people.memberships[m].userId == userId)
  }

  lemma EntitledHasProduct(s: State, userId: string, product: Product)
    ensures HasProduct(s.people.memberships, userId, product) <==> Entitled(s, userId, product)
  {
    var all := s.people.memberships;
    if m :| m in all && all[m].userId == userId && all[m].product == product && all[m].active {
      assert all[m] == Membership(userId, product, true);
    }
  }

  /** Nothing but the codes, and what is remembered of requests and draws. */
  predicate OnlyCodes(s: State, t: State) {
    t == s.(grants := s.grants.(codes := t.grants.codes), ledger := t.ledger)
  }

  predicate OnlyGrants(s: State, t: State) {
    t == s.(grants := t.grants, ledger := t.ledger)
  }

  // --- creating a code -------------------------------------------------------------------------------------

  ghost function CodeChecks(s: State, now: int, c: Command): seq<Check>
    requires c.CreateCodeCommand?
  {
    var scope := CreateCodeScope(c.key, if c.strict then Some(c.product) else None);
    var user, known := c.code.userId, Known(s, scope);
    var good := GoodId(user) && 1 <= c.code.maxDevices <= 100 && now < c.code.expiresAt;
    [Check(!GoodKey(c.key), IdempotencyKeyRequired),
     Check(!good, InvalidRequest),
     Check(Clashes(s, scope, CodePrint(c.product, c.code)), IdempotencyConflict),
     Check(known && Resource(s, scope) !in s.grants.codes, ActivationCodeNotFound),
     Check(!known && user !in s.people.users, UserNotFound),
     Check(!known && !ActiveUser(s, user), UserIsDisabled),
     Check(!known && !Entitled(s, user, c.product), Forbidden),
     Check(!known && c.token.None?, RandomGenerationFailed)]
  }

  lemma CodeCreationDecided(s: State, now: int, c: Command)
    requires c.CreateCodeCommand?
    ensures DecidedBy(CodeChecks(s, now, c), Serve(s, now, c).1)
    ensures var (t, reply) := Serve(s, now, c);
            reply.Failed? ==>
              if reply.error == RandomGenerationFailed
              then t == s.(ledger := t.ledger) && Draws(s, t, "ac", 1) && t.ledger.records == s.ledger.records
              else t == s
  {
    var checks := CodeChecks(s, now, c);
    KeysAreGood(c.key);
    IdsAreGood(c.code.userId);
    EntitledHasProduct(s, c.code.userId, c.product);
    Unfolds(checks);
    hide ValidKey, ValidId, GoodKey, GoodId, HasProduct, Entitled, NextId;
    Decides(checks, 0, Serve(s, now, c).1);
  }

  /** A new code is the user's, for the product, open for as many devices as asked, with the text drawn. */
  lemma CodeIsCreated(s: State, now: int, c: Command)
    requires c.CreateCodeCommand? && !Serve(s, now, c).1.Failed?
    ensures var (t, reply) := Serve(s, now, c);
            var scope := CreateCodeScope(c.key, if c.strict then Some(c.product) else None);
            if Known(s, scope) then t == s && reply == CodeReply(s.grants.codes[Resource(s, scope)])
            else
              var id := NextId(s.ledger, "ac");
              && OnlyCodes(s, t) && OnlyRow(s.grants.codes, t.grants.codes, id)
              && var code := t.grants.codes[id];
                && code.userId == c.code.userId && code.product == c.product && code.expiresAt == c.code.expiresAt
                && code.maxDevices == c.code.maxDevices && code.boundDevices == 0 && code.status == CodeActive
                && code.plain == c.token && code.firstUse.None? && reply == CodeReply(code)
                && Draws(s, t, "ac", 1) && Remembers(s, t, scope, CodePrint(c.product, c.code), id)
  {
    hide ValidKey, ValidId, HasProduct, NextId;
  }

  // --- revoking a code -------------------------------------------------------------------------------------

  function RevocationChecks(s: State, c: Command): seq<Check>
    requires c.RevokeCodeCommand?
  {
    var scope := RevokeCodeScope(c.key, if c.strict then Some(c.product) else None);
    var known, there := Known(s, scope), c.codeId in s.grants.codes;
    [Check(!GoodKey(c.key), IdempotencyKeyRequired),
     Check(c.codeId == "", ActivationCodeNotFound),
     Check(Clashes(s, scope, RevokePrint(c.codeId, c.product)), IdempotencyConflict),
     Check(known && Resource(s, scope) !in s.grants.codes, ActivationCodeNotFound),
     Check(!known && !there, ActivationCodeNotFound),
     Check(!known && c.strict && there && s.grants.codes[c.codeId].product != c.product, Forbidden),
     Check(!known && there && s.grants.codes[c.codeId].status == CodeExpired, ActivationCodeStateConflict)]
  }

  lemma RevocationDecided(s: State, now: int, c: Command)
    requires c.RevokeCodeCommand?
    ensures DecidedBy(RevocationChecks(s, c), Serve(s, now, c).1)
    ensures Serve(s, now, c).1.Failed? ==> Serve(s, now, c).0 == s
  {
    var checks := RevocationChecks(s, c);
    KeysAreGood(c.key);
    Unfolds(checks);
    hide ValidKey, GoodKey;
    Decides(checks, 0, Serve(s, now, c).1);
  }

  /** A revoked code keeps everything but its status and its text; a repetition shows the code without its text. */
  lemma CodeIsRevoked(s: State, now: int, c: Command)
    requires c.RevokeCodeCommand? && !Serve(s, now, c).1.Failed?
    ensures var (t, reply) := Serve(s, now, c);
            var scope := RevokeCodeScope(c.key, if c.strict then Some(c.product) else None);
            if Known(s, scope) then
              t == s && reply.CodeReply? && reply.code.plain.None?
              && reply.code == s.grants.codes[Resource(s, scope)].(plain := None)
            else
              && OnlyCodes(s, t) && OnlyRow(s.grants.codes, t.grants.codes, c.codeId)
              && var before, after := s.grants.codes[c.codeId], t.grants.codes[c.codeId];
                && after.status == CodeRevoked && after.plain.None?
                && after == before.(status := after.status, plain := after.plain) && reply == CodeReply(after)
                && Remembers(s, t, scope, RevokePrint(c.codeId, c.product), c.codeId)
                && t.ledger.sequences == s.ledger.sequences
  {
    hide ValidKey;
  }

  /** Listing expires exactly the active codes of the product listed whose time is up. */
  lemma CodesAreListed(s: State, now: int, within: Option<Product>, id: string)
    requires id in s.grants.codes
    ensures var (t, reply) := Serve(s, now, ListCodesCommand(within));
            && reply == Done && t == s.(grants := s.grants.(codes := t.grants.codes))
            && t.grants.codes.Keys == s.grants.codes.Keys
            && var before, after := s.grants.codes[id], t.grants.codes[id];
              && after == before.(status := after.status)
              && (after.status == CodeExpired <==>
                    before.status == CodeExpired
                    || (before.status == CodeActive && before.expiresAt <= now
                        && (within == None || within == Some(before.product))))
              && (after.status != CodeExpired ==> after == before)
  {
  }

  // --- activating a device ---------------------------------------------------------------------------------

  predicate NonBlank(s: string) { exists c :: c in s && !IsSpace(c) }

  lemma TrimIsBlank(s: string)
    ensures Trim(s) != "" <==> NonBlank(s)
  {
    var front, back := TrimTakesEnds(s);
    if Trim(s) != "" {
      assert Trim(s)[0] in s by { assert s[|front|] == Trim(s)[0]; }
    } else {
      assert s == front + back;
    }
  }

  predicate GoodActivation(a: ActivateInput) {
    && GoodId(a.deviceId)
    && NonBlank(a.profile.name) && |a.profile.name| <= 128
    && NonBlank(a.profile.platform) && |a.profile.platform| <= 64
    && NonBlank(a.profile.appVersion) && |a.profile.appVersion| <= 64
    && |a.osVersion| <= 128
  }

  /** The device is registered and neither free for anybody nor of another product. */
  predicate Taken(s: State, a: ActivateInput) {
    a.deviceId in s.grants.devices
    && !(s.grants.devices[a.deviceId].owner == None && s.grants.devices[a.deviceId].status == PendingActivation)
  }

  /** The code the device is bound to is the user's, for the product, and has not expired. */
  predicate StillCovered(s: State, now: int, userId: string, a: ActivateInput) {
    && Taken(s, a) && a.deviceId in s.grants.bindings && s.grants.bindings[a.deviceId] in s.grants.codes
    && var code := s.grants.codes[s.grants.bindings[a.deviceId]];
      code.userId == userId && code.product == a.product && now < code.expiresAt
  }

  /** A code of the user for the product that has not been revoked. */
  predicate Grant(s: State, userId: string, a: ActivateInput, id: string) {
    && id in s.grants.codes && s.grants.codes[id].userId == userId && s.grants.codes[id].product == a.product
    && s.grants.codes[id].status in {CodeActive, CodeUsed, CodeExpired}
  }

  /** It has not expired and has a place left. */
  predicate Usable(s: State, now: int, userId: string, a: ActivateInput, id: string) {
    Grant(s, userId, a, id) && now < s.grants.codes[id].expiresAt
    && s.grants.codes[id].boundDevices < s.grants.codes[id].maxDevices
  }

  ghost function ActivationChecks(s: State, now: int, c: Command): seq<Check>
    requires c.ActivateCommand?
  {
    var a, user := c.activation, c.userId;
    var scope, there := ActivateScope(user, c.key), a.deviceId in s.grants.devices;
    var known, needs := Known(s, scope), !Known(s, scope) && !StillCovered(s, now, user, a);
    var usable := exists id :: Usable(s, now, user, a, id);
    var current := exists id :: Grant(s, user, a, id) && now < s.grants.codes[id].expiresAt;
    [Check(!GoodKey(c.key), IdempotencyKeyRequired),
     Check(!GoodActivation(a), InvalidRequest),
     Check(Clashes(s, scope, ActivatePrint(user, a)), IdempotencyConflict),
     Check(known && Resource(s, scope) !in s.grants.devices, DeviceNotFound),
     Check(!known && user !in s.people.users, UserNotFound),
     Check(!known && !ActiveUser(s, user), UserIsDisabled),
     Check(!known && !Entitled(s, user, a.product), Forbidden),
     Check(!known && there && s.grants.devices[a.deviceId].product != a.product, Forbidden),
     Check(!known && Taken(s, a) && s.grants.devices[a.deviceId].owner != Some(user), DeviceBindingConflict),
     Check(!known && Taken(s, a) && s.grants.devices[a.deviceId].status == DeviceDisabled, DeviceIsDisabled),
     Check(needs && !exists id :: Grant(s, user, a, id), AccountActivationRequired),
     Check(needs && !current, AccountActivationExpired),
     Check(needs && !usable, DeviceLimitExceeded)]
  }

  lemma ActivationDecided(s: State, now: int, c: Command)
    requires c.ActivateCommand?
    ensures DecidedBy(ActivationChecks(s, now, c), Serve(s, now, c).1)
    ensures Serve(s, now, c).1.Failed? ==> Serve(s, now, c).0 == s
  {
    var checks, a := ActivationChecks(s, now, c), c.activation;
    KeysAreGood(c.key);
    IdsAreGood(a.deviceId);
    TrimIsBlank(a.profile.name);
    TrimIsBlank(a.profile.platform);
    TrimIsBlank(a.profile.appVersion);
    EntitledHasProduct(s, c.userId, a.product);
    assert ValidActivation(a) <==> GoodActivation(a);
    GrantsAreChosen(s, now, c.userId, a);
    Unfolds(checks);
    hide ValidKey, GoodKey, ValidActivation, GoodActivation, HasProduct, Entitled, Trim, SelectCode, Usable, Grant,
        BindTo;
    Decides(checks, 0, Serve(s, now, c).1);
  }

  lemma GrantsAreChosen(s: State, now: int, userId: string, a: ActivateInput)
    ensures var choice := SelectCode(s.grants.codes, userId, a.product, now);
            && (choice.Chosen? <==> exists id :: Usable(s, now, userId, a, id))
            && (choice == Refused(AccountActivationRequired) <==> !exists id :: Grant(s, userId, a, id))
            && (choice.Refused? ==> (choice == Refused(DeviceLimitExceeded) <==>
                  exists id :: Grant(s, userId, a, id) && now < s.grants.codes[id].expiresAt))
            && (choice.Refused? ==>
                  choice.error in {DeviceLimitExceeded, AccountActivationExpired, AccountActivationRequired})
            && (choice.Chosen? ==> Usable(s, now, userId, a, choice.codeId))
  {
    ChoiceIsEarliest(s.grants.codes, userId, a.product, now);
    var codes := s.grants.codes;
    assert forall id :: id in codes ==> (Entitles(codes[id], userId, a.product) <==> Grant(s, userId, a, id));
    assert forall id :: id in codes ==>
        (Open(codes[id], userId, a.product, now) <==> Usable(s, now, userId, a, id));
    hide SelectCode;
  }

  /**
   * A repeated or covered activation binds nothing: at most the profile and the expiry shown are brought up to date.
   */
  lemma ActivationIsConfirmed(s: State, now: int, c: Command)
    requires c.ActivateCommand? && !Serve(s, now, c).1.Failed?
    ensures var ((t, reply), a, scope) := (Serve(s, now, c), c.activation, ActivateScope(c.userId, c.key));
            && (Known(s, scope) ==> t == s && reply == DeviceReply(s.grants.devices[Resource(s, scope)]))
            && (!Known(s, scope) && StillCovered(s, now, c.userId, a) ==>
                  && OnlyGrants(s, t) && t.grants == s.grants.(devices := t.grants.devices)
                  && OnlyRow(s.grants.devices, t.grants.devices, a.deviceId)
                  && Remembers(s, t, scope, ActivatePrint(c.userId, a), a.deviceId)
                  && t.ledger.sequences == s.ledger.sequences
                  && var before, after := s.grants.devices[a.deviceId], t.grants.devices[a.deviceId];
                    && after == before.(profile := after.profile, activationExpiresAt := after.activationExpiresAt)
                    && after.profile == Profile(Trim(a.profile.name), Trim(a.profile.platform),
                                                Trim(a.profile.appVersion))
                    && after.activationExpiresAt == s.grants.codes[s.grants.bindings[a.deviceId]].expiresAt
                    && reply == DeviceReply(after))
  {
    hide ValidKey, ValidActivation, HasProduct, Trim, SelectCode, BindTo;
  }

  /** The code counts one device more; it is full once it has as many as it grants, and its text is gone. */
  predicate Gains(before: Code, after: Code, now: int, userId: string, deviceId: string) {
    && after == before.(boundDevices := after.boundDevices, status := after.status, plain := after.plain,
                        firstUse := after.firstUse)
    && after.boundDevices == before.boundDevices + 1 && after.plain.None?
    && after.status in {CodeUsed, CodeActive}
    && (after.status == CodeUsed <==> after.boundDevices >= after.maxDevices)
    && after.firstUse == if before.firstUse.Some? then before.firstUse else Some(FirstUse(userId, deviceId, now))
  }

  /** The code counts one device fewer, never less than none. */
  predicate Loses(before: Code, after: Code) {
    after == before.(boundDevices := after.boundDevices)
    && (if before.boundDevices == 0 then after.boundDevices == 0 else after.boundDevices + 1 == before.boundDevices)
  }

  predicate BoundElsewhere(s: State, deviceId: string, codeId: string, id: string) {
    deviceId in s.grants.bindings && s.grants.bindings[deviceId] == id && id != codeId
  }

  /** The device is the user's and active under the code, seen now, as the request describes it. */
  predicate HeldUnder(device: Device, now: int, userId: string, a: ActivateInput, code: Code) {
    && device.owner == Some(userId) && device.product == a.product && device.status == DeviceActive
    && device.profile == Profile(Trim(a.profile.name), Trim(a.profile.platform), Trim(a.profile.appVersion))
    && device.lastSeenAt == now && device.activationExpiresAt == code.expiresAt
  }

  /**
   * The device moves to the code: that code gains it, one it was bound to before loses it, and no other row changes.
   */
  ghost predicate Moves(s: State, g: Grants, now: int, userId: string, a: ActivateInput, codeId: string)
    requires codeId in s.grants.codes
  {
    && OnlyRow(s.grants.devices, g.devices, a.deviceId) && OnlyRow(s.grants.bindings, g.bindings, a.deviceId)
    && g.codes.Keys == s.grants.codes.Keys && g.bindings[a.deviceId] == codeId
    && HeldUnder(g.devices[a.deviceId], now, userId, a, s.grants.codes[codeId])
    && Gains(s.grants.codes[codeId], g.codes[codeId], now, userId, a.deviceId)
    && forall id :: id in s.grants.codes && id != codeId ==>
         if BoundElsewhere(s, a.deviceId, codeId, id) then Loses(s.grants.codes[id], g.codes[id])
         else g.codes[id] == s.grants.codes[id]
  }

  lemma BindingMoves(s: State, now: int, userId: string, a: ActivateInput, codeId: string)
    requires codeId in s.grants.codes
    ensures Moves(s, BindTo(s.grants, now, userId, a, codeId), now, userId, a, codeId)
  {
    hide Trim;
    var g := BindTo(s.grants, now, userId, a, codeId);
    forall id | id in s.grants.codes && id != codeId
      ensures if BoundElsewhere(s, a.deviceId, codeId, id) then Loses(s.grants.codes[id], g.codes[id])
              else g.codes[id] == s.grants.codes[id]
    {
    }
  }

  /** Any other activation moves the device to the usable code that expires first. */
  lemma ActivationTakesHold(s: State, now: int, c: Command)
    requires c.ActivateCommand? && !Serve(s, now, c).1.Failed?
    requires !Known(s, ActivateScope(c.userId, c.key)) && !StillCovered(s, now, c.userId, c.activation)
    ensures var ((t, reply), a) := (Serve(s, now, c), c.activation);
            && OnlyGrants(s, t) && t.ledger.sequences == s.ledger.sequences
            && Remembers(s, t, ActivateScope(c.userId, c.key), ActivatePrint(c.userId, a), a.deviceId)
            && exists codeId ::
                 && Usable(s, now, c.userId, a, codeId) && Moves(s, t.grants, now, c.userId, a, codeId)
                 && reply == DeviceReply(t.grants.devices[a.deviceId])
                 && forall id :: Usable(s, now, c.userId, a, id) ==>
                      Ordering.AtMost(Ordering.Key(s.grants.codes[codeId].expiresAt, codeId),
                                      Ordering.Key(s.grants.codes[id].expiresAt, id))
  {
    hide Serve, StillCovered, Trim, SelectCode, Usable, BindTo, Moves, OnlyGrants, Remembers;
    var a := c.activation;
    var codeId := ActivationBinds(s, now, c);
    GrantsAreChosen(s, now, c.userId, a);
    EarliestIsChosen(s, now, c.userId, a);
    BindingMoves(s, now, c.userId, a, codeId);
    BindingGives(s, now, c.userId, a, codeId);
  }

  lemma ActivationBinds(s: State, now: int, c: Command) returns (codeId: string)
    requires c.ActivateCommand? && !Serve(s, now, c).1.Failed?
    requires !Known(s, ActivateScope(c.userId, c.key)) && !StillCovered(s, now, c.userId, c.activation)
    ensures SelectCode(s.grants.codes, c.userId, c.activation.product, now) == Chosen(codeId)
    ensures codeId in s.grants.codes
    ensures var ((t, reply), a) := (Serve(s, now, c), c.activation);
            && OnlyGrants(s, t) && t.ledger.sequences == s.ledger.sequences
            && Remembers(s, t, ActivateScope(c.userId, c.key), ActivatePrint(c.userId, a), a.deviceId)
            && t.grants == BindTo(s.grants, now, c.userId, a, codeId)
            && reply == DeviceReply(Activated(now, c.userId, a, s.grants.codes[codeId]))
  {
    ChoiceIsEarliest(s.grants.codes, c.userId, c.activation.product, now);
    hide ValidKey, ValidActivation, HasProduct, Trim, SelectCode, BindTo, Activated, Open;
    codeId := SelectCode(s.grants.codes, c.userId, c.activation.product, now).codeId;
  }

  lemma EarliestIsChosen(s: State, now: int, userId: string, a: ActivateInput)
    requires SelectCode(s.grants.codes, userId, a.product, now).Chosen?
    ensures var codeId := SelectCode(s.grants.codes, userId, a.product, now).codeId;
            codeId in s.grants.codes
            && forall id :: Usable(s, now, userId, a, id) ==>
                 Ordering.AtMost(Ordering.Key(s.grants.codes[codeId].expiresAt, codeId),
                                 Ordering.Key(s.grants.codes[id].expiresAt, id))
  {
    ChoiceIsEarliest(s.grants.codes, userId, a.product, now);
    assert forall id :: Usable(s, now, userId, a, id) ==>
        id in s.grants.codes && Open(s.grants.codes[id], userId, a.product, now);
    hide SelectCode, Open, Usable;
  }

  lemma BindingGives(s: State, now: int, userId: string, a: ActivateInput, codeId: string)
    requires codeId in s.grants.codes
    ensures var g := BindTo(s.grants, now, userId, a, codeId);
            a.deviceId in g.devices && g.devices[a.deviceId] == Activated(now, userId, a, s.grants.codes[codeId])
  {
  }

  // --- disabling and unbinding a device --------------------------------------------------------------------

  function DeviceChecks(s: State, product: Product, key: string, deviceId: string, scope: Scope): seq<Check> {
    var there := deviceId in s.grants.devices;
    [Check(!GoodKey(key), IdempotencyKeyRequired),
     Check(!there, DeviceNotFound),
     Check(there && s.grants.devices[deviceId].product != product, Forbidden),
     Check(Clashes(s, scope, DevicePrint(deviceId, product)), IdempotencyConflict)]
  }

  lemma DisablingDecided(s: State, now: int, c: Command)
    requires c.DisableDeviceCommand?
    ensures DecidedBy(DeviceChecks(s, c.product, c.key, c.deviceId, DisableDeviceScope(c.deviceId, c.key, c.product)),
                      Serve(s, now, c).1)
    ensures Serve(s, now, c).1.Failed? ==> Serve(s, now, c).0 == s
  {
    var checks := DeviceChecks(s, c.product, c.key, c.deviceId, DisableDeviceScope(c.deviceId, c.key, c.product));
    KeysAreGood(c.key);
    Unfolds(checks);
    hide ValidKey, GoodKey;
    Decides(checks, 0, Serve(s, now, c).1);
  }

  lemma UnbindingDecided(s: State, now: int, c: Command)
    requires c.UnbindCommand?
    ensures DecidedBy(DeviceChecks(s, c.product, c.key, c.deviceId, UnbindScope(c.deviceId, c.key, c.product)),
                      Serve(s, now, c).1)
    ensures Serve(s, now, c).1.Failed? ==> Serve(s, now, c).0 == s
  {
    var checks := DeviceChecks(s, c.product, c.key, c.deviceId, UnbindScope(c.deviceId, c.key, c.product));
    KeysAreGood(c.key);
    Unfolds(checks);
    hide ValidKey, GoodKey, Detached;
    Decides(checks, 0, Serve(s, now, c).1);
  }

  /** The device's active leases of the product are released now, and no other lease changes. */
  ghost predicate ReleasesOf(s: State, t: State, now: int, deviceId: string, product: Product) {
    && t.pool == s.pool.(leases := t.pool.leases) && t.pool.leases.Keys == s.pool.leases.Keys
    && forall id :: id in s.pool.leases ==>
        var before, after := s.pool.leases[id], t.pool.leases[id];
        if before.deviceId == deviceId && before.product == product && before.status == LeaseActive
        then after == before.(status := LeaseReleased, releasedAt := Some(now)) else after == before
  }

  lemma DeviceIsFreed(s: State, now: int, deviceId: string, product: Product)
    ensures ReleasesOf(s, s.(pool := Freed(s.pool, deviceId, now, product)), now, deviceId, product)
  {
  }

  /** Disabling, also when repeated, releases the device's leases; the first time it marks the device and no more. */
  lemma DeviceGetsDisabled(s: State, now: int, c: Command)
    requires c.DisableDeviceCommand? && !Serve(s, now, c).1.Failed?
    ensures var ((t, reply), id) := (Serve(s, now, c), c.deviceId);
            var scope := DisableDeviceScope(id, c.key, c.product);
            && ReleasesOf(s, t, now, id, c.product) && t.people == s.people
            && reply == DeviceReply(t.grants.devices[id])
            && if Known(s, scope) then t.grants == s.grants && t.ledger == s.ledger
               else
                 && t.grants == s.grants.(devices := t.grants.devices)
                 && OnlyRow(s.grants.devices, t.grants.devices, id)
                 && t.grants.devices[id].status == DeviceDisabled
                 && t.grants.devices[id] == s.grants.devices[id].(status := DeviceDisabled)
                 && Remembers(s, t, scope, DevicePrint(id, c.product), id) && t.ledger.sequences == s.ledger.sequences
  {
    DeviceIsFreed(s, now, c.deviceId, c.product);
    hide ValidKey, Freed;
  }

  /** The code counts one device fewer, and if that makes room in a full code it is active again. */
  predicate Reopens(before: Code, after: Code) {
    && Loses(before, after.(status := before.status))
    && (if before.status == CodeUsed && after.boundDevices < after.maxDevices then after.status == CodeActive
        else after.status == before.status)
  }

  /**
   * Unbinding, also when repeated, releases the device's leases; the first time the device becomes nobody's, leaves the
   * binding table, and its code alone, if it is bound to one, counts a device fewer.
   */
  lemma DeviceGetsUnbound(s: State, now: int, c: Command)
    requires c.UnbindCommand? && !Serve(s, now, c).1.Failed?
    ensures var ((t, reply), id) := (Serve(s, now, c), c.deviceId);
            var scope := UnbindScope(id, c.key, c.product);
            && ReleasesOf(s, t, now, id, c.product) && t.people == s.people
            && reply == DeviceReply(t.grants.devices[id])
            && if Known(s, scope) then t.grants == s.grants && t.ledger == s.ledger
               else
                 && OnlyRow(s.grants.devices, t.grants.devices, id)
                 && t.grants.devices[id] == s.grants.devices[id].(owner := None, status := PendingActivation)
                 && id !in t.grants.bindings && t.grants.bindings == s.grants.bindings - {id}
                 && t.grants.codes.Keys == s.grants.codes.Keys
                 && (forall k :: k in s.grants.codes ==>
                       if id in s.grants.bindings && s.grants.bindings[id] == k
                       then Reopens(s.grants.codes[k], t.grants.codes[k])
                       else t.grants.codes[k] == s.grants.codes[k])
                 && Remembers(s, t, scope, DevicePrint(id, c.product), id) && t.ledger.sequences == s.ledger.sequences
  {
    DeviceIsFreed(s, now, c.deviceId, c.product);
    hide ValidKey, Freed;
  }
}
