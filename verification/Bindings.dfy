/** What ties codes, bindings and devices together, and why each command keeps it. */
module Bindings {
  import opened Collections
  import opened Tables
  import opened Activation

  /** Each bound device is held by the code's user for the code's product, and exactly the held devices are bound. */
  ghost predicate Agree(devices: map<string, Device>, codes: map<string, Code>, bindings: map<string, string>) {
    && (forall id :: id in bindings ==>
          && id in devices && bindings[id] in codes
          && devices[id].owner == Some(codes[bindings[id]].userId)
          && devices[id].product == codes[bindings[id]].product)
    && (forall id :: id in devices ==>
          && (devices[id].owner.Some? ==> id in bindings)
          && (devices[id].status == PendingActivation ==> devices[id].owner.None?)
          && (devices[id].status == DeviceActive ==> devices[id].owner.Some?))
  }

  /** The stored counter is the number of devices bound to the code, within the code's limit. */
  ghost predicate Counted(codes: map<string, Code>, bindings: map<string, string>) {
    forall c :: c in codes ==>
      && codes[c].boundDevices == BoundCount(bindings, c)
      && codes[c].boundDevices <= codes[c].maxDevices
      && 1 <= codes[c].maxDevices <= MAX_CODE_DEVICES
  }

  /** An unrevoked code that has not expired is `used` exactly when it is full and `active` exactly when it is not. */
  predicate TruthfulStatus(code: Code, now: int) {
    && (code.status == CodeExpired ==> code.expiresAt <= now)
    && (code.status != CodeRevoked && now < code.expiresAt ==>
          && (code.status == CodeUsed <==> code.boundDevices == code.maxDevices)
          && (code.status == CodeActive <==> code.boundDevices < code.maxDevices))
  }

  ghost predicate Truthful(codes: map<string, Code>, now: int) {
    forall c :: c in codes ==> TruthfulStatus(codes[c], now)
  }

  ghost predicate Consistent(g: Grants, now: int) {
    && Agree(g.devices, g.codes, g.bindings)
    && Counted(g.codes, g.bindings)
    && Truthful(g.codes, now)
  }

  lemma LaterStillConsistent(g: Grants, now: int, later: int)
    requires Consistent(g, now) && now <= later
    ensures Consistent(g, later)
  {
  }

  /**
   * A re-homed device is never counted twice: when an activation reaches the choice of a code, any code the device
   * is still bound to has expired, so the chosen code is a different one.
   */
  lemma RehomingLeavesTheOldCode(g: Grants, now: int, userId: string, input: ActivateInput)
    requires Consistent(g, now)
    requires Refusal(g, userId, input).None? && !Covered(g, now, userId, input)
    requires input.deviceId in g.bindings
    ensures g.bindings[input.deviceId] in g.codes && g.codes[g.bindings[input.deviceId]].expiresAt <= now
    ensures SelectCode(g.codes, userId, input.product, now) != Chosen(g.bindings[input.deviceId])
  {
    ChoiceIsEarliest(g.codes, userId, input.product, now);
  }

  lemma BoundCountMove(bindings: map<string, string>, deviceId: string, codeId: string, c: string)
    ensures BoundCount(bindings[deviceId := codeId], c) + (if deviceId in bindings && bindings[deviceId] == c then 1
              else 0)
         == BoundCount(bindings, c) + (if codeId == c then 1 else 0)
  {
    SumUpdate(bindings, BoundTo(c), deviceId, codeId);
  }

  lemma MoveKeepsCounts(
    codes: map<string, Code>, bindings: map<string, string>, deviceId: string, codeId: string, moved: Code)
    requires Counted(codes, bindings)
    requires codeId in codes && codes[codeId].boundDevices < codes[codeId].maxDevices
    requires deviceId in bindings ==> bindings[deviceId] in codes && bindings[deviceId] != codeId
    requires moved.boundDevices == codes[codeId].boundDevices + 1 && moved.maxDevices == codes[codeId].maxDevices
    ensures Counted(Vacated(codes, bindings, deviceId, codeId)[codeId := moved], bindings[deviceId := codeId])
  {
    var codes' := Vacated(codes, bindings, deviceId, codeId)[codeId := moved];
    forall c | c in codes'
      ensures codes'[c].boundDevices == BoundCount(bindings[deviceId := codeId], c)
      ensures codes'[c].boundDevices <= codes'[c].maxDevices && 1 <= codes'[c].maxDevices <= MAX_CODE_DEVICES
    {
      BoundCountMove(bindings, deviceId, codeId, c);
    }
  }

  lemma BindKeepsAgreement(
    devices: map<string, Device>, codes: map<string, Code>, bindings: map<string, string>, deviceId: string,
    codeId: string,
    d: Device, codes': map<string, Code>)
    requires Agree(devices, codes, bindings)
    requires codes'.Keys == codes.Keys && codeId in codes
    requires forall c :: c in codes ==> codes'[c].userId == codes[c].userId && codes'[c].product == codes[c].product
    requires d.owner == Some(codes[codeId].userId) && d.product == codes[codeId].product && d.status == DeviceActive
    ensures Agree(devices[deviceId := d], codes', bindings[deviceId := codeId])
  {
  }

  lemma BindKeepsTruth(
    codes: map<string, Code>, bindings: map<string, string>, deviceId: string, codeId: string, now: int, userId: string)
    requires Truthful(codes, now)
    requires codeId in codes && codes[codeId].boundDevices < codes[codeId].maxDevices
    requires codes[codeId].status != CodeRevoked && now < codes[codeId].expiresAt
    requires deviceId in bindings ==> bindings[deviceId] in codes && codes[bindings[deviceId]].expiresAt <= now
    ensures Truthful(Vacated(codes, bindings, deviceId,
              codeId)[codeId := OneMore(codes[codeId], now, userId, deviceId)], now)
  {
  }

  lemma BindKeeps(g: Grants, now: int, userId: string, input: ActivateInput, codeId: string)
    requires Consistent(g, now)
    requires codeId in g.codes && Open(g.codes[codeId], userId, input.product, now)
    requires input.deviceId in g.bindings ==>
               && g.bindings[input.deviceId] != codeId
               && g.bindings[input.deviceId] in g.codes && g.codes[g.bindings[input.deviceId]].expiresAt <= now
    ensures Consistent(BindTo(g, now, userId, input, codeId), now)
  {
    var id, code := input.deviceId, g.codes[codeId];
    var codes' := BindTo(g, now, userId, input, codeId).codes;
    BindKeepsAgreement(g.devices, g.codes, g.bindings, id, codeId, Activated(now, userId, input, code), codes');
    BindKeepsTruth(g.codes, g.bindings, id, codeId, now, userId);
    MoveKeepsCounts(g.codes, g.bindings, id, codeId, OneMore(code, now, userId, id));
  }

  lemma EditKeepsAgreement(
    devices: map<string, Device>, codes: map<string, Code>, bindings: map<string, string>, id: string, d: Device)
    requires Agree(devices, codes, bindings) && id in devices
    requires d.owner == devices[id].owner && d.product == devices[id].product
    requires d.status == devices[id].status || d.status == DeviceDisabled
    ensures Agree(devices[id := d], codes, bindings)
  {
  }

  /** Editing a device without touching who holds it or whether it is active. */
  lemma EditKeeps(g: Grants, now: int, id: string, d: Device)
    requires Consistent(g, now) && id in g.devices
    requires d.owner == g.devices[id].owner && d.product == g.devices[id].product
    requires d.status == g.devices[id].status || d.status == DeviceDisabled
    ensures Consistent(g.(devices := g.devices[id := d]), now)
  {
    EditKeepsAgreement(g.devices, g.codes, g.bindings, id, d);
  }

  lemma ActivateKeeps(s: State, now: int, key: string, userId: string, input: ActivateInput)
    requires Consistent(s.grants, now)
    ensures Consistent(Activate(s, now, key, userId, input).0.grants, now)
  {
    if ActivateVerdict(s, key, userId, input).Proceed? {
      if Covered(s.grants, now, userId, input) {
        EditKeeps(s.grants, now, input.deviceId, ReRegistered(s.grants, input));
      } else {
        ActivateByChoiceKeeps(s.grants, now, userId, input);
      }
    }
  }

  lemma ActivateByChoiceKeeps(g: Grants, now: int, userId: string, input: ActivateInput)
    requires Consistent(g, now)
    requires Refusal(g, userId, input).None? && !Covered(g, now, userId, input)
    ensures var choice := SelectCode(g.codes, userId, input.product, now);
            choice.Chosen? ==> choice.codeId in g.codes && Consistent(BindTo(g, now, userId, input, choice.codeId), now)
  {
    ChoiceIsEarliest(g.codes, userId, input.product, now);
    var choice := SelectCode(g.codes, userId, input.product, now);
    if choice.Chosen? {
      if input.deviceId in g.bindings {
        RehomingLeavesTheOldCode(g, now, userId, input);
      }
      BindKeeps(g, now, userId, input, choice.codeId);
    }
  }

  lemma BoundCountDrop(bindings: map<string, string>, deviceId: string, c: string)
    requires deviceId in bindings
    ensures BoundCount(bindings, c) == BoundCount(bindings - {deviceId}, c) + (if bindings[deviceId] == c then 1 else 0)
  {
    SumRemove(bindings, BoundTo(c), deviceId);
  }

  lemma DetachKeepsCounts(codes: map<string, Code>, bindings: map<string, string>, deviceId: string, now: int)
    requires Counted(codes, bindings) && Truthful(codes, now)
    requires deviceId in bindings ==> bindings[deviceId] in codes
    ensures var codes' := CodesWithout(codes, bindings, deviceId);
            Counted(codes', bindings - {deviceId}) && Truthful(codes', now)
  {
    var codes' := CodesWithout(codes, bindings, deviceId);
    if deviceId in bindings {
      forall c | c in codes'
        ensures codes'[c].boundDevices == BoundCount(bindings - {deviceId}, c) <= codes'[c].maxDevices
        ensures TruthfulStatus(codes'[c], now)
      {
        BoundCountDrop(bindings, deviceId, c);
      }
    } else {
      assert bindings - {deviceId} == bindings;
    }
  }

  lemma DetachKeepsAgreement(
    devices: map<string, Device>, codes: map<string, Code>, bindings: map<string, string>, deviceId: string,
    codes': map<string, Code>)
    requires Agree(devices, codes, bindings) && deviceId in devices
    requires codes'.Keys == codes.Keys
    requires forall c :: c in codes ==> codes'[c].userId == codes[c].userId && codes'[c].product == codes[c].product
    ensures Agree(devices[deviceId := Unbound(devices[deviceId])], codes', bindings - {deviceId})
  {
  }

  lemma DetachKeeps(g: Grants, deviceId: string, now: int)
    requires Consistent(g, now) && deviceId in g.devices
    ensures Consistent(Detached(g, deviceId), now)
  {
    DetachKeepsAgreement(g.devices, g.codes, g.bindings, deviceId, CodesWithout(g.codes, g.bindings, deviceId));
    DetachKeepsCounts(g.codes, g.bindings, deviceId, now);
  }

  lemma UnbindKeeps(s: State, now: int, product: Product, key: string, deviceId: string)
    requires Consistent(s.grants, now)
    ensures Consistent(UnbindDevice(s, now, product, key, deviceId).0.grants, now)
  {
    if deviceId in s.grants.devices {
      DetachKeeps(s.grants, deviceId, now);
    }
  }

  lemma DisableKeeps(s: State, now: int, product: Product, key: string, deviceId: string)
    requires Consistent(s.grants, now)
    ensures Consistent(DisableDevice(s, now, product, key, deviceId).0.grants, now)
  {
    if deviceId in s.grants.devices {
      EditKeeps(s.grants, now, deviceId, s.grants.devices[deviceId].(status := DeviceDisabled));
    }
  }

  lemma RevokeKeeps(s: State, now: int, product: Product, strict: bool, key: string, codeId: string)
    requires Consistent(s.grants, now)
    ensures Consistent(RevokeCode(s, product, strict, key, codeId).0.grants, now)
  {
    if codeId in s.grants.codes {
      RecordKeeps(s.grants, now, s.grants.codes[codeId := Revoked(s.grants.codes[codeId])]);
    }
  }

  /** Rewriting codes without touching who they belong to or what they count. */
  lemma RecordKeeps(g: Grants, now: int, codes': map<string, Code>)
    requires Consistent(g, now) && codes'.Keys == g.codes.Keys && Truthful(codes', now)
    requires forall c :: c in codes' ==>
               && codes'[c].userId == g.codes[c].userId && codes'[c].product == g.codes[c].product
               && codes'[c].boundDevices == g.codes[c].boundDevices && codes'[c].maxDevices == g.codes[c].maxDevices
    ensures Consistent(g.(codes := codes'), now)
  {
    assert Agree(g.devices, codes', g.bindings);
  }

  lemma ListKeeps(s: State, now: int, product: Option<Product>)
    requires Consistent(s.grants, now)
    ensures Consistent(ListCodes(s, now, product).grants, now)
  {
    RecordKeeps(s.grants, now, ListCodes(s, now, product).grants.codes);
  }

  lemma NewCodeKeeps(g: Grants, now: int, id: string, code: Code)
    requires Consistent(g, now) && id !in g.codes
    requires code.boundDevices == 0 && 1 <= code.maxDevices <= MAX_CODE_DEVICES && code.status == CodeActive
              && now < code.expiresAt
    ensures Consistent(g.(codes := g.codes[id := code]), now)
  {
    SumZero(g.bindings, BoundTo(id));
    assert Agree(g.devices, g.codes[id := code], g.bindings);
  }

  lemma CreateKeeps(
    s: State, now: int, product: Product, strict: bool, key: string, input: CodeInput, token: Option<string>)
    requires Consistent(s.grants, now)
    requires Issued(s.grants.codes.Keys, "ac", Counter(s.ledger, "ac"))
    ensures Consistent(CreateCode(s, now, product, strict, key, input, token).0.grants, now)
  {
    if CreateCodeVerdict(s, now, product, strict, key, input).Proceed? && token.Some? {
      NextIdFresh(s.grants.codes.Keys, "ac", Counter(s.ledger, "ac"));
      NewCodeKeeps(s.grants, now, NextId(s.ledger, "ac"), NewCode(product, input, token.value));
    }
  }

  // --- a user's devices against a user's grants --------------------------------------------------------------

  ghost function OwnedBy(userId: string): (string, Device) -> nat {
    (id: string, d: Device) => if d.owner == Some(userId) then 1 else 0
  }

  ghost function BoundForUser(codes: map<string, Code>, userId: string): (string, string) -> nat {
    (id: string, c: string) => if c in codes && codes[c].userId == userId then 1 else 0
  }

  ghost function CountersOf(userId: string): (string, Code) -> nat {
    (id: string, c: Code) => if c.userId == userId then c.boundDevices else 0
  }

  ghost function GrantsOf(userId: string): (string, Code) -> nat {
    (id: string, c: Code) => if c.userId == userId then c.maxDevices else 0
  }

  lemma UncountOne(bindings: map<string, string>, codes: map<string, Code>, id: string)
    requires id in bindings && bindings[id] in codes
    requires forall c :: c in codes ==> codes[c].boundDevices == BoundCount(bindings, c)
    ensures codes[bindings[id]].boundDevices > 0
    ensures var codes' := codes[bindings[id] := OneFewer(codes[bindings[id]])];
            forall c :: c in codes' ==> codes'[c].boundDevices == BoundCount(bindings - {id}, c)
  {
    forall c | c in codes
      ensures BoundCount(bindings, c) == BoundCount(bindings - {id}, c) + (if bindings[id] == c then 1 else 0)
    {
      BoundCountDrop(bindings, id, c);
    }
  }

  /** Counting bindings device by device and adding up the codes' counters give the same total. */
  lemma {:induction false} DoubleCount(bindings: map<string, string>, codes: map<string, Code>, userId: string)
    requires forall id :: id in bindings ==> bindings[id] in codes
    requires forall c :: c in codes ==> codes[c].boundDevices == BoundCount(bindings, c)
    ensures Sum(bindings, BoundForUser(codes, userId)) == Sum(codes, CountersOf(userId))
    decreases |bindings|
  {
    if bindings == map[] {
      SumZero(codes, CountersOf(userId));
    } else {
      var id :| id in bindings;
      var rest, c := bindings - {id}, bindings[id];
      var codes' := codes[c := OneFewer(codes[c])];
      UncountOne(bindings, codes, id);
      DoubleCount(rest, codes', userId);
      SumSame(rest, BoundForUser(codes, userId), rest, BoundForUser(codes', userId));
      SumRemove(bindings, BoundForUser(codes, userId), id);
      SumUpdate(codes, CountersOf(userId), c, codes'[c]);
    }
  }

  /** The devices a user holds never outnumber the devices that user's codes grant, all codes taken together. */
  lemma DevicesWithinGrants(g: Grants, now: int, userId: string)
    requires Consistent(g, now)
    ensures Sum(g.devices, OwnedBy(userId)) == Sum(g.codes, CountersOf(userId))
    ensures Sum(g.devices, OwnedBy(userId)) <= Sum(g.codes, GrantsOf(userId))
  {
    OwnedAreBound(g.devices, g.codes, g.bindings, userId);
    DoubleCount(g.bindings, g.codes, userId);
    SumMonotone(g.codes, CountersOf(userId), g.codes, GrantsOf(userId));
  }

  lemma {:induction false} OwnedAreBound(
    devices: map<string, Device>, codes: map<string, Code>, bindings: map<string, string>, userId: string)
    requires forall id :: id in bindings ==>
               id in devices && bindings[id] in codes && devices[id].owner == Some(codes[bindings[id]].userId)
    requires forall id :: id in devices && devices[id].owner.Some? ==> id in bindings
    ensures Sum(devices, OwnedBy(userId)) == Sum(bindings, BoundForUser(codes, userId))
    decreases |devices|
  {
    if devices == map[] {
      assert bindings == map[];
    } else {
      var id :| id in devices;
      SumRemove(devices, OwnedBy(userId), id);
      OwnedAreBound(devices - {id}, codes, bindings - {id}, userId);
      if id in bindings {
        SumRemove(bindings, BoundForUser(codes, userId), id);
      } else {
        assert bindings - {id} == bindings;
      }
    }
  }
}
