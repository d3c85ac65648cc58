/**
 * The in-memory store and its commands as they run: each works directly on the shared maps, checks and writes in the
 * order the program does, and rolls nothing back. Loops over a map visit its keys in any order.
 */
module MemoryStore {
  import opened Collections
  import opened Tables
  import opened LeaseTable
  import opened Activation
  import opened ModelPool
  import opened Leasing
  import opened LeaseSafety
  import opened Progress
  import opened ControlPlane
  import Ordering

  /** The least open code, however it was found, is the one the specification chooses. */
  lemma LeastOpenIsChosen(codes: map<string, Code>, userId: string, product: Product, now: int, k: Ordering.Key)
    requires Ordering.IsLeast(k, OpenKeys(codes, userId, product, now))
    ensures SelectCode(codes, userId, product, now) == Chosen(k.id)
  {
    var keys := OpenKeys(codes, userId, product, now);
    Ordering.LeastIsThere(keys);
    var other :| Ordering.IsLeast(other, keys) && SelectCode(codes, userId, product, now) == Chosen(other.id);
    Ordering.LeastUnique(k, other, keys);
  }

  /** What the selection answers after its scan of the codes. */
  function Best(candidates: seq<Ordering.Key>, hasCurrent: bool, hasExpired: bool): Choice {
    if |candidates| > 0 then
      Ordering.SortElements(candidates);
      Chosen(Ordering.Sort(candidates)[0].id)
    else if hasCurrent then Refused(DeviceLimitExceeded)
    else if hasExpired then Refused(AccountActivationExpired)
    else Refused(AccountActivationRequired)
  }

  lemma ScanChooses(
    codes: map<string, Code>, userId: string, product: Product, now: int, candidates: seq<Ordering.Key>,
    hasCurrent: bool, hasExpired: bool)
    requires forall k :: k in candidates
              <==> k.id in codes && Open(codes[k.id], userId, product, now) && k == CodeKey(codes, k.id)
    requires hasCurrent <==> SomeCurrentGrant(codes, userId, product, now)
    requires hasExpired <==> exists id ::
              id in codes && Entitles(codes[id], userId, product) && !Current(codes[id], now)
    ensures Best(candidates, hasCurrent, hasExpired) == SelectCode(codes, userId, product, now)
  {
    var keys := OpenKeys(codes, userId, product, now);
    assert forall k :: k in keys <==> k in candidates;
    if |candidates| > 0 {
      hide Open, Entitles, Current;
      var sorted := Ordering.Sort(candidates);
      Ordering.SortElements(candidates);
      assert candidates[0] in candidates;
      Ordering.SortedFirstIsLeast(sorted, keys);
      LeastOpenIsChosen(codes, userId, product, now, sorted[0]);
    } else {
      assert keys == {};
    }
  }

  lemma LeastUsableIsSelected(pool: Pool, product: Product, provider: string, model: string, now: int, k: Ordering.Key)
    requires Ordering.IsLeast(k, UsableKeys(pool, product, provider, model, now))
    ensures ModelPool.SelectAccount(pool, product, provider, model, now) == Some(k.id)
  {
    var keys := UsableKeys(pool, product, provider, model, now);
    Ordering.LeastIsThere(keys);
    var other :| Ordering.IsLeast(other, keys)
        && ModelPool.SelectAccount(pool, product, provider, model, now) == Some(other.id);
    Ordering.LeastUnique(k, other, keys);
  }

  /** The keys of all eligible accounts, each listed. */
  ghost predicate ListsEligible(
    keys: seq<Ordering.Key>, pool: Pool, product: Product, provider: string, model: string, now: int) {
    forall k :: k in keys <==>
      k.id in pool.accounts && Eligible(pool, k.id, product, provider, model, now)
          && k == AccountKey(pool.accounts, k.id)
  }

  /** The first of the sorted eligible accounts that has room is the best usable one. */
  lemma FirstWithRoomIsLeast(
    sorted: seq<Ordering.Key>, i: nat, pool: Pool, product: Product, provider: string, model: string, now: int)
    requires Ordering.Sorted(sorted) && ListsEligible(sorted, pool, product, provider, model, now)
    requires i < |sorted| && HasRoom(pool, sorted[i].id) && forall j :: 0 <= j < i ==> !HasRoom(pool, sorted[j].id)
    ensures Ordering.IsLeast(sorted[i], UsableKeys(pool, product, provider, model, now))
  {
    hide Eligible, HasRoom;
    var keys := UsableKeys(pool, product, provider, model, now);
    assert sorted[i] in sorted;
    forall other | other in keys ensures Ordering.AtMost(sorted[i], other) {
      assert other in sorted;
      var j :| 0 <= j < |sorted| && sorted[j] == other;
    }
  }

  lemma EligibleIsThere(pool: Pool, id: string, product: Product, provider: string, model: string, now: int)
    requires Eligible(pool, id, product, provider, model, now)
    ensures id in pool.accounts
  {
  }

  lemma UsageNeedsLease(s: State, product: Product, userId: string, deviceId: string, input: CallInput)
    requires UsageRefusal(s, product, userId, deviceId, input).None?
    ensures input.leaseId in s.pool.leases
  {
  }

  /** The leases swept but for those still to be visited. */
  ghost function SweptBut(
    leases: map<string, Lease>, pending: set<string>, now: int, product: Option<Product>): map<string, Lease> {
    map id | id in leases :: if id in pending then leases[id] else Swept(leases[id], now, product)
  }

  lemma SweepOne(
    leases: map<string, Lease>, pending: set<string>, now: int, product: Option<Product>, id: string)
    requires id in pending && pending <= leases.Keys
    ensures var before := SweptBut(leases, pending, now, product);
            before[id] == leases[id]
            && SweptBut(leases, pending - {id}, now, product) == before[id := Swept(leases[id], now, product)]
            && (Swept(leases[id], now, product) == leases[id] ==>
                  SweptBut(leases, pending - {id}, now, product) == before)
  {
    hide Swept;
  }

  /** The device's leases released but for those still to be visited. */
  ghost function ReleasedBut(
    leases: map<string, Lease>, pending: set<string>, deviceId: string, now: int, product: Product)
    : map<string, Lease>
  {
    map id | id in leases ::
      if id !in pending && HeldBy(leases[id], deviceId, product) then ReleasedAt(leases[id], now) else leases[id]
  }

  lemma ReleaseOne(
    leases: map<string, Lease>, pending: set<string>, deviceId: string, now: int, product: Product, id: string)
    requires id in pending && pending <= leases.Keys
    ensures var before := ReleasedBut(leases, pending, deviceId, now, product);
            before[id] == leases[id]
            && ReleasedBut(leases, pending - {id}, deviceId, now, product)
               == if HeldBy(leases[id], deviceId, product) then before[id := ReleasedAt(leases[id], now)] else before
  {
    hide HeldBy, ReleasedAt;
  }

  class Store {
    var users: map<string, User>
    var memberships: map<string, Membership>
    var policies: map<string, Policy>
    var devices: map<string, Device>
    var codes: map<string, Code>
    var bindings: map<string, string>
    var accounts: map<string, Account>
    var leases: map<string, Lease>
    var usage: map<string, Usage>
    var tests: map<string, TestResult>
    var records: map<Scope, IdempotencyRecord>
    var sequences: map<string, nat>
    var recordedAt: map<Scope, int>

    ghost function PoolTables(): Pool
      reads this
    {
      Pool(accounts, leases, usage, tests)
    }

    /** The store's contents as the specification sees them. */
    ghost function Contents(): State
      reads this
    {
      State(People(users, memberships, policies), Grants(devices, codes, bindings), PoolTables(),
          Ledger(records, sequences, recordedAt))
    }

    constructor (people: People)
      ensures Contents() == State(people, Grants(map[], map[], map[]), Pool(map[], map[], map[], map[]),
                Ledger(map[], map[], map[]))
    {
      users, memberships, policies := people.users, people.memberships, people.policies;
      devices, codes, bindings := map[], map[], map[];
      accounts, leases, usage, tests := map[], map[], map[], map[];
      records, sequences, recordedAt := map[], map[], map[];
    }

    // --- shared steps --------------------------------------------------------------------------------------

    method NextIdentifier(prefix: string) returns (id: string)
      modifies this`sequences
      ensures id == NextId(old(Contents().ledger), prefix)
      ensures Contents().ledger == Bumped(old(Contents().ledger), prefix)
    {
      var n := if prefix in sequences then sequences[prefix] + 1 else 1;
      sequences := sequences[prefix := n];
      id := Identifier(prefix, n);
    }

    method Find(scope: Scope, digest: Fingerprint) returns (verdict: Verdict)
      ensures verdict == Lookup(Contents().ledger, scope, digest)
    {
      if scope in records {
        if records[scope].fingerprint != digest {
          return Reject(IdempotencyConflict);
        }
        return Repeat(records[scope].resourceId);
      }
      return Proceed;
    }

    method HasActiveProduct(userId: string, product: Product) returns (active: bool)
      ensures active <==> HasProduct(memberships, userId, product)
    {
      var hasMembership := false;
      var pending := memberships.Keys;
      while pending != {}
        invariant pending <= memberships.Keys
        invariant hasMembership <==> exists m :: m in memberships && m !in pending && memberships[m].userId == userId
        invariant forall m :: m in memberships && m !in pending ==> memberships[m] != Membership(userId, product, true)
        decreases |pending|
      {
        var m :| m in pending;
        pending := pending - {m};
        if memberships[m].userId == userId {
          hasMembership := true;
          if memberships[m].product == product && memberships[m].active {
            assert memberships[m] == Membership(userId, product, true);
            return true;
          }
        }
      }
      return !hasMembership && product == AutoLive;
    }

    method SelectActivationCode(userId: string, product: Product, now: int) returns (choice: Choice)
      ensures choice == SelectCode(codes, userId, product, now)
    {
      var candidates: seq<Ordering.Key> := [];
      var hasExpired, hasCurrent := false, false;
      var pending := codes.Keys;
      while pending != {}
        invariant pending <= codes.Keys
        invariant forall k :: k in candidates <==>
                    k.id in codes && k.id !in pending && Open(codes[k.id], userId, product, now)
                        && k == CodeKey(codes, k.id)
        invariant hasCurrent <==> exists id ::
                  id in codes && id !in pending && Entitles(codes[id], userId, product) && Current(codes[id], now)
        invariant hasExpired <==> exists id ::
                  id in codes && id !in pending && Entitles(codes[id], userId, product) && !Current(codes[id], now)
        decreases |pending|
      {
        var id :| id in pending;
        pending := pending - {id};
        var code := codes[id];
        if code.userId == userId && code.product == product && code.status != CodeRevoked {
          if code.expiresAt <= now {
            hasExpired := true;
          } else {
            hasCurrent := true;
            if code.maxDevices > 0 && code.boundDevices < code.maxDevices {
              candidates := candidates + [Ordering.Key(code.expiresAt, id)];
            }
          }
        }
      }
      choice := Best(candidates, hasCurrent, hasExpired);
      ScanChooses(codes, userId, product, now, candidates, hasCurrent, hasExpired);
    }

    method SweepExpired(now: int, product: Option<Product>)
      modifies this`leases
      ensures leases == Sweep(old(leases), now, product)
    {
      ghost var before := leases;
      var pending := leases.Keys;
      while pending != {}
        invariant pending <= before.Keys
        invariant leases == SweptBut(before, pending, now, product)
        decreases |pending|
      {
        var id :| id in pending;
        SweepOne(before, pending, now, product, id);
        pending := pending - {id};
        var lease := leases[id];
        if (product.None? || lease.product == product.value) && lease.status == LeaseActive && lease.expiresAt <= now {
          lease := lease.(status := LeaseExpired);
          if lease.releasedAt.None? {
            lease := lease.(releasedAt := Some(now));
          }
          leases := leases[id := lease];
        }
      }
      assert leases == Sweep(before, now, product);
    }

    method ReleaseDeviceLeases(deviceId: string, now: int, product: Product)
      modifies this`leases
      ensures leases == ReleaseForDevice(old(leases), deviceId, now, product)
    {
      ghost var before := leases;
      var pending := leases.Keys;
      while pending != {}
        invariant pending <= before.Keys
        invariant leases == ReleasedBut(before, pending, deviceId, now, product)
        decreases |pending|
      {
        var id :| id in pending;
        ReleaseOne(before, pending, deviceId, now, product, id);
        pending := pending - {id};
        var lease := leases[id];
        if lease.product == product && lease.deviceId == deviceId && lease.status == LeaseActive {
          leases := leases[id := lease.(status := LeaseReleased, releasedAt := Some(now))];
        }
      }
      assert leases == ReleaseForDevice(before, deviceId, now, product);
    }

    method CountActiveLeases(accountId: string) returns (count: nat)
      ensures count == ActiveCount(leases, accountId)
    {
      count := 0;
      var pending := leases.Keys;
      ghost var rest := leases;
      while pending != {}
        invariant pending == rest.Keys && pending <= leases.Keys && forall id :: id in rest ==> rest[id] == leases[id]
        invariant count + Sum(rest, ActiveOn(accountId)) == ActiveCount(leases, accountId)
        decreases |pending|
      {
        var id :| id in pending;
        SumRemove(rest, ActiveOn(accountId), id);
        rest := rest - {id};
        pending := pending - {id};
        if leases[id].accountId == accountId && leases[id].status == LeaseActive {
          count := count + 1;
        }
      }
      SumZero(rest, ActiveOn(accountId));
    }

    method AccountTokensUsed(accountId: string, now: int, product: Option<Product>) returns (used: nat)
      ensures used == AccountDayTotal(usage, leases, accountId, Day(now), product)
    {
      used := 0;
      var pending := usage.Keys;
      ghost var rest := usage;
      ghost var weight := AccountTokens(leases, accountId, Day(now), product);
      while pending != {}
        invariant pending == rest.Keys && pending <= usage.Keys && forall id :: id in rest ==> rest[id] == usage[id]
        invariant used + Sum(rest, weight) == AccountDayTotal(usage, leases, accountId, Day(now), product)
        decreases |pending|
      {
        var id :| id in pending;
        SumRemove(rest, weight, id);
        rest := rest - {id};
        pending := pending - {id};
        var u := usage[id];
        if u.leaseId in leases && leases[u.leaseId].accountId == accountId
           && (product.None? || u.product == product.value) && Day(u.createdAt) == Day(now) {
          used := used + u.call.totalTokens;
        }
      }
      SumZero(rest, weight);
    }

    method UserTokensUsed(userId: string, now: int, product: Product) returns (used: nat)
      ensures used == UserDayTotal(usage, leases, userId, Day(now), product)
    {
      used := 0;
      var pending := usage.Keys;
      ghost var rest := usage;
      ghost var weight := UserTokens(leases, userId, Day(now), product);
      while pending != {}
        invariant pending == rest.Keys && pending <= usage.Keys && forall id :: id in rest ==> rest[id] == usage[id]
        invariant used + Sum(rest, weight) == UserDayTotal(usage, leases, userId, Day(now), product)
        decreases |pending|
      {
        var id :| id in pending;
        SumRemove(rest, weight, id);
        rest := rest - {id};
        pending := pending - {id};
        var u := usage[id];
        if u.leaseId in leases && leases[u.leaseId].userId == userId
           && (u.product == product || leases[u.leaseId].product == product) && Day(u.createdAt) == Day(now) {
          used := used + u.call.totalTokens;
        }
      }
      SumZero(rest, weight);
    }

    /** `order` is the order in which this iteration happens to visit the test results. */
    method LatestResult(order: seq<string>, accountId: string) returns (latest: Option<TestResult>)
      ensures latest == LatestAlong(order, tests, accountId)
    {
      latest := None;
      for i := 0 to |order|
        invariant latest == LatestAlong(order[..i], tests, accountId)
      {
        assert order[..i + 1][..i] == order[..i];
        var id := order[i];
        if id in tests && tests[id].accountId == accountId
            && (latest.None? || latest.value.testedAt < tests[id].testedAt) {
          latest := Some(tests[id]);
        }
      }
      assert order[..|order|] == order;
    }

    method RefreshedStatus(id: string, order: seq<string>, now: int) returns (a: Account)
      requires id in accounts
      ensures a == RefreshedAccount(accounts[id], UsedToday(PoolTables(), id, now), LatestAlong(order, tests, id), now)
    {
      a := accounts[id];
      if a.status == AccountDisabled {
        return;
      }
      var used := AccountTokensUsed(id, now, None);
      match a.status {
        case AccountActive =>
          if a.dailyLimit > 0 && used >= a.dailyLimit { a := a.(status := Exhausted); }
        case Exhausted =>
          if a.dailyLimit > 0 && used < a.dailyLimit { a := a.(status := AccountActive); }
        case Cooldown =>
          var until := a.cooldownUntil;
          if until.None? {
            var latest := LatestResult(order, id);
            if latest.Some? && (latest.value.status == ProbeFailed || latest.value.status == ProbeTimeout) {
              until := Some(latest.value.testedAt + COOLDOWN_SECONDS);
            }
          }
          if until.Some? && until.value <= now { a := a.(status := AccountActive, cooldownUntil := None); }
        case AccountDisabled =>
      }
      if a.status == AccountActive && a.dailyLimit > 0 && used >= a.dailyLimit {
        a := a.(status := Exhausted);
      }
    }

    method RefreshStatuses(order: seq<string>, now: int)
      modifies this`accounts
      ensures accounts == RefreshedAccounts(old(PoolTables()), order, now)
    {
      hide RefreshedAccount, LatestAlong, AccountDayTotal;
      ghost var before := accounts;
      var pending := accounts.Keys;
      while pending != {}
        invariant pending <= before.Keys && accounts.Keys == before.Keys
        invariant forall id :: id in before ==>
                    accounts[id] == if id in pending then before[id]
                                    else RefreshedAccount(before[id],
                                        AccountDayTotal(usage, leases, id, Day(now), None),
                                            LatestAlong(order, tests, id), now)
        decreases |pending|
      {
        var id :| id in pending;
        pending := pending - {id};
        var a := RefreshedStatus(id, order, now);
        accounts := accounts[id := a];
      }
    }

    /** The eligible accounts, best first. */
    method SortedEligible(
      product: Product, provider: string, model: string, now: int) returns (sorted: seq<Ordering.Key>)
      ensures Ordering.Sorted(sorted) && ListsEligible(sorted, PoolTables(), product, provider, model, now)
    {
      var candidates: seq<Ordering.Key> := [];
      var pending := accounts.Keys;
      while pending != {}
        invariant pending <= accounts.Keys
        invariant forall k :: k in candidates <==>
                    && k.id in accounts && k.id !in pending
                        && Eligible(PoolTables(), k.id, product, provider, model, now)
                    && k == AccountKey(accounts, k.id)
        decreases |pending|
      {
        var id :| id in pending;
        pending := pending - {id};
        var a := accounts[id];
        if a.product == product && a.provider == provider && a.model == model && a.status == AccountActive
            && Trim(a.secretRef) != "" {
          var used := AccountTokensUsed(id, now, None);
          if !(a.dailyLimit > 0 && used >= a.dailyLimit) {
            candidates := candidates + [Ordering.Key(-a.priority, id)];
          }
        }
      }
      sorted := Ordering.Sort(candidates);
      Ordering.SortElements(candidates);
    }

    method SelectAccount(
      product: Product, provider: string, model: string, order: seq<string>, now: int) returns (choice: Option<string>)
      modifies this`accounts
      ensures accounts == RefreshedAccounts(old(PoolTables()), order, now)
      ensures choice == ModelPool.SelectAccount(PoolTables(), product, provider, model, now)
    {
      hide Eligible;
      RefreshStatuses(order, now);
      var sorted := SortedEligible(product, provider, model, now);
      ghost var pool := PoolTables();
      for i := 0 to |sorted|
        invariant PoolTables() == pool
        invariant forall j :: 0 <= j < i ==> !HasRoom(PoolTables(), sorted[j].id)
      {
        assert sorted[i] in sorted;
        var count := CountActiveLeases(sorted[i].id);
        if count < accounts[sorted[i].id].concurrencyLimit {
          FirstWithRoomIsLeast(sorted, i, PoolTables(), product, provider, model, now);
          LeastUsableIsSelected(PoolTables(), product, provider, model, now, sorted[i]);
          return Some(sorted[i].id);
        }
      }
      assert UsableKeys(PoolTables(), product, provider, model, now) == {};
      return None;
    }

    // --- activation codes and devices ----------------------------------------------------------------------

    method CreateCode(
      now: int, product: Product, strict: bool, key: string, input: CodeInput, token: Option<string>)
      returns (reply: Reply)
      modifies this
      ensures (Contents(), reply) == Activation.CreateCode(old(Contents()), now, product, strict, key, input, token)
    {
      hide ValidKey, HasProduct, Identifier, Lookup, Bumped, ValidId;
      if !ValidKey(key) { return Failed(IdempotencyKeyRequired); }
      if !ValidCodeInput(input, now) { return Failed(InvalidRequest); }
      var scope := CreateCodeScope(key, StrictScope(strict, product));
      var verdict := Find(scope, CodePrint(product, input));
      match verdict {
        case Reject(error) => return Failed(error);
        case Repeat(id) => return if id in codes then CodeReply(codes[id]) else Failed(ActivationCodeNotFound);
        case Proceed =>
      }
      if input.userId !in users { return Failed(UserNotFound); }
      if users[input.userId].status != UserActive { return Failed(UserIsDisabled); }
      var active := HasActiveProduct(input.userId, product);
      if !active { return Failed(Forbidden); }
      var id := NextIdentifier("ac");
      if token.None? { return Failed(RandomGenerationFailed); }
      codes := codes[id := Code(input.userId, product, CodeActive, input.expiresAt, input.maxDevices, 0,
          Some(token.value), None)];
      records := records[scope := IdempotencyRecord(CodePrint(product, input), id)];
      return CodeReply(codes[id]);
    }

    method RevokeCode(product: Product, strict: bool, key: string, codeId: string) returns (reply: Reply)
      modifies this
      ensures (Contents(), reply) == Activation.RevokeCode(old(Contents()), product, strict, key, codeId)
    {
      hide ValidKey;
      if !ValidKey(key) { return Failed(IdempotencyKeyRequired); }
      if codeId == "" { return Failed(ActivationCodeNotFound); }
      var scope := RevokeCodeScope(key, StrictScope(strict, product));
      var verdict := Find(scope, RevokePrint(codeId, product));
      match verdict {
        case Reject(error) => return Failed(error);
        case Repeat(id) => return if id in codes then CodeReply(codes[id].(plain := None))
          else Failed(ActivationCodeNotFound);
        case Proceed =>
      }
      if codeId !in codes { return Failed(ActivationCodeNotFound); }
      var code := codes[codeId];
      if strict && code.product != product { return Failed(Forbidden); }
      if code.status != CodeActive && code.status != CodeUsed
          && code.status != CodeRevoked { return Failed(ActivationCodeStateConflict); }
      code := code.(status := CodeRevoked, plain := None);
      codes := codes[codeId := code];
      records := records[scope := IdempotencyRecord(RevokePrint(codeId, product), codeId)];
      return CodeReply(code);
    }

    method ListCodes(now: int, product: Option<Product>)
      modifies this`codes
      ensures Contents() == Activation.ListCodes(old(Contents()), now, product)
    {
      ghost var before := codes;
      var pending := codes.Keys;
      while pending != {}
        invariant pending <= before.Keys && codes.Keys == before.Keys
        invariant forall id :: id in before ==>
                  codes[id] == if id in pending then before[id] else Lapsed(before[id], now, product)
        decreases |pending|
      {
        var id :| id in pending;
        pending := pending - {id};
        var code := codes[id];
        if (product.None? || code.product == product.value) && code.status == CodeActive && code.expiresAt <= now {
          codes := codes[id := code.(status := CodeExpired)];
        }
      }
      assert codes == map id | id in before :: Lapsed(before[id], now, product);
    }

    /** The last part of an activation: leave the old code, take the device and the new code. */
    method BindDevice(now: int, userId: string, input: ActivateInput, codeId: string) returns (device: Device)
      requires codeId in codes
      modifies this`codes, this`devices, this`bindings
      ensures Contents().grants == BindTo(old(Contents().grants), now, userId, input, codeId)
      ensures device == Activated(now, userId, input, old(codes[codeId]))
    {
      var id, code := input.deviceId, codes[codeId];
      if id in bindings && bindings[id] != codeId && bindings[id] in codes {
        var left := codes[bindings[id]];
        if left.boundDevices > 0 {
          left := left.(boundDevices := left.boundDevices - 1);
        }
        codes := codes[bindings[id] := left];
      }
      device := Device(Some(userId), input.product,
          Profile(Trim(input.profile.name), Trim(input.profile.platform), Trim(input.profile.appVersion)),
                       DeviceActive, now, code.expiresAt);
      devices := devices[id := device];
      bindings := bindings[id := codeId];
      code := code.(boundDevices := code.boundDevices + 1);
      if code.boundDevices >= code.maxDevices {
        code := code.(status := CodeUsed);
      } else {
        code := code.(status := CodeActive);
      }
      code := code.(plain := None);
      if code.firstUse.None? {
        code := code.(firstUse := Some(FirstUse(userId, id, now)));
      }
      codes := codes[codeId := code];
    }

    /** Everything an activation checks before it looks for a code. */
    method CheckActivation(key: string, userId: string, input: ActivateInput) returns (verdict: Verdict)
      ensures verdict == ActivateVerdict(Contents(), key, userId, input)
    {
      hide ValidKey, HasProduct, ValidActivation;
      if !ValidKey(key) { return Reject(IdempotencyKeyRequired); }
      if !ValidActivation(input) { return Reject(InvalidRequest); }
      verdict := Find(ActivateScope(userId, key), ActivatePrint(userId, input));
      if !verdict.Proceed? { return; }
      if userId !in users { return Reject(UserNotFound); }
      if users[userId].status != UserActive { return Reject(UserIsDisabled); }
      var active := HasActiveProduct(userId, input.product);
      if !active { return Reject(Forbidden); }
      if input.deviceId in devices {
        var device := devices[input.deviceId];
        if device.product != input.product { return Reject(Forbidden); }
        if device.status != PendingActivation || device.owner.Some? {
          if device.status == DeviceDisabled && device.owner == Some(userId) { return Reject(DeviceIsDisabled); }
          if device.owner != Some(userId) { return Reject(DeviceBindingConflict); }
        }
      }
      return Proceed;
    }

    method Activate(now: int, key: string, userId: string, input: ActivateInput) returns (reply: Reply)
      modifies this
      ensures (Contents(), reply) == Activation.Activate(old(Contents()), now, key, userId, input)
    {
      hide SelectCode, BindTo, Activated, ActivateVerdict, Open;
      var scope, digest, id := ActivateScope(userId, key), ActivatePrint(userId, input), input.deviceId;
      var verdict := CheckActivation(key, userId, input);
      match verdict {
        case Reject(error) => return Failed(error);
        case Repeat(known) => return if known in devices then DeviceReply(devices[known]) else Failed(DeviceNotFound);
        case Proceed =>
      }
      if id in devices && !(devices[id].status == PendingActivation && devices[id].owner.None?) && id in bindings
          && bindings[id] in codes {
        var device, code := devices[id], codes[bindings[id]];
        if code.userId == userId && code.product == input.product && now < code.expiresAt {
          device := device.(
            profile := Profile(Trim(input.profile.name), Trim(input.profile.platform), Trim(input.profile.appVersion)),
            activationExpiresAt := code.expiresAt);
          devices := devices[id := device];
          records := records[scope := IdempotencyRecord(digest, id)];
          return DeviceReply(device);
        }
      }
      ChoiceIsEarliest(codes, userId, input.product, now);
      var choice := SelectActivationCode(userId, input.product, now);
      match choice {
        case Refused(error) => return Failed(error);
        case Chosen(codeId) =>
          var device := BindDevice(now, userId, input, codeId);
          records := records[scope := IdempotencyRecord(digest, id)];
          return DeviceReply(device);
      }
    }

    method DisableDevice(now: int, product: Product, key: string, deviceId: string) returns (reply: Reply)
      modifies this
      ensures (Contents(), reply) == Activation.DisableDevice(old(Contents()), now, product, key, deviceId)
    {
      hide ValidKey, ReleaseForDevice;
      if !ValidKey(key) { return Failed(IdempotencyKeyRequired); }
      if deviceId !in devices { return Failed(DeviceNotFound); }
      var device := devices[deviceId];
      if device.product != product { return Failed(Forbidden); }
      var scope, digest := DisableDeviceScope(deviceId, key, product), DevicePrint(deviceId, product);
      var verdict := Find(scope, digest);
      match verdict {
        case Reject(error) => return Failed(error);
        case Repeat(_) =>
          ReleaseDeviceLeases(deviceId, now, product);
          return DeviceReply(device);
        case Proceed =>
      }
      if device.status == DeviceDisabled {
        ReleaseDeviceLeases(deviceId, now, product);
        records := records[scope := IdempotencyRecord(digest, deviceId)];
        assert devices[deviceId := device.(status := DeviceDisabled)] == devices;
        return DeviceReply(device);
      }
      device := device.(status := DeviceDisabled);
      ReleaseDeviceLeases(deviceId, now, product);
      devices := devices[deviceId := device];
      records := records[scope := IdempotencyRecord(digest, deviceId)];
      return DeviceReply(device);
    }

    /** Takes the device off its code and its owner off the device. */
    method DetachDevice(deviceId: string) returns (device: Device)
      requires deviceId in devices
      modifies this`codes, this`devices, this`bindings
      ensures Contents().grants == Detached(old(Contents().grants), deviceId)
      ensures device == Unbound(old(devices[deviceId]))
    {
      if deviceId in bindings && bindings[deviceId] in codes {
        var code := codes[bindings[deviceId]];
        if code.boundDevices > 0 {
          code := code.(boundDevices := code.boundDevices - 1);
        }
        if code.status == CodeUsed && code.boundDevices < code.maxDevices {
          code := code.(status := CodeActive);
        }
        codes := codes[bindings[deviceId] := code];
      }
      bindings := bindings - {deviceId};
      device := devices[deviceId].(owner := None, status := PendingActivation);
      devices := devices[deviceId := device];
    }

    method UnbindDevice(now: int, product: Product, key: string, deviceId: string) returns (reply: Reply)
      modifies this
      ensures (Contents(), reply) == Activation.UnbindDevice(old(Contents()), now, product, key, deviceId)
    {
      hide ValidKey, ReleaseForDevice, Detached;
      if !ValidKey(key) { return Failed(IdempotencyKeyRequired); }
      if deviceId !in devices { return Failed(DeviceNotFound); }
      var device := devices[deviceId];
      if device.product != product { return Failed(Forbidden); }
      var scope, digest := UnbindScope(deviceId, key, product), DevicePrint(deviceId, product);
      var verdict := Find(scope, digest);
      match verdict {
        case Reject(error) => return Failed(error);
        case Repeat(_) =>
          ReleaseDeviceLeases(deviceId, now, product);
          return DeviceReply(device);
        case Proceed =>
      }
      ReleaseDeviceLeases(deviceId, now, product);
      device := DetachDevice(deviceId);
      records := records[scope := IdempotencyRecord(digest, deviceId)];
      return DeviceReply(device);
    }

    // --- accounts ------------------------------------------------------------------------------------------

    method CreateAccount(
      product: Product, key: string, input: AccountInput, urlAccepted: bool, stored: bool) returns (reply: Reply)
      requires Issued(accounts.Keys, "mpa", Counter(Contents().ledger, "mpa"))
      modifies this
      ensures (Contents(), reply) == ModelPool.CreateAccount(old(Contents()), product, key, input, urlAccepted, stored)
    {
      hide ValidKey, Identifier, Issued;
      NextIdFresh(accounts.Keys, "mpa", Counter(Contents().ledger, "mpa"));
      if !ValidKey(key) { return Failed(IdempotencyKeyRequired); }
      if !ValidAccountInput(input, urlAccepted) { return Failed(InvalidRequest); }
      var scope, digest := CreateAccountScope(key), AccountPrint(product, input);
      var verdict := Find(scope, digest);
      match verdict {
        case Reject(error) => return Failed(error);
        case Repeat(id) => return if id in accounts then AccountReply(accounts[id]) else Failed(InvalidRequest);
        case Proceed =>
      }
      var id := NextIdentifier("mpa");
      var account := Account(product, input.provider, input.model, input.baseUrl, input.status, input.priority,
                             input.dailyLimit, input.concurrencyLimit, "model-account/" + id, None);
      accounts := accounts[id := account];
      if !stored {
        accounts := accounts - {id};
        assert accounts == old(accounts);
        return Failed(SecretStoreUnavailable);
      }
      records := records[scope := IdempotencyRecord(digest, id)];
      return AccountReply(account);
    }

    method CheckEdit(product: Product, accountId: string, edit: AccountEdit) returns (refusal: Option<Error>)
      requires accountId in accounts
      ensures refusal == EditRefusal(PoolTables(), product, accountId, edit)
    {
      if accounts[accountId].product != product { return Some(Forbidden); }
      var active := CountActiveLeases(accountId);
      if edit.status == Some(AccountDisabled) && active > 0 { return Some(ModelPoolAccountInUse); }
      if edit.concurrencyLimit.Some?
          && active > edit.concurrencyLimit.value { return Some(ModelPoolConcurrencyConflict); }
      return None;
    }

    static method ApplyEdit(a: Account, edit: AccountEdit) returns (account: Account)
      requires edit.dailyLimit.Some? ==> 0 <= edit.dailyLimit.value
      requires edit.concurrencyLimit.Some? ==> 1 <= edit.concurrencyLimit.value
      ensures account == Edited(a, edit)
    {
      account := a;
      if edit.baseUrl.Some? { account := account.(baseUrl := edit.baseUrl.value); }
      if edit.priority.Some? { account := account.(priority := edit.priority.value); }
      if edit.dailyLimit.Some? { account := account.(dailyLimit := edit.dailyLimit.value); }
      if edit.concurrencyLimit.Some? { account := account.(concurrencyLimit := edit.concurrencyLimit.value); }
      if edit.status.Some? {
        account := account.(status := edit.status.value);
        if edit.status.value != Cooldown { account := account.(cooldownUntil := None); }
      }
    }

    method UpdateAccount(
      now: int, product: Product, key: string, accountId: string, edit: AccountEdit, urlAccepted: bool)
      returns (reply: Reply)
      modifies this
      ensures (Contents(), reply)
                == ModelPool.UpdateAccount(old(Contents()), now, product, key, accountId, edit, urlAccepted)
    {
      hide ValidKey, Sweep, EditRefusal, Edited;
      if !ValidKey(key) { return Failed(IdempotencyKeyRequired); }
      if accountId == "" { return Failed(ModelPoolAccountNotFound); }
      if !ValidEdit(edit, urlAccepted) { return Failed(InvalidRequest); }
      var scope, digest := UpdateAccountScope(key), EditPrint(accountId, product, edit);
      var verdict := Find(scope, digest);
      match verdict {
        case Reject(error) => return Failed(error);
        case Repeat(id) => return if id in accounts then AccountReply(accounts[id])
          else Failed(ModelPoolAccountNotFound);
        case Proceed =>
      }
      if accountId !in accounts { return Failed(ModelPoolAccountNotFound); }
      var account := accounts[accountId];
      SweepExpired(now, Some(product));
      var refusal := CheckEdit(product, accountId, edit);
      if refusal.Some? { return Failed(refusal.value); }
      account := ApplyEdit(account, edit);
      accounts := accounts[accountId := account];
      records := records[scope := IdempotencyRecord(digest, accountId)];
      return AccountReply(account);
    }

    method DisableAccount(now: int, product: Product, key: string, accountId: string) returns (reply: Reply)
      modifies this
      ensures (Contents(), reply) == ModelPool.DisableAccount(old(Contents()), now, product, key, accountId)
    {
      hide ValidKey, Sweep, ActiveCount;
      if !ValidKey(key) { return Failed(IdempotencyKeyRequired); }
      if accountId == "" { return Failed(ModelPoolAccountNotFound); }
      var scope, digest := DisableAccountScope(key), DisableAccountPrint(accountId, product);
      var verdict := Find(scope, digest);
      match verdict {
        case Reject(error) => return Failed(error);
        case Repeat(id) => return if id in accounts then AccountReply(accounts[id])
          else Failed(ModelPoolAccountNotFound);
        case Proceed =>
      }
      SweepExpired(now, Some(product));
      if accountId !in accounts { return Failed(ModelPoolAccountNotFound); }
      var account := accounts[accountId];
      if account.product != product { return Failed(Forbidden); }
      var active := CountActiveLeases(accountId);
      if active > 0 { return Failed(ModelPoolAccountInUse); }
      account := account.(status := AccountDisabled);
      accounts := accounts[accountId := account];
      records := records[scope := IdempotencyRecord(digest, accountId)];
      return AccountReply(account);
    }

    method ListAccounts(now: int, order: seq<string>)
      modifies this
      ensures Contents() == ModelPool.ListAccounts(old(Contents()), now, order)
    {
      hide Sweep, RefreshedAccounts;
      SweepExpired(now, None);
      RefreshStatuses(order, now);
    }

    method RecordTest(
      product: Product, key: string, accountId: string, timeoutSeconds: int, result: TestResult) returns (reply: Reply)
      modifies this
      ensures (Contents(), reply)
                == ModelPool.RecordTest(old(Contents()), product, key, accountId, timeoutSeconds, result)
    {
      hide Identifier, Lookup, Bumped;
      var scope, digest := TestScope(accountId, key), TestPrint(accountId, product, timeoutSeconds);
      var verdict := Find(scope, digest);
      match verdict {
        case Reject(error) => return Failed(error);
        case Repeat(id) => return TestReply(if id in tests then tests[id] else result);
        case Proceed =>
      }
      var id := NextIdentifier("model_test");
      tests := tests[id := result];
      if accountId in accounts && accounts[accountId].status != AccountDisabled {
        var account := accounts[accountId];
        if result.status == ProbeSucceeded {
          account := account.(status := AccountActive, cooldownUntil := None);
        } else {
          account := account.(status := Cooldown, cooldownUntil := Some(result.testedAt + COOLDOWN_SECONDS));
        }
        accounts := accounts[accountId := account];
      }
      records := records[scope := IdempotencyRecord(digest, id)];
      assert accountId in old(accounts) && old(accounts)[accountId].status == AccountDisabled ==>
          old(accounts)[accountId := old(accounts)[accountId]] == old(accounts);
      return TestReply(result);
    }

    // --- leases --------------------------------------------------------------------------------------------

    /** What every lease command checks about the user and the device. */
    method CheckGate(userId: string, deviceId: string, product: Product) returns (refusal: Option<Error>)
      ensures refusal == Gate(Contents(), userId, deviceId, product)
    {
      if userId !in users { return Some(UserNotFound); }
      if users[userId].status != UserActive { return Some(UserIsDisabled); }
      if Trim(deviceId) == "" { return Some(DeviceBindingRequired); }
      if deviceId !in devices || devices[deviceId].owner != Some(userId) { return Some(DeviceNotFound); }
      if devices[deviceId].status != DeviceActive { return Some(DeviceIsDisabled); }
      if devices[deviceId].product != product { return Some(Forbidden); }
      return None;
    }

    method CheckPolicy(now: int, product: Product, userId: string, input: LeaseInput) returns (refusal: Option<Error>)
      ensures refusal == PolicyRefusal(Contents(), now, product, userId, input)
    {
      if userId in policies {
        var policy := policies[userId];
        if |policy.allowedModels| > 0
            && input.provider + "/" + input.model !in policy.allowedModels { return Some(UserModelNotAuthorized); }
        if policy.dailyTokenLimit > 0 {
          var used := UserTokensUsed(userId, now, product);
          if used >= policy.dailyTokenLimit { return Some(UserRecordedQuotaExceeded); }
        }
      }
      return None;
    }

    method CreateLease(
      now: int, product: Product, key: string, userId: string, deviceId: string, raw: LeaseInput, order: seq<string>,
      secretFound: bool)
      returns (reply: Reply)
      modifies this
      ensures (Contents(), reply)
                == Leasing.CreateLease(old(Contents()), now, product, key, userId, deviceId, raw, order, secretFound)
    {
      hide ValidKey, ValidLeaseInput, Gate, Sweep, PolicyRefusal, Leasing.Allocate, RefreshedAccounts;
      var input := LeaseDefaults(raw);
      if !ValidKey(key) { return Failed(IdempotencyKeyRequired); }
      if !ValidLeaseInput(input) { return Failed(InvalidRequest); }
      var refusal := CheckGate(userId, deviceId, product);
      if refusal.Some? { return Failed(refusal.value); }
      SweepExpired(now, Some(product));
      var verdict := Find(CreateLeaseScope(userId, deviceId, key, product),
          LeasePrint(userId, deviceId, product, input));
      match verdict {
        case Reject(error) => return Failed(error);
        case Repeat(id) => return if id in leases then LeaseReply(id, leases[id]) else Failed(ModelLeaseNotFound);
        case Proceed =>
      }
      refusal := CheckPolicy(now, product, userId, input);
      if refusal.Some? { return Failed(refusal.value); }
      reply := Allocate(now, product, key, userId, deviceId, input, order, secretFound);
    }

    /** Selects an account and writes the lease. */
    method Allocate(
      now: int, product: Product, key: string, userId: string, deviceId: string, input: LeaseInput,
      order: seq<string>, secretFound: bool)
      returns (reply: Reply)
      modifies this
      ensures (Contents(), reply)
                == Leasing.Allocate(old(Contents()), now, product, key, userId, deviceId, input, order, secretFound)
    {
      hide RefreshedAccounts, Identifier, Eligible, HasRoom;
      var choice := SelectAccount(product, input.provider, input.model, order, now);
      SelectedIsBest(PoolTables(), product, input.provider, input.model, now);
      if choice.None? { return Failed(ModelPoolUnavailable); }
      if !secretFound { return Failed(ModelPoolUnavailable); }
      assert choice.value in accounts by { EligibleIsThere(PoolTables(), choice.value, product, input.provider,
          input.model, now); }
      var account := accounts[choice.value];
      var id := NextIdentifier("lease");
      var lease := Lease(product, userId, deviceId, choice.value, input.purpose, account.provider, account.model,
          LeaseActive,
                         now, now + input.maxDurationSeconds, None, account.baseUrl, account.concurrencyLimit);
      leases := leases[id := lease];
      records := records[CreateLeaseScope(userId, deviceId, key,
          product) := IdempotencyRecord(LeasePrint(userId, deviceId, product, input), id)];
      return LeaseReply(id, lease);
    }

    /** The lease must exist and belong to the caller. */
    method CheckLease(
      leaseId: string, userId: string, deviceId: string, product: Product) returns (refusal: Option<Error>)
      ensures refusal == LeaseRefusal(PoolTables(), leaseId, userId, deviceId, product)
    {
      if leaseId !in leases { return Some(ModelLeaseNotFound); }
      var lease := leases[leaseId];
      if lease.userId != userId || lease.deviceId != deviceId { return Some(Forbidden); }
      if lease.product != product { return Some(Forbidden); }
      return None;
    }

    method RenewLease(
      now: int, product: Product, key: string, userId: string, deviceId: string, leaseId: string, rawExtend: int)
      returns (reply: Reply)
      modifies this
      ensures (Contents(), reply)
                == Leasing.RenewLease(old(Contents()), now, product, key, userId, deviceId, leaseId, rawExtend)
    {
      hide ValidKey, Gate, Sweep;
      var extend := if rawExtend == 0 then 300 else rawExtend;
      if !ValidKey(key) { return Failed(IdempotencyKeyRequired); }
      if extend < 30 || extend > 3600 { return Failed(InvalidRequest); }
      var refusal := CheckGate(userId, deviceId, product);
      if refusal.Some? { return Failed(refusal.value); }
      SweepExpired(now, Some(product));
      refusal := CheckLease(leaseId, userId, deviceId, product);
      if refusal.Some? { return Failed(refusal.value); }
      var lease := leases[leaseId];
      var scope, digest := RenewScope(leaseId, key, product), RenewPrint(userId, deviceId, product, leaseId, extend);
      var verdict := Find(scope, digest);
      match verdict {
        case Reject(error) => return Failed(error);
        case Repeat(_) => return LeaseReply(leaseId, lease);
        case Proceed =>
      }
      if lease.status != LeaseActive { return Failed(ModelLeaseStateConflict); }
      if lease.accountId !in accounts
          || accounts[lease.accountId].status != AccountActive { return Failed(ModelPoolUnavailable); }
      lease := lease.(expiresAt := lease.expiresAt + extend);
      leases := leases[leaseId := lease];
      records := records[scope := IdempotencyRecord(digest, leaseId)];
      return LeaseReply(leaseId, lease);
    }

    method ReleaseLease(
      now: int, product: Product, key: string, userId: string, deviceId: string, leaseId: string, rawReason: string)
      returns (reply: Reply)
      modifies this
      ensures (Contents(), reply)
                == Leasing.ReleaseLease(old(Contents()), now, product, key, userId, deviceId, leaseId, rawReason)
    {
      hide ValidKey, Gate, Sweep, Trim;
      var reason := Trim(rawReason);
      if !ValidKey(key) { return Failed(IdempotencyKeyRequired); }
      if |reason| > 255 { return Failed(InvalidRequest); }
      var refusal := CheckGate(userId, deviceId, product);
      if refusal.Some? { return Failed(refusal.value); }
      SweepExpired(now, Some(product));
      refusal := CheckLease(leaseId, userId, deviceId, product);
      if refusal.Some? { return Failed(refusal.value); }
      var lease := leases[leaseId];
      var scope, digest := ReleaseScope(leaseId, key, product),
          ReleasePrint(userId, deviceId, product, leaseId, reason);
      var verdict := Find(scope, digest);
      match verdict {
        case Reject(error) => return Failed(error);
        case Repeat(_) => return ReleasedReply(leaseId);
        case Proceed =>
      }
      if lease.status == LeaseActive {
        leases := leases[leaseId := lease.(status := LeaseReleased, releasedAt := Some(now))];
      }
      records := records[scope := IdempotencyRecord(digest, leaseId)];
      return ReleasedReply(leaseId);
    }

    method ReclaimLease(
      now: int, product: Product, key: string, leaseId: string, rawReason: string) returns (reply: Reply)
      modifies this
      ensures (Contents(), reply) == Leasing.ReclaimLease(old(Contents()), now, product, key, leaseId, rawReason)
    {
      hide ValidKey, Sweep, Trim;
      var reason := Trim(rawReason);
      if !ValidKey(key) { return Failed(IdempotencyKeyRequired); }
      if leaseId == "" || |reason| > 255 { return Failed(InvalidRequest); }
      if leaseId !in leases { return Failed(ModelLeaseNotFound); }
      var lease := leases[leaseId];
      if lease.product != product { return Failed(Forbidden); }
      SweepExpired(now, None);
      var scope, digest := ReclaimScope(leaseId, key, product), ReclaimPrint(leaseId, product, reason);
      var verdict := Find(scope, digest);
      match verdict {
        case Reject(error) => return Failed(error);
        case Repeat(_) => return ReleasedReply(leaseId);
        case Proceed =>
      }
      if lease.status == LeaseActive {
        leases := leases[leaseId := lease.(status := LeaseReleased, releasedAt := Some(now))];
      }
      records := records[scope := IdempotencyRecord(digest, leaseId)];
      return ReleasedReply(leaseId);
    }

    // --- usage ---------------------------------------------------------------------------------------------

    /** A stored record of the same call, if there is one. */
    method FindCall(leaseId: string, clientCallId: string) returns (found: Option<string>)
      ensures found.Some? ==> found.value in usage && SameCall(usage[found.value], leaseId, clientCallId)
      ensures found.None? <==> !Recorded(usage, leaseId, clientCallId)
    {
      var pending := usage.Keys;
      while pending != {}
        invariant pending <= usage.Keys
        invariant forall id :: id in usage && id !in pending ==> !SameCall(usage[id], leaseId, clientCallId)
        decreases |pending|
      {
        var id :| id in pending;
        pending := pending - {id};
        if usage[id].clientCallId == clientCallId && usage[id].leaseId == leaseId {
          return Some(id);
        }
      }
      return None;
    }

    method CheckCall(
      userId: string, deviceId: string, product: Product, input: CallInput) returns (refusal: Option<Error>)
      ensures refusal == UsageRefusal(Contents(), product, userId, deviceId, input)
    {
      if Trim(deviceId) == "" { return Some(DeviceBindingRequired); }
      if deviceId !in devices || devices[deviceId].owner != Some(userId) { return Some(DeviceNotFound); }
      if devices[deviceId].product != product { return Some(Forbidden); }
      refusal := CheckLease(input.leaseId, userId, deviceId, product);
      if refusal.Some? { return; }
      if leases[input.leaseId].provider != input.provider
          || leases[input.leaseId].model != input.model { return Some(InvalidRequest); }
    }

    method RecordUsage(
      now: int, product: Product, key: string, userId: string, deviceId: string, requestId: string, raw: CallInput)
      returns (reply: Reply)
      requires RecordedOnce(usage, leases)
      modifies this
      ensures (Contents(), reply)
                == Leasing.RecordUsage(old(Contents()), now, product, key, userId, deviceId, requestId, raw)
    {
      hide ValidKey, UsageRefusal, Leasing.Charge;
      if !ValidKey(key) { return Failed(IdempotencyKeyRequired); }
      if !ValidCall(raw) { return Failed(InvalidRequest); }
      var input := raw;
      if input.totalTokens == 0 { input := input.(totalTokens := input.inputTokens + input.outputTokens); }
      if input.totalTokens < input.inputTokens + input.outputTokens { return Failed(InvalidRequest); }
      var refusal := CheckCall(userId, deviceId, product, input);
      if refusal.Some? { return Failed(refusal.value); }
      assert input.leaseId in leases by { UsageNeedsLease(Contents(), product, userId, deviceId, input); }
      reply := Charge(now, product, key, userId, deviceId, requestId, input);
    }

    /** The part of a recording that follows the checks. */
    method Charge(
      now: int, product: Product, key: string, userId: string, deviceId: string, requestId: string, input: CallInput)
      returns (reply: Reply)
      requires ValidCall(input) && input.leaseId in leases && RecordedOnce(usage, leases)
      modifies this
      ensures (Contents(), reply)
                == Leasing.Charge(old(Contents()), now, product, key, userId, deviceId, requestId, input)
    {
      hide Identifier, Trim, ValidId, Charged, UserDayTotal, Day, Lookup, Bumped;
      var scope, digest := UsageScope(userId, deviceId, key, product), UsagePrint(userId, deviceId, product, input);
      var verdict := Find(scope, digest);
      match verdict {
        case Reject(error) => return Failed(error);
        case Repeat(id) => return if id in usage then UsageReply(usage[id]) else Failed(ModelLeaseNotFound);
        case Proceed =>
      }
      var known := FindCall(input.leaseId, input.clientCallId);
      if known.Some? {
        if usage[known.value].call != CallOf(input) { return Failed(IdempotencyConflict); }
        records := records[scope := IdempotencyRecord(digest, known.value)];
        return UsageReply(usage[known.value]);
      }
      if userId in policies && policies[userId].dailyTokenLimit > 0 {
        var used := UserTokensUsed(userId, now, product);
        if used >= policies[userId].dailyTokenLimit { return Failed(UserRecordedQuotaExceeded); }
      }
      var id := NextIdentifier("usage");
      var u := Usage(product, input.leaseId, input.clientCallId, Trim(requestId), CallOf(input), now);
      usage := usage[id := u];
      ChargeAccount(leases[input.leaseId].accountId, now, product);
      records := records[scope := IdempotencyRecord(digest, id)];
      return UsageReply(u);
    }

    method ChargeAccount(accountId: string, now: int, product: Product)
      modifies this`accounts
      ensures accounts == Charged(old(PoolTables()), accountId, now, product)
    {
      if accountId in accounts && accounts[accountId].dailyLimit > 0 {
        var used := AccountTokensUsed(accountId, now, Some(product));
        if used >= accounts[accountId].dailyLimit {
          accounts := accounts[accountId := accounts[accountId].(status := Exhausted)];
        }
      }
    }

    // --- every command -------------------------------------------------------------------------------------

    method ExecuteOnGrants(now: int, c: Command) returns (reply: Reply)
      requires OnGrants(c)
      modifies this
      ensures (Contents(), reply) == Serve(old(Contents()), now, c)
    {
      match c {
        case CreateCodeCommand(product, strict, key, code, token) =>
          reply := CreateCode(now, product, strict, key, code, token);
        case RevokeCodeCommand(product, strict, key, codeId) => reply := RevokeCode(product, strict, key, codeId);
        case ListCodesCommand(within) => ListCodes(now, within); reply := Done;
        case ActivateCommand(key, userId, activation) => reply := Activate(now, key, userId, activation);
        case DisableDeviceCommand(product, key, deviceId) => reply := DisableDevice(now, product, key, deviceId);
        case UnbindCommand(product, key, deviceId) => reply := UnbindDevice(now, product, key, deviceId);
      }
    }

    method ExecuteOnAccounts(now: int, c: Command) returns (reply: Reply)
      requires OnAccountTable(c) && Issued(accounts.Keys, "mpa", Counter(Contents().ledger, "mpa"))
      modifies this
      ensures (Contents(), reply) == Serve(old(Contents()), now, c)
    {
      hide Issued, ModelPool.CreateAccount, ModelPool.UpdateAccount, ModelPool.DisableAccount,
          ModelPool.ListAccounts, ModelPool.RecordTest;
      match c {
        case CreateAccountCommand(product, key, account, urlAccepted, stored) =>
          reply := CreateAccount(product, key, account, urlAccepted, stored);
        case UpdateAccountCommand(product, key, accountId, edit, urlAccepted) =>
          reply := UpdateAccount(now, product, key, accountId, edit, urlAccepted);
        case DisableAccountCommand(product, key, accountId) => reply := DisableAccount(now, product, key, accountId);
        case ListAccountsCommand(order) => ListAccounts(now, order); reply := Done;
        case RecordTestCommand(product, key, accountId, timeoutSeconds, result) =>
          reply := RecordTest(product, key, accountId, timeoutSeconds, result);
      }
    }

    method ExecuteOnLeases(now: int, c: Command) returns (reply: Reply)
      requires OnLeaseTable(c) && RecordedOnce(usage, leases)
      modifies this
      ensures (Contents(), reply) == Serve(old(Contents()), now, c)
    {
      hide RecordedOnce, ValidKey, Gate, Leasing.CreateLease, Leasing.RenewLease, Leasing.ReleaseLease,
          Leasing.ReclaimLease, Leasing.RecordUsage;
      match c {
        case CreateLeaseCommand(product, key, userId, deviceId, lease, order, secretFound) =>
          reply := CreateLease(now, product, key, userId, deviceId, lease, order, secretFound);
        case RenewCommand(product, key, userId, deviceId, leaseId, extendSeconds) =>
          reply := RenewLease(now, product, key, userId, deviceId, leaseId, extendSeconds);
        case ReleaseCommand(product, key, userId, deviceId, leaseId, reason) =>
          reply := ReleaseLease(now, product, key, userId, deviceId, leaseId, reason);
        case ReclaimCommand(product, key, leaseId, reason) => reply := ReclaimLease(now, product, key, leaseId, reason);
        case RecordUsageCommand(product, key, userId, deviceId, requestId, call) =>
          reply := RecordUsage(now, product, key, userId, deviceId, requestId, call);
      }
    }

    /** The retention pass over remembered requests; `chosen` is the batch of old ones it may take. */
    method CleanupIdempotencyRecords(cutoff: int, chosen: set<Scope>)
      modifies this`records
      ensures records == old(records) - chosen * OldRecords(old(Contents().ledger), cutoff)
    {
      ghost var before := Contents().ledger;
      var pending := records.Keys;
      while pending != {}
        invariant pending <= before.records.Keys && recordedAt == before.recordedAt
        invariant records == map scope | scope in before.records
                  && (scope in pending || scope !in chosen * OldRecords(before, cutoff)) :: before.records[scope]
        decreases |pending|
      {
        var scope :| scope in pending;
        pending := pending - {scope};
        if scope in chosen && scope in recordedAt && recordedAt[scope] < cutoff {
          records := records - {scope};
        }
      }
    }

    method CleanupModelPoolTestResults(cutoff: int, chosen: set<string>)
      modifies this`tests
      ensures tests == old(tests) - chosen * OldTests(old(tests), cutoff)
    {
      ghost var before := tests;
      var pending := tests.Keys;
      while pending != {}
        invariant pending <= before.Keys
        invariant tests == map id | id in before
                  && (id in pending || id !in chosen * OldTests(before, cutoff)) :: before[id]
        decreases |pending|
      {
        var id :| id in pending;
        pending := pending - {id};
        if id in chosen && tests[id].testedAt < cutoff {
          tests := tests - {id};
        }
      }
    }

    method DateNewRecords(now: int)
      modifies this`recordedAt
      ensures recordedAt == (map scope | scope in records :: now) + old(recordedAt)
    {
      ghost var before := recordedAt;
      var pending := records.Keys;
      while pending != {}
        invariant pending <= records.Keys
        invariant recordedAt == (map scope | scope in records && scope !in pending :: now) + before
        decreases |pending|
      {
        var scope :| scope in pending;
        pending := pending - {scope};
        if scope !in recordedAt {
          recordedAt := recordedAt[scope := now];
        }
      }
    }

    method DropDatesOfGone()
      modifies this`recordedAt
      ensures recordedAt == map scope | scope in old(recordedAt) && scope in records :: old(recordedAt)[scope]
    {
      ghost var before := recordedAt;
      var pending := recordedAt.Keys;
      while pending != {}
        invariant pending <= before.Keys
        invariant recordedAt == map scope | scope in before && (scope in pending || scope in records) :: before[scope]
        decreases |pending|
      {
        var scope :| scope in pending;
        pending := pending - {scope};
        if scope !in records {
          recordedAt := recordedAt - {scope};
        }
      }
    }

    /** What every transaction ends with: dating the new records, dropping the dates of those that are gone. */
    method SyncIdempotencyRecordCreated(now: int)
      modifies this`recordedAt
      ensures Contents() == old(Contents()).(ledger := Synced(old(Contents().ledger), now))
    {
      ghost var before := Contents().ledger;
      DateNewRecords(now);
      DropDatesOfGone();
      assert recordedAt == Synced(before, now).recordedAt;
    }

    method Prune(now: int, recordLife: int, testLife: int, scopes: set<Scope>, testIds: set<string>)
      modifies this`records, this`tests
      ensures Contents() == Pruned(old(Contents()), now, recordLife, testLife, scopes, testIds)
    {
      hide OldRecords, OldTests;
      if recordLife > 0 && testLife > 0 {
        CleanupIdempotencyRecords(now - recordLife, scopes);
        CleanupModelPoolTestResults(now - testLife, testIds);
      }
    }

    /** What the user-management commands and the retention passes write. */
    method ExecuteRest(now: int, c: Command) returns (reply: Reply)
      requires c.Administer? || c.Forget?
      modifies this
      ensures (Contents(), reply) == Serve(old(Contents()), now, c)
    {
      hide Pruned;
      match c {
        case Administer(people) => users, memberships, policies := people.users, people.memberships, people.policies;
        case Forget(recordLife, testLife, scopes, testIds) => Prune(now, recordLife, testLife, scopes, testIds);
      }
      reply := Done;
    }

    /** Serving a command keeps the invariant and does exactly what the specification's step does. */
    method Execute(now: int, c: Command) returns (reply: Reply)
      requires Invariant(Contents(), now)
      modifies this
      ensures (Contents(), reply) == Step(old(Contents()), now, c)
      ensures Invariant(Contents(), now)
    {
      StepKeepsInvariant(Contents(), now, c);
      NeededByCommands(Contents(), now);
      StepServes(Contents(), now, c);
      if OnGrants(c) {
        reply := ExecuteOnGrants(now, c);
      } else if OnAccountTable(c) {
        reply := ExecuteOnAccounts(now, c);
      } else if OnLeaseTable(c) {
        reply := ExecuteOnLeases(now, c);
      } else {
        reply := ExecuteRest(now, c);
      }
      SyncIdempotencyRecordCreated(now);
    }
  }

  predicate OnGrants(c: Command) {
    || c.CreateCodeCommand? || c.RevokeCodeCommand? || c.ListCodesCommand?
    || c.ActivateCommand? || c.DisableDeviceCommand? || c.UnbindCommand?
  }

  predicate OnAccountTable(c: Command) {
    || c.CreateAccountCommand? || c.UpdateAccountCommand? || c.DisableAccountCommand?
    || c.ListAccountsCommand? || c.RecordTestCommand?
  }

  predicate OnLeaseTable(c: Command) {
    c.CreateLeaseCommand? || c.RenewCommand? || c.ReleaseCommand? || c.ReclaimCommand? || c.RecordUsageCommand?
  }

  lemma NeededByCommands(s: State, now: int)
    requires Invariant(s, now)
    ensures RecordedOnce(s.pool.usage, s.pool.leases)
    ensures Issued(s.pool.accounts.Keys, "mpa", Counter(s.ledger, "mpa"))
  {
    hide OnActiveDevices;
  }
}
