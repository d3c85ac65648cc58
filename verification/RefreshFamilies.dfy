/**
 * Refresh-token families held in memory: the three maps, the operations on them, and the two-phase refresh. Tokens
 * appear only as their hashes; a family is named after the hash of its first refresh token.
 */
module RefreshFamilies {
  import opened Collections
  import Ordering

  const ACCESS_SECONDS := 15 * 60
  const REFRESH_SECONDS := 30 * 24 * 3600

  datatype Product = AutoLive | DouyinDesktop
  datatype Audience = AdminAudience | DesktopAudience

  datatype Session = Session(
    accessHash: string, refreshHash: string, expiresAt: int, refreshExpiresAt: int, product: Product,
    audience: Audience, family: string, generation: nat, user: string, deviceId: string)

  datatype Consumed = Consumed(family: string, refreshExpiresAt: int)

  datatype Tables = Tables(sessions: map<string, Session>, index: map<string, string>, consumed: map<string, Consumed>)

  // --- what each operation does to the tables --------------------------------------------------------------

  function Inserted(t: Tables, s: Session): Tables {
    t.(sessions := t.sessions[s.accessHash := s], index := t.index[s.refreshHash := s.accessHash])
  }

  function RefreshHashes(sessions: map<string, Session>, gone: set<string>): set<string> {
    set a | a in gone && a in sessions :: sessions[a].refreshHash
  }

  function Without(t: Tables, gone: set<string>): Tables {
    t.(sessions := t.sessions - gone, index := t.index - RefreshHashes(t.sessions, gone))
  }

  function InFamily(t: Tables, family: string): set<string> {
    set a | a in t.sessions && t.sessions[a].family == family
  }

  function FamilyRevoked(t: Tables, family: string): Tables {
    Without(t, InFamily(t, family))
  }

  /** Presenting a refresh token that no session answers to: a spent one takes its family down. */
  function Replayed(t: Tables, refreshHash: string): Tables {
    if refreshHash in t.consumed then FamilyRevoked(t, t.consumed[refreshHash].family) else t
  }

  /** The read phase of a refresh. */
  function Read(t: Tables, refreshHash: string): (Tables, Option<Session>) {
    if refreshHash !in t.index then (Replayed(t, refreshHash), None)
    else if t.index[refreshHash] !in t.sessions then (t, None)
    else (t, Some(t.sessions[t.index[refreshHash]]))
  }

  function Min(a: int, b: int): int { if a < b then a else b }

  function Successor(s: Session, now: int, accessHash: string, refreshHash: string): Session {
    s.(accessHash := accessHash, refreshHash := refreshHash, expiresAt := Min(now + ACCESS_SECONDS, s.refreshExpiresAt),
       generation := s.generation + 1)
  }

  predicate CanRotate(t: Tables, refreshHash: string, expected: string) {
    refreshHash in t.index && t.index[refreshHash] in t.sessions && t.index[refreshHash] == expected
  }

  /** The rotate phase: compare-and-swap on the access hash seen by the read phase. */
  function Rotated(t: Tables, refreshHash: string, expected: string, next: Session): Tables {
    if !CanRotate(t, refreshHash, expected) then Replayed(t, refreshHash)
    else
      var current := t.sessions[expected];
      Inserted(Tables(t.sessions - {expected}, t.index - {current.refreshHash},
                      t.consumed[current.refreshHash := Consumed(current.family, current.refreshExpiresAt)]), next)
  }

  /** Logging out with a refresh token, current or spent. */
  function LoggedOut(t: Tables, refreshHash: string): Tables {
    if refreshHash in t.index
    then if t.index[refreshHash] in t.sessions then FamilyRevoked(t, t.sessions[t.index[refreshHash]].family)
        else FamilyRevoked(t, "")
    else Replayed(t, refreshHash)
  }

  function UserRevoked(t: Tables, user: string): Tables {
    Without(t, set a | a in t.sessions && t.sessions[a].user == user)
  }

  function DeviceRevoked(t: Tables, deviceId: string, product: Product): Tables {
    Without(t, set a | a in t.sessions && t.sessions[a].deviceId == deviceId && t.sessions[a].product == product)
  }

  datatype Binding = ToWrite(copy: Session) | AlreadyBound | NoSession | OtherDevice

  /** The first lock section of a device binding: the copy of the session that is to be written back, if any. */
  function BindRead(t: Tables, accessHash: string, deviceId: string): Binding {
    if accessHash !in t.sessions then NoSession
    else
      var s := t.sessions[accessHash];
      if s.deviceId != "" && s.deviceId != deviceId then OtherDevice
      else if s.deviceId == deviceId then AlreadyBound
      else ToWrite(s.(deviceId := deviceId))
  }

  /** The second lock section writes the copy under its key, without looking what has become of that key. */
  function WrittenBack(t: Tables, copy: Session): Tables {
    t.(sessions := t.sessions[copy.accessHash := copy])
  }

  predicate Clears(t: Tables, accessHash: string, deviceId: string) {
    deviceId != "" && accessHash in t.sessions && t.sessions[accessHash].deviceId == deviceId
  }

  function Cleared(t: Tables, accessHash: string, deviceId: string): Tables {
    if Clears(t, accessHash, deviceId)
    then t.(sessions := t.sessions[accessHash := t.sessions[accessHash].(deviceId := "")]) else t
  }

  // --- retention -------------------------------------------------------------------------------------------

  function Expired(t: Tables, cutoff: int): set<string> {
    set a | a in t.sessions && t.sessions[a].refreshExpiresAt < cutoff
  }

  function AgeKey(t: Tables, accessHash: string): Ordering.Key
    requires accessHash in t.sessions
  {
    Ordering.Key(t.sessions[accessHash].refreshExpiresAt, accessHash)
  }

  /** `gone` is the batch a pass takes: as many expired sessions as it may, the oldest ones. */
  ghost predicate OldestExpired(t: Tables, cutoff: int, batch: nat, gone: set<string>) {
    && gone <= Expired(t, cutoff)
    && |gone| == (if |Expired(t, cutoff)| < batch then |Expired(t, cutoff)| else batch)
    && forall a, b :: a in gone && b in Expired(t, cutoff) && b !in gone ==> Ordering.AtMost(AgeKey(t, a), AgeKey(t, b))
  }

  function Forgotten(consumed: map<string, Consumed>, cutoff: int): map<string, Consumed> {
    map h | h in consumed && cutoff <= consumed[h].refreshExpiresAt :: consumed[h]
  }

  function Cleaned(t: Tables, cutoff: int, gone: set<string>): Tables {
    Without(t, gone).(consumed := Forgotten(t.consumed, cutoff))
  }

  // --- the consistency of the maps -------------------------------------------------------------------------

  /** Index entries name sessions that answer to them, and no spent token is current. */
  ghost predicate Indexed(t: Tables) {
    && (forall a :: a in t.sessions ==> t.sessions[a].accessHash == a)
    && (forall h :: h in t.index ==> t.index[h] in t.sessions && t.sessions[t.index[h]].refreshHash == h)
    && (forall h :: h in t.consumed ==> h !in t.index)
  }

  ghost predicate EveryIndexed(t: Tables) {
    forall a :: a in t.sessions ==> t.sessions[a].refreshHash in t.index && t.index[t.sessions[a].refreshHash] == a
  }

  ghost predicate OnePerFamily(t: Tables) {
    forall a, b :: a in t.sessions && b in t.sessions && t.sessions[a].family == t.sessions[b].family ==> a == b
  }

  /** Sessions and refresh index are each other's inverse, no spent token is current, and a family has one session. */
  ghost predicate Consistent(t: Tables) {
    Indexed(t) && EveryIndexed(t) && OnePerFamily(t)
  }

  /** Removing sessions along with their index entries keeps the maps consistent. */
  lemma DroppingKeeps(t: Tables, gone: set<string>)
    requires Indexed(t)
    ensures Indexed(Without(t, gone))
    ensures EveryIndexed(t) ==> EveryIndexed(Without(t, gone))
    ensures OnePerFamily(t) ==> OnePerFamily(Without(t, gone))
  {
    assert forall h :: h in t.index && t.index[h] in gone ==> h in RefreshHashes(t.sessions, gone);
    var u := Without(t, gone);
    if EveryIndexed(t) {
      forall a | a in u.sessions ensures u.sessions[a].refreshHash in u.index {
        assert t.index[t.sessions[a].refreshHash] == a;
      }
    }
  }

  /** A login keeps the maps consistent, because the hashes and the family it brings are new. */
  lemma InsertingKeeps(t: Tables, s: Session)
    requires Indexed(t)
    requires s.accessHash !in t.sessions && s.refreshHash !in t.index && s.refreshHash !in t.consumed
    ensures Indexed(Inserted(t, s))
    ensures EveryIndexed(t) ==> EveryIndexed(Inserted(t, s))
    ensures OnePerFamily(t) ==>
              (OnePerFamily(Inserted(t, s)) <==> forall a :: a in t.sessions ==> t.sessions[a].family != s.family)
  {
    var u := Inserted(t, s);
    if a :| a in t.sessions && t.sessions[a].family == s.family {
      assert u.sessions[a].family == u.sessions[s.accessHash].family && a != s.accessHash;
    }
  }

  /** Two records of one session: they differ in the device at most. */
  predicate SameSession(s: Session, t: Session) {
    s.(deviceId := "") == t.(deviceId := "")
  }

  /** Writing a copy back keeps the maps consistent exactly if the session it was copied from is still there. */
  lemma WritingBack(t: Tables, copy: Session)
    requires Indexed(t)
    requires copy.accessHash in t.sessions ==> SameSession(copy, t.sessions[copy.accessHash])
    ensures Indexed(WrittenBack(t, copy))
    ensures EveryIndexed(t) ==> (EveryIndexed(WrittenBack(t, copy)) <==> copy.accessHash in t.sessions)
    ensures OnePerFamily(t) ==> (OnePerFamily(WrittenBack(t, copy)) <==>
              copy.accessHash in t.sessions || forall a :: a in t.sessions ==> t.sessions[a].family != copy.family)
  {
    var u := WrittenBack(t, copy);
    if EveryIndexed(u) {
      assert copy.accessHash in u.sessions && u.sessions[copy.accessHash] == copy;
    }
    if a :| copy.accessHash !in t.sessions && a in t.sessions && t.sessions[a].family == copy.family {
      assert u.sessions[a].family == u.sessions[copy.accessHash].family && a != copy.accessHash;
    }
  }

  /** A rotation keeps the maps consistent; what it needs is that its own hashes are new. */
  lemma RotatingKeeps(t: Tables, refreshHash: string, next: Session)
    requires Indexed(t) && refreshHash in t.index
    requires next.accessHash !in t.sessions && next.refreshHash !in t.index && next.refreshHash !in t.consumed
              && next.refreshHash != refreshHash
    requires next.family == t.sessions[t.index[refreshHash]].family
    ensures Indexed(Rotated(t, refreshHash, t.index[refreshHash], next))
    ensures EveryIndexed(t) ==> EveryIndexed(Rotated(t, refreshHash, t.index[refreshHash], next))
    ensures OnePerFamily(t) ==> OnePerFamily(Rotated(t, refreshHash, t.index[refreshHash], next))
  {
    var expected := t.index[refreshHash];
    var current := t.sessions[expected];
    DroppingKeeps(t, {expected});
    var u := Without(t, {expected});
    assert RefreshHashes(t.sessions, {expected}) == {refreshHash};
    var w := u.(consumed := t.consumed[refreshHash := Consumed(current.family, current.refreshExpiresAt)]);
    assert Rotated(t, refreshHash, expected, next) == Inserted(w, next);
    InsertingKeeps(w, next);
    if EveryIndexed(t) {
      forall a | a in w.sessions ensures w.sessions[a].refreshHash in w.index
          && w.index[w.sessions[a].refreshHash] == a {
        assert t.index[t.sessions[a].refreshHash] == a;
      }
    }
    if OnePerFamily(t) {
      forall a | a in w.sessions ensures w.sessions[a].family != next.family {
        assert a in t.sessions && a != expected;
      }
    }
  }

  lemma DropOneMore(t: Tables, gone: set<string>, a: string)
    requires a in t.sessions
    ensures var u := Without(t, gone);
            Without(t, gone + {a}) == u.(sessions := u.sessions - {a}, index := u.index - {t.sessions[a].refreshHash})
  {
    assert RefreshHashes(t.sessions, gone + {a}) == RefreshHashes(t.sessions, gone) + {t.sessions[a].refreshHash};
    assert t.sessions - (gone + {a}) == (t.sessions - gone) - {a};
    assert t.index - (RefreshHashes(t.sessions, gone) + {t.sessions[a].refreshHash})
        == (t.index - RefreshHashes(t.sessions, gone)) - {t.sessions[a].refreshHash};
  }

  lemma DropNone(t: Tables)
    ensures Without(t, {}) == t
  {
    assert RefreshHashes(t.sessions, {}) == {};
    assert t.sessions - {} == t.sessions;
    assert t.index - {} == t.index;
  }

  /** The in-memory authenticator, its maps guarded by one mutex. */
  class Authenticator {
    var sessions: map<string, Session>
    var refreshIndex: map<string, string>
    var consumedRefresh: map<string, Consumed>

    function State(): Tables
      reads this
    {
      Tables(sessions, refreshIndex, consumedRefresh)
    }

    constructor ()
      ensures State() == Tables(map[], map[], map[])
    {
      sessions, refreshIndex, consumedRefresh := map[], map[], map[];
    }

    method Login(s: Session)
      modifies this
      ensures State() == Inserted(old(State()), s)
    {
      sessions := sessions[s.accessHash := s];
      refreshIndex := refreshIndex[s.refreshHash := s.accessHash];
    }

    /** The loop shared by the three revocations: visit the sessions in any order and delete the matching ones. */
    method RevokeMatching(matches: Session -> bool)
      modifies this`sessions, this`refreshIndex
      ensures State() == Without(old(State()), set a | a in old(sessions) && matches(old(sessions)[a]))
    {
      var pending := sessions.Keys;
      ghost var before, gone: set<string> := State(), {};
      DropNone(before);
      while pending != {}
        invariant pending <= before.sessions.Keys
        invariant forall a :: a in gone <==> a in before.sessions && a !in pending && matches(before.sessions[a])
        invariant State() == Without(before, gone)
        decreases |pending|
      {
        var a :| a in pending;
        pending := pending - {a};
        assert a !in gone && sessions[a] == before.sessions[a];
        if matches(sessions[a]) {
          DropOneMore(before, gone, a);
          gone := gone + {a};
          refreshIndex := refreshIndex - {sessions[a].refreshHash};
          sessions := sessions - {a};
        }
      }
      assert gone == set a | a in before.sessions && matches(before.sessions[a]);
    }

    method RevokeFamily(family: string)
      modifies this
      ensures State() == FamilyRevoked(old(State()), family)
    {
      RevokeMatching((s: Session) => s.family == family);
    }

    method RefreshRead(refreshHash: string) returns (found: Option<Session>)
      modifies this
      ensures (State(), found) == Read(old(State()), refreshHash)
    {
      found := None;
      if refreshHash !in refreshIndex {
        if refreshHash in consumedRefresh {
          RevokeFamily(consumedRefresh[refreshHash].family);
        }
      } else if refreshIndex[refreshHash] in sessions {
        found := Some(sessions[refreshIndex[refreshHash]]);
      }
    }

    method Rotate(refreshHash: string, expected: string, next: Session) returns (rotated: bool)
      modifies this
      ensures State() == Rotated(old(State()), refreshHash, expected, next)
      ensures rotated <==> CanRotate(old(State()), refreshHash, expected)
    {
      if refreshHash !in refreshIndex || refreshIndex[refreshHash] !in sessions
          || refreshIndex[refreshHash] != expected {
        if refreshHash in consumedRefresh {
          RevokeFamily(consumedRefresh[refreshHash].family);
        }
        return false;
      }
      var current := sessions[expected];
      sessions := sessions - {expected};
      refreshIndex := refreshIndex - {current.refreshHash};
      consumedRefresh := consumedRefresh[current.refreshHash := Consumed(current.family, current.refreshExpiresAt)];
      sessions := sessions[next.accessHash := next];
      refreshIndex := refreshIndex[next.refreshHash := next.accessHash];
      return true;
    }

    method RevokeRefreshToken(refreshHash: string)
      modifies this
      ensures State() == LoggedOut(old(State()), refreshHash)
    {
      if refreshHash in refreshIndex {
        var family := "";
        if refreshIndex[refreshHash] in sessions {
          family := sessions[refreshIndex[refreshHash]].family;
        }
        RevokeFamily(family);
      } else if refreshHash in consumedRefresh {
        RevokeFamily(consumedRefresh[refreshHash].family);
      }
    }

    method RevokeAccessToken(accessHash: string)
      modifies this
      ensures State() == Without(old(State()), {accessHash} * old(sessions).Keys)
    {
      if accessHash in sessions {
        assert {accessHash} * sessions.Keys == {accessHash};
        assert RefreshHashes(sessions, {accessHash}) == {sessions[accessHash].refreshHash};
        refreshIndex := refreshIndex - {sessions[accessHash].refreshHash};
        sessions := sessions - {accessHash};
      } else {
        assert {accessHash} * sessions.Keys == {};
      }
    }

    method RevokeUserSessions(user: string) returns (ok: bool)
      modifies this
      ensures ok <==> user != ""
      ensures State() == if ok then UserRevoked(old(State()), user) else old(State())
    {
      ok := user != "";
      if ok {
        RevokeMatching((s: Session) => s.user == user);
      }
    }

    method RevokeDeviceSessions(deviceId: string, product: Product) returns (ok: bool)
      modifies this
      ensures ok <==> deviceId != ""
      ensures State() == if ok then DeviceRevoked(old(State()), deviceId, product) else old(State())
    {
      ok := deviceId != "";
      if ok {
        RevokeMatching((s: Session) => s.deviceId == deviceId && s.product == product);
      }
    }

    /** The first lock section of a device binding; the request keeps the copy it returns. */
    method BindDeviceRead(accessHash: string, deviceId: string) returns (result: Binding)
      ensures result == BindRead(State(), accessHash, deviceId)
      ensures result.ToWrite? <==>
                deviceId != "" && accessHash in sessions && sessions[accessHash].deviceId == ""
      ensures result.ToWrite? ==>
                SameSession(result.copy, sessions[accessHash]) && result.copy.deviceId == deviceId
    {
      if accessHash !in sessions {
        return NoSession;
      }
      var s := sessions[accessHash];
      if s.deviceId != "" && s.deviceId != deviceId {
        return OtherDevice;
      }
      if s.deviceId == deviceId {
        return AlreadyBound;
      }
      return ToWrite(s.(deviceId := deviceId));
    }

    /** The second one. The maps stay consistent exactly if the session has not been removed in between. */
    method BindDeviceWrite(copy: Session)
      modifies this`sessions
      ensures State() == WrittenBack(old(State()), copy)
      ensures Consistent(old(State()))
              && (copy.accessHash in old(sessions) ==> SameSession(copy, old(sessions)[copy.accessHash])) ==>
                (Consistent(State()) <==> copy.accessHash in old(sessions))
    {
      ghost var before := State();
      sessions := sessions[copy.accessHash := copy];
      if Consistent(before)
          && (copy.accessHash in before.sessions ==> SameSession(copy, before.sessions[copy.accessHash])) {
        WritingBack(before, copy);
      }
    }

    method ClearDeviceBinding(accessHash: string, deviceId: string) returns (ok: bool)
      modifies this
      ensures ok <==> Clears(old(State()), accessHash, deviceId)
      ensures State() == Cleared(old(State()), accessHash, deviceId)
    {
      if deviceId == "" {
        return false;
      }
      if accessHash !in sessions || sessions[accessHash].deviceId != deviceId {
        return false;
      }
      sessions := sessions[accessHash := sessions[accessHash].(deviceId := "")];
      return true;
    }

    /** The sessions past the cutoff, as keys to sort by. */
    method ExpiredKeys(cutoff: int) returns (keys: seq<Ordering.Key>)
      ensures Lists(keys, State(), cutoff)
    {
      keys := [];
      var pending := sessions.Keys;
      while pending != {}
        invariant pending <= sessions.Keys
        invariant forall i, j :: 0 <= i < j < |keys| ==> keys[i] != keys[j]
        invariant forall k :: k in keys <==>
                    k.id in Expired(State(), cutoff) && k.id !in pending && k == AgeKey(State(), k.id)
        decreases |pending|
      {
        var a :| a in pending;
        pending := pending - {a};
        if sessions[a].refreshExpiresAt < cutoff {
          keys := keys + [Ordering.Key(sessions[a].refreshExpiresAt, a)];
        }
      }
    }

    method DropSessions(keys: seq<Ordering.Key>)
      requires forall i, j :: 0 <= i < j < |keys| ==> keys[i].id != keys[j].id
      requires forall i :: 0 <= i < |keys| ==> keys[i].id in sessions
      modifies this
      ensures State() == Without(old(State()), Ids(keys))
    {
      ghost var before := State();
      DropNone(before);
      for i := 0 to |keys|
        invariant State() == Without(before, Ids(keys[..i]))
      {
        assert keys[..i + 1] == keys[..i] + [keys[i]];
        assert Ids(keys[..i + 1]) == Ids(keys[..i]) + {keys[i].id};
        assert keys[i].id !in Ids(keys[..i]);
        DropOneMore(before, Ids(keys[..i]), keys[i].id);
        refreshIndex := refreshIndex - {sessions[keys[i].id].refreshHash};
        sessions := sessions - {keys[i].id};
      }
      assert keys[..|keys|] == keys;
    }

    method ForgetSpent(cutoff: int) returns (forgotten: nat)
      modifies this
      ensures State() == old(State()).(consumed := Forgotten(old(consumedRefresh), cutoff))
      ensures forgotten == |old(consumedRefresh)| - |consumedRefresh|
    {
      forgotten := 0;
      ghost var before := State();
      var pending := consumedRefresh.Keys;
      while pending != {}
        invariant pending <= before.consumed.Keys
        invariant sessions == before.sessions && refreshIndex == before.index
        invariant forgotten + |consumedRefresh| == |before.consumed|
        invariant consumedRefresh == map h | h in before.consumed
                  && (h in pending || cutoff <= before.consumed[h].refreshExpiresAt) :: before.consumed[h]
        decreases |pending|
      {
        var h :| h in pending;
        pending := pending - {h};
        if consumedRefresh[h].refreshExpiresAt < cutoff {
          OneEntryLess(consumedRefresh, h);
          consumedRefresh := consumedRefresh - {h};
          forgotten := forgotten + 1;
        }
      }
    }

    /** One bounded retention pass; it returns how many sessions and spent tokens it dropped. */
    method CleanupAuthSessions(cutoff: int, batch: nat) returns (deleted: nat)
      requires batch >= 1
      modifies this
      ensures exists gone :: OldestExpired(old(State()), cutoff, batch, gone)
                && State() == Cleaned(old(State()), cutoff, gone)
      ensures deleted == (|old(sessions)| - |sessions|) + (|old(consumedRefresh)| - |consumedRefresh|)
      ensures Indexed(old(State())) ==> Indexed(State())
      ensures Consistent(old(State())) ==> Consistent(State())
    {
      ghost var before := State();
      var candidates := ExpiredKeys(cutoff);
      var sorted := Ordering.Sort(candidates);
      SortedCandidates(before, cutoff, candidates, sorted);
      ghost var all := sorted;
      if |sorted| > batch {
        sorted := sorted[..batch];
      }
      BatchIsOldest(before, cutoff, all, sorted, batch);
      ghost var gone := Ids(sorted);
      PassCounts(before, cutoff, sorted);
      PassKeeps(before, cutoff, gone);
      hide Lists, Ids, OldestExpired, Consistent, Indexed;
      DropSessions(sorted);
      var forgotten := ForgetSpent(cutoff);
      deleted := |sorted| + forgotten;
      assert State() == Cleaned(before, cutoff, gone);
    }
  }

  lemma PassKeeps(t: Tables, cutoff: int, gone: set<string>)
    ensures Indexed(t) ==> Indexed(Cleaned(t, cutoff, gone))
    ensures Consistent(t) ==> Consistent(Cleaned(t, cutoff, gone))
  {
    if Indexed(t) {
      DroppingKeeps(t, gone);
    }
  }

  lemma PassCounts(t: Tables, cutoff: int, batch: seq<Ordering.Key>)
    requires forall i, j :: 0 <= i < j < |batch| ==> batch[i].id != batch[j].id
    requires Ids(batch) <= Expired(t, cutoff)
    ensures |batch| == |t.sessions| - |Cleaned(t, cutoff, Ids(batch)).sessions|
    ensures forall i :: 0 <= i < |batch| ==> batch[i].id in t.sessions
  {
    CountIds(batch);
    DroppedCount(t.sessions, Ids(batch));
    forall i | 0 <= i < |batch| ensures batch[i].id in t.sessions {
      assert batch[i].id in Ids(batch);
    }
  }

  lemma OneEntryLess<K, V>(m: map<K, V>, k: K)
    requires k in m
    ensures |m - {k}| == |m| - 1
  {
    assert (m - {k}).Keys == m.Keys - {k};
  }

  lemma DroppedCount<K, V>(m: map<K, V>, gone: set<K>)
    requires gone <= m.Keys
    ensures |m - gone| == |m| - |gone|
  {
    assert (m - gone).Keys == m.Keys - gone;
    SizeOfRest(m.Keys, gone);
  }

  function Ids(keys: seq<Ordering.Key>): set<string> {
    set k | k in keys :: k.id
  }

  /** The keys are those of the expired sessions, each once. */
  ghost predicate Lists(keys: seq<Ordering.Key>, t: Tables, cutoff: int) {
    && (forall i, j :: 0 <= i < j < |keys| ==> keys[i] != keys[j])
    && forall k :: k in keys <==> k.id in Expired(t, cutoff) && k == AgeKey(t, k.id)
  }

  lemma SortedCandidates(t: Tables, cutoff: int, candidates: seq<Ordering.Key>, sorted: seq<Ordering.Key>)
    requires sorted == Ordering.Sort(candidates) && Lists(candidates, t, cutoff)
    ensures Ordering.Sorted(sorted) && Lists(sorted, t, cutoff)
  {
    Ordering.SortElements(candidates);
    DistinctSorted(candidates, sorted);
  }

  lemma ListsAllIds(keys: seq<Ordering.Key>, t: Tables, cutoff: int)
    requires Lists(keys, t, cutoff)
    ensures forall i, j :: 0 <= i < j < |keys| ==> keys[i].id != keys[j].id
    ensures Ids(keys) == Expired(t, cutoff) && |keys| == |Expired(t, cutoff)|
  {
    forall i, j | 0 <= i < j < |keys| ensures keys[i].id != keys[j].id {
      assert keys[i] in keys && keys[j] in keys;
    }
    assert forall a :: a in Expired(t, cutoff) ==> AgeKey(t, a) in keys;
    CountIds(keys);
  }

  lemma DistinctSorted(s: seq<Ordering.Key>, sorted: seq<Ordering.Key>)
    requires sorted == Ordering.Sort(s)
    requires forall i, j :: 0 <= i < j < |s| ==> s[i] != s[j]
    ensures forall i, j :: 0 <= i < j < |sorted| ==> sorted[i] != sorted[j]
  {
    OccursOnce(s);
    forall i, j | 0 <= i < j < |sorted| ensures sorted[i] != sorted[j] {
      if sorted[i] == sorted[j] {
        TwiceCounts(sorted, i, j);
      }
    }
  }

  lemma {:induction false} OccursOnce(s: seq<Ordering.Key>)
    requires forall i, j :: 0 <= i < j < |s| ==> s[i] != s[j]
    ensures forall k :: multiset(s)[k] <= 1
    decreases |s|
  {
    if s != [] {
      OccursOnce(s[1..]);
      assert s == [s[0]] + s[1..];
      assert s[0] !in s[1..];
    }
  }

  lemma TwiceCounts(s: seq<Ordering.Key>, i: nat, j: nat)
    requires i < j < |s| && s[i] == s[j]
    ensures multiset(s)[s[i]] >= 2
  {
    assert s == s[..j] + s[j..];
    assert s[i] == s[..j][i] && s[j] == s[j..][0];
    assert s[i] in multiset(s[..j]) && s[j] in multiset(s[j..]);
  }

  lemma {:induction false} CountIds(s: seq<Ordering.Key>)
    requires forall i, j :: 0 <= i < j < |s| ==> s[i].id != s[j].id
    ensures |Ids(s)| == |s|
    decreases |s|
  {
    if s != [] {
      CountIds(s[1..]);
      assert s == [s[0]] + s[1..];
      assert Ids(s) == Ids(s[1..]) + {s[0].id};
      assert s[0].id !in Ids(s[1..]);
    }
  }

  lemma BatchIsOldest(t: Tables, cutoff: int, sorted: seq<Ordering.Key>, first: seq<Ordering.Key>, batch: nat)
    requires Ordering.Sorted(sorted) && Lists(sorted, t, cutoff)
    requires first == if |sorted| > batch then sorted[..batch] else sorted
    ensures OldestExpired(t, cutoff, batch, Ids(first))
    ensures forall i, j :: 0 <= i < j < |first| ==> first[i].id != first[j].id
  {
    var gone := Ids(first);
    ListsAllIds(sorted, t, cutoff);
    assert forall k :: k in first ==> k in sorted;
    CountIds(first);
    forall a, b | a in gone && b in Expired(t, cutoff) && b !in gone
      ensures Ordering.AtMost(AgeKey(t, a), AgeKey(t, b))
    {
      assert AgeKey(t, b) in sorted && AgeKey(t, b) !in first;
      var j :| 0 <= j < |sorted| && sorted[j] == AgeKey(t, b);
      var k :| k in first && k.id == a;
      var i :| 0 <= i < |first| && first[i] == k;
      assert sorted[i] == AgeKey(t, a);
      assert forall l :: 0 <= l < |first| ==> first[l] in first && first[l] == sorted[l];
    }
  }

  // --- retention -------------------------------------------------------------------------------------------

  /** A pass keeps every session that is not past the cutoff, and shortens the backlog by a batch. */
  lemma PassShortensBacklog(t: Tables, cutoff: int, batch: nat, gone: set<string>)
    requires OldestExpired(t, cutoff, batch, gone)
    ensures var u := Cleaned(t, cutoff, gone);
            && Expired(u, cutoff) == Expired(t, cutoff) - gone
            && |Expired(u, cutoff)| == (if |Expired(t, cutoff)| <= batch then 0 else |Expired(t, cutoff)| - batch)
            && (forall a :: a in t.sessions && cutoff <= t.sessions[a].refreshExpiresAt ==>
                a in u.sessions && u.sessions[a] == t.sessions[a])
            && (forall h :: h in t.consumed && cutoff <= t.consumed[h].refreshExpiresAt ==>
                h in u.consumed && u.consumed[h] == t.consumed[h])
  {
    SizeOfRest(Expired(t, cutoff), gone);
    assert Expired(Cleaned(t, cutoff, gone), cutoff) == Expired(t, cutoff) - gone;
  }

  lemma SizeOfRest<T>(all: set<T>, part: set<T>)
    requires part <= all
    ensures |all - part| == |all| - |part|
  {
    assert all == part + (all - part);
    assert part !! (all - part);
  }

  /** `after` is what `k` passes in a row can leave. */
  ghost predicate Passes(t: Tables, cutoff: int, batch: nat, k: nat, after: Tables)
    decreases k
  {
    if k == 0 then after == t
    else exists gone ::
           OldestExpired(t, cutoff, batch, gone) && Passes(Cleaned(t, cutoff, gone), cutoff, batch, k - 1, after)
  }

  lemma OneBatchMore(k: nat, batch: nat)
    requires k > 0
    ensures k * batch == (k - 1) * batch + batch && (k - 1) * batch >= 0
  {
  }

  lemma {:induction false} PassesShortenBacklog(t: Tables, cutoff: int, batch: nat, k: nat, after: Tables)
    requires Passes(t, cutoff, batch, k, after)
    ensures |Expired(after, cutoff)|
              == (if |Expired(t, cutoff)| <= k * batch then 0 else |Expired(t, cutoff)| - k * batch)
    decreases k
  {
    hide Expired, OldestExpired, Cleaned;
    if k > 0 {
      var gone :| OldestExpired(t, cutoff, batch, gone)
          && Passes(Cleaned(t, cutoff, gone), cutoff, batch, k - 1, after);
      PassShortensBacklog(t, cutoff, batch, gone);
      PassesShortenBacklog(Cleaned(t, cutoff, gone), cutoff, batch, k - 1, after);
      OneBatchMore(k, batch);
    }
  }

  /**
   * With n sessions past the cutoff, n divided by the batch size, rounded up, passes remove them all and no fewer do.
   */
  lemma BacklogClearsInTime(t: Tables, cutoff: int, batch: nat, k: nat, after: Tables)
    requires batch >= 1 && Passes(t, cutoff, batch, k, after)
    ensures Expired(after, cutoff) == {} <==> k >= (|Expired(t, cutoff)| + batch - 1) / batch
  {
    PassesShortenBacklog(t, cutoff, batch, k, after);
    var n := |Expired(t, cutoff)|;
    CeilingBound(n, batch, k);
    assert Expired(after, cutoff) == {} <==> |Expired(after, cutoff)| == 0;
  }

  lemma CeilingBound(n: nat, batch: nat, k: nat)
    requires batch >= 1
    ensures n <= k * batch <==> k >= (n + batch - 1) / batch
  {
    var q := (n + batch - 1) / batch;
    assert q * batch <= n + batch - 1 < q * batch + batch;
    if k >= q {
      assert k * batch >= q * batch;
    } else {
      assert k * batch <= (q - 1) * batch == q * batch - batch;
    }
  }
}
