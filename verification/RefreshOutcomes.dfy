/**
 * What each request about sessions comes to, in every reachable state: which session it installs or changes, which ones
 * it ends along with their index entries, and that every other session and index entry stays.
 */
module RefreshOutcomes {
  import opened Collections
  import opened RefreshFamilies
  import opened RefreshRuns
  import opened RefreshReplay

  // --- refresh tokens are never shared ---------------------------------------------------------------------

  /** No two sessions ever installed, nor one of them and one about to be, have the same refresh token. */
  ghost predicate Unshared(m: Machine) {
    && (forall a, b :: a in m.issued && b in m.issued && m.issued[a].refreshHash == m.issued[b].refreshHash ==> a == b)
    && (forall r, a :: r in m.running && a in m.issued ==> m.issued[a].refreshHash != m.running[r].next.refreshHash)
  }

  lemma LoginKeepsUnshared(m: Machine, action: Action)
    requires Sound(m) && Unshared(m) && Enabled(m, action) && action.Login?
    ensures Unshared(Apply(m, action))
  {
    hide Indexed, Traced, SpentSound;
    forall r | r in m.running ensures m.running[r].next.refreshHash in m.drawn {
      assert RunningSound(m, m.running[r]);
    }
    hide AllRunningSound;
  }

  lemma BeginKeepsUnshared(m: Machine, action: Action)
    requires Sound(m) && Unshared(m) && Enabled(m, action) && action.BeginRefresh?
    ensures Unshared(Apply(m, action))
  {
    hide Indexed, Traced, SpentSound, AllRunningSound, Replayed;
  }

  lemma FinishKeepsUnshared(m: Machine, r: nat)
    requires Sound(m) && Unshared(m) && r in m.running
    ensures Unshared(Finished(m, r))
  {
    assert Apart(m.running);
    hide Sound, Rotated, CanRotate;
  }

  lemma SameIssuedUnshared(m: Machine, n: Machine)
    requires Unshared(m) && n.issued == m.issued && n.running.Keys <= m.running.Keys
    requires forall r :: r in n.running ==> n.running[r] == m.running[r]
    ensures Unshared(n)
  {
  }

  lemma StepKeepsUnshared(m: Machine, action: Action)
    requires Sound(m) && Unshared(m) && Enabled(m, action)
    ensures Unshared(Apply(m, action))
  {
    hide Sound, OldestExpired, Without, LoggedOut, UserRevoked, DeviceRevoked, Cleaned, Cleared, WrittenBack;
    match action
    case Login(_, _, _, _, _) => LoginKeepsUnshared(m, action);
    case BeginRefresh(_, _, _, _, _) => BeginKeepsUnshared(m, action);
    case FinishRefresh(r) => FinishKeepsUnshared(m, r);
    case _ => SameIssuedUnshared(m, Apply(m, action));
  }

  lemma {:induction false} RunKeepsUnshared(m: Machine, actions: seq<Action>)
    requires Sound(m) && Unshared(m) && Possible(m, actions)
    ensures Unshared(Run(m, actions))
    decreases |actions|
  {
    hide Sound, Unshared, Apply, Enabled;
    if actions != [] {
      ApplyKeeps(m, actions[0]);
      StepKeepsUnshared(m, actions[0]);
      RunKeepsUnshared(Apply(m, actions[0]), actions[1..]);
    }
  }

  lemma ReachableIsUnshared(now: int, actions: seq<Action>)
    requires Possible(Initial(now), actions)
    ensures Sound(Run(Initial(now), actions)) && Unshared(Run(Initial(now), actions))
  {
    hide Sound, Run, Possible;
    InitialIsSound(now);
    RunKeeps(Initial(now), actions);
    RunKeepsUnshared(Initial(now), actions);
  }

  // --- ending sessions -------------------------------------------------------------------------------------

  /** The sessions end along with their index entries, and nothing else changes. */
  ghost predicate Ends(t: Tables, u: Tables, gone: set<string>) {
    && (forall a :: a in u.sessions <==> a in t.sessions && a !in gone)
    && (forall a :: a in u.sessions ==> u.sessions[a] == t.sessions[a])
    && (forall h :: h in u.index <==> h in t.index && t.index[h] !in gone)
    && (forall h :: h in u.index ==> u.index[h] == t.index[h])
    && u.consumed == t.consumed
  }

  lemma WithoutEnds(m: Machine, gone: set<string>)
    requires Sound(m) && Unshared(m) && gone <= m.tables.sessions.Keys
    ensures Ends(m.tables, Without(m.tables, gone), gone)
  {
    hide SpentSound, AllRunningSound, IssuedSound;
    var t := m.tables;
    forall h | h in t.index ensures h in RefreshHashes(t.sessions, gone) <==> t.index[h] in gone {
      if a :| a in gone && a in t.sessions && t.sessions[a].refreshHash == h {
        assert SameSession(t.sessions[a], m.issued[a]) && SameSession(t.sessions[t.index[h]], m.issued[t.index[h]]);
      }
    }
  }

  /** The family a refresh token belongs to, if a session answers to it or it is remembered as spent. */
  function FamilyOf(t: Tables, refreshHash: string): Option<string> {
    if refreshHash in t.index && t.index[refreshHash] in t.sessions
    then Some(t.sessions[t.index[refreshHash]].family)
    else if refreshHash in t.consumed then Some(t.consumed[refreshHash].family)
    else None
  }

  /**
   * Logging out with a token that a session answers to, or that is remembered as spent, ends every session of its
   * family and no other one; with any other token it changes nothing.
   */
  lemma LogoutEndsFamily(now: int, actions: seq<Action>, refreshHash: string)
    requires Possible(Initial(now), actions)
    ensures var m := Run(Initial(now), actions);
            var (t, n) := (m.tables, Apply(m, Logout(refreshHash)));
            && n == m.(tables := n.tables)
            && (refreshHash in t.index ==> FamilyOf(t, refreshHash).Some?)
            && match FamilyOf(t, refreshHash)
               case None => n.tables == t
               case Some(family) =>
                 Ends(t, n.tables, set a | a in t.sessions && t.sessions[a].family == family)
                 && forall a :: a in n.tables.sessions ==> n.tables.sessions[a].family != family
  {
    hide Run, Possible, Sound, Unshared, Ends, LoggedOut, FamilyOf;
    ReachableIsUnshared(now, actions);
    var m := Run(Initial(now), actions);
    var t, family := m.tables, FamilyOf(m.tables, refreshHash);
    LogoutIsRevocation(m, refreshHash);
    if family.Some? {
      var gone := set a | a in t.sessions && t.sessions[a].family == family.value;
      WithoutEnds(m, gone);
      EndsAll(t, Without(t, gone), gone);
      hide Without;
    }
  }

  lemma LogoutIsRevocation(m: Machine, refreshHash: string)
    requires Sound(m)
    ensures var (t, family) := (m.tables, FamilyOf(m.tables, refreshHash));
            && (refreshHash in t.index ==> family.Some?)
            && LoggedOut(t, refreshHash) ==
               (if family.None? then t
                else Without(t, set a | a in t.sessions && t.sessions[a].family == family.value))
  {
    hide Without, IssuedSound, Traced, SpentSound, AllRunningSound;
    assert Indexed(m.tables);
    hide Sound;
    var family := FamilyOf(m.tables, refreshHash);
    if family.Some? {
      assert InFamily(m.tables, family.value)
          == set a | a in m.tables.sessions && m.tables.sessions[a].family == family.value;
    }
  }

  /**
   * After logging out with such a token the family has a live session again along a run if and only if a device binding
   * writes back an unexpired session of it; no refresh in flight can bring one back.
   */
  lemma LogoutIsFinalExactly(now: int, before: seq<Action>, refreshHash: string, later: seq<Action>)
    requires Possible(Initial(now), before)
    requires var m := Run(Initial(now), before);
             FamilyOf(m.tables, refreshHash).Some? && Possible(Apply(m, Logout(refreshHash)), later)
    ensures var m := Run(Initial(now), before);
            var (n, family) := (Apply(m, Logout(refreshHash)), FamilyOf(m.tables, refreshHash).value);
            EverLive(n, later, family) <==> EverRevived(n, later, family)
  {
    hide Run, Possible, Sound, Unshared, Dead, EverLive, EverRevived, LoggedOut, Ends, FamilyOf;
    var m := Run(Initial(now), before);
    ReachableIsUnshared(now, before);
    LogoutEndsFamily(now, before, refreshHash);
    ApplyKeeps(m, Logout(refreshHash));
    var (n, family) := (Apply(m, Logout(refreshHash)), FamilyOf(m.tables, refreshHash).value);
    FamilyIsKnown(m, refreshHash);
    NobodyIsDead(n, family);
    LiveExactlyIfRevived(n, later, family);
  }

  lemma FamilyIsKnown(m: Machine, refreshHash: string)
    requires Sound(m) && FamilyOf(m.tables, refreshHash).Some?
    ensures FamilyOf(m.tables, refreshHash).value in m.expiry
  {
    var t := m.tables;
    if refreshHash in t.index && t.index[refreshHash] in t.sessions {
      assert SameSession(t.sessions[t.index[refreshHash]], m.issued[t.index[refreshHash]]);
    }
    hide AllRunningSound;
  }

  lemma NobodyIsDead(m: Machine, family: string)
    requires family in m.expiry && forall a :: a in m.tables.sessions ==> m.tables.sessions[a].family != family
    ensures Dead(m, family)
  {
  }

  lemma EndsAll(t: Tables, u: Tables, gone: set<string>)
    requires Ends(t, u, gone)
    ensures forall a :: a in u.sessions ==> a in t.sessions && a !in gone && u.sessions[a] == t.sessions[a]
  {
  }

  /** The sessions a revocation is about. */
  function Named(t: Tables, action: Action): set<string> {
    set a | a in t.sessions &&
      match action
      case RevokeAccess(access) => a == access
      case RevokeUser(user) => t.sessions[a].user == user
      case RevokeDevice(deviceId, product) => t.sessions[a].deviceId == deviceId && t.sessions[a].product == product
      case _ => false
  }

  /** Revoking an access token, a user or a device ends exactly the sessions it names. */
  lemma RevocationEndsExactly(now: int, actions: seq<Action>, action: Action)
    requires Possible(Initial(now), actions)
    requires action.RevokeAccess? || action.RevokeUser? || action.RevokeDevice?
    ensures var m := Run(Initial(now), actions);
            var n := Apply(m, action);
            n == m.(tables := n.tables) && Ends(m.tables, n.tables, Named(m.tables, action))
  {
    hide Run, Possible, Unshared, Ends, Without, Sound;
    ReachableIsUnshared(now, actions);
    var m := Run(Initial(now), actions);
    WithoutEnds(m, Named(m.tables, action));
    RevokesNamed(m, action);
  }

  lemma RevokesNamed(m: Machine, action: Action)
    requires action.RevokeAccess? || action.RevokeUser? || action.RevokeDevice?
    ensures Apply(m, action) == m.(tables := Without(m.tables, Named(m.tables, action)))
  {
    hide Without;
    var t := m.tables;
    match action
    case RevokeAccess(access) => assert Named(t, action) == {access} * t.sessions.Keys;
    case RevokeUser(user) => assert Named(t, action) == set a | a in t.sessions && t.sessions[a].user == user;
    case RevokeDevice(deviceId, product) =>
      assert Named(t, action)
          == set a | a in t.sessions && t.sessions[a].deviceId == deviceId && t.sessions[a].product == product;
  }

  /**
   * A retention pass ends exactly the batch of expired sessions it takes, and forgets exactly the spent tokens whose
   * family was past its refresh expiry at the cutoff.
   */
  lemma PassEndsExactly(now: int, actions: seq<Action>, cutoff: int, batch: nat, gone: set<string>)
    requires Possible(Initial(now), actions) && Enabled(Run(Initial(now), actions), Cleanup(cutoff, batch, gone))
    ensures var m := Run(Initial(now), actions);
            var (t, u) := (m.tables, Apply(m, Cleanup(cutoff, batch, gone)).tables);
            && Ends(t, u.(consumed := t.consumed), gone)
            && (forall h :: h in u.consumed <==> h in t.consumed && t.consumed[h].refreshExpiresAt >= cutoff)
            && (forall h :: h in u.consumed ==> u.consumed[h] == t.consumed[h])
  {
    ReachableIsUnshared(now, actions);
    var m := Run(Initial(now), actions);
    hide Run, Possible, Unshared, Ends, Sound;
    WithoutEnds(m, gone);
    assert Cleaned(m.tables, cutoff, gone).(consumed := m.tables.consumed) == Without(m.tables, gone);
    hide Without;
  }

  // --- logging in ------------------------------------------------------------------------------------------

  /** A login adds one session, which both its tokens name, and changes no other. */
  lemma LoginInstalls(now: int, actions: seq<Action>, action: Action)
    requires Possible(Initial(now), actions) && action.Login? && Enabled(Run(Initial(now), actions), action)
    ensures var m := Run(Initial(now), actions);
            var (t, u) := (m.tables, Apply(m, action).tables);
            && action.access !in t.sessions && action.refresh !in t.index && action.refresh !in t.consumed
            && u.sessions.Keys == t.sessions.Keys + {action.access} && u.index.Keys == t.index.Keys + {action.refresh}
            && (forall a :: a in t.sessions ==> u.sessions[a] == t.sessions[a])
            && (forall h :: h in t.index ==> u.index[h] == t.index[h]) && u.consumed == t.consumed
            && u.index[action.refresh] == action.access
            && var s := u.sessions[action.access];
              && s.accessHash == action.access && s.refreshHash == action.refresh && s.family == action.refresh
              && s.user == action.user && s.product == action.product && s.audience == action.audience
              && s.generation == 0 && s.deviceId == ""
              && s.expiresAt == m.now + 900 && s.refreshExpiresAt == m.now + 2592000
  {
    ReachableIsSound(now, actions);
    var m := Run(Initial(now), actions);
    hide Run, Possible;
    NotThereYet(m, action.access, action.refresh);
    hide Sound;
  }

  // --- refreshing ------------------------------------------------------------------------------------------

  /** The session has been replaced by its successor: same user, device, family and refresh expiry, new tokens. */
  ghost predicate Succeeds(t: Tables, u: Tables, now: int, refreshHash: string, access: string, refresh: string)
    requires refreshHash in t.index && t.index[refreshHash] in t.sessions
  {
    var old' := t.index[refreshHash];
    && u.sessions.Keys == t.sessions.Keys - {old'} + {access}
    && u.index.Keys == t.index.Keys - {refreshHash} + {refresh}
    && u.consumed.Keys == t.consumed.Keys + {refreshHash}
    && (forall a :: a in t.sessions && a != old' ==> u.sessions[a] == t.sessions[a])
    && (forall h :: h in t.index && h != refreshHash ==> u.index[h] == t.index[h])
    && (forall h :: h in t.consumed ==> u.consumed[h] == t.consumed[h])
    && u.index[refresh] == access
    && var s, s' := t.sessions[old'], u.sessions[access];
      && u.consumed[refreshHash].family == s.family && u.consumed[refreshHash].refreshExpiresAt == s.refreshExpiresAt
      && s'.accessHash == access && s'.refreshHash == refresh && s'.generation == s.generation + 1
      && s'.expiresAt == (if now + 900 < s.refreshExpiresAt then now + 900 else s.refreshExpiresAt)
      && s'.refreshExpiresAt == s.refreshExpiresAt && s'.family == s.family && s'.user == s.user
      && s'.product == s.product && s'.audience == s.audience && s'.deviceId == s.deviceId
  }

  /** A session answers to the token, its refresh expiry has not passed, and its user is admitted. */
  predicate Refreshable(m: Machine, refreshHash: string, admitted: bool) {
    && refreshHash in m.tables.index && m.tables.index[refreshHash] in m.tables.sessions
    && m.now <= m.tables.sessions[m.tables.index[refreshHash]].refreshExpiresAt && admitted
  }

  /** The token is remembered as spent, and no session answers to it. */
  predicate Replays(t: Tables, refreshHash: string) {
    refreshHash !in t.index && refreshHash in t.consumed
  }

  /**
   * A refresh that nothing crosses replaces the session that answers to its token if and only if there is one, its
   * refresh expiry has not passed and its user is admitted. A token remembered as spent ends its family; nothing else
   * changes.
   */
  lemma RefreshIsServedExactly(
    now: int, actions: seq<Action>, r: nat, refreshHash: string, access: string, refresh: string, admitted: bool)
    requires Possible(Initial(now), actions)
    requires Enabled(Run(Initial(now), actions), BeginRefresh(r, refreshHash, access, refresh, admitted))
    ensures var m := Run(Initial(now), actions);
            var (t, n) := (m.tables, Apply(m, BeginRefresh(r, refreshHash, access, refresh, admitted)));
            && (r in n.running <==> Refreshable(m, refreshHash, admitted))
            && (r in n.running ==>
                  Succeeds(t, Apply(n, FinishRefresh(r)).tables, m.now, refreshHash, access, refresh))
            && (if Replays(t, refreshHash)
                then Ends(t, n.tables,
                          set a | a in t.sessions && t.sessions[a].family == t.consumed[refreshHash].family)
                else n.tables == t)
  {
    hide Run, Possible, Unshared, Ends, Succeeds, Without, Sound;
    ReachableIsUnshared(now, actions);
    var m := Run(Initial(now), actions);
    if Replays(m.tables, refreshHash) {
      WithoutEnds(m, InFamily(m.tables, m.tables.consumed[refreshHash].family));
    }
    if Refreshable(m, refreshHash, admitted) {
      RefreshSucceeds(m, r, refreshHash, access, refresh);
    }
  }

  lemma RefreshSucceeds(m: Machine, r: nat, refreshHash: string, access: string, refresh: string)
    requires Sound(m) && r !in m.running && Fresh(m, access, refresh) && Refreshable(m, refreshHash, true)
    ensures var n := Begun(m, r, refreshHash, access, refresh, true);
            r in n.running && Succeeds(m.tables, Finished(n, r).tables, m.now, refreshHash, access, refresh)
  {
    hide Succeeds, Rotated, CanRotate, Successor, Read;
    NotThereYet(m, access, refresh);
    assert Indexed(m.tables);
    hide Sound;
    BeginningHoldsOn(m, r, refreshHash, access, refresh);
    RotationSucceeds(m.tables, m.now, refreshHash, access, refresh);
  }

  lemma BeginningHoldsOn(m: Machine, r: nat, refreshHash: string, access: string, refresh: string)
    requires Refreshable(m, refreshHash, true)
    ensures var n, old' := Begun(m, r, refreshHash, access, refresh, true), m.tables.index[refreshHash];
            && n.tables == m.tables && r in n.running
            && n.running[r] == Running(refreshHash, old', Successor(m.tables.sessions[old'], m.now, access, refresh))
  {
  }

  lemma RotationSucceeds(t: Tables, now: int, refreshHash: string, access: string, refresh: string)
    requires Indexed(t) && refreshHash in t.index
    requires access !in t.sessions && refresh !in t.index
    ensures refreshHash in t.index && t.index[refreshHash] in t.sessions
    ensures var old' := t.index[refreshHash];
            Succeeds(t, Rotated(t, refreshHash, old', Successor(t.sessions[old'], now, access, refresh)), now,
                     refreshHash, access, refresh)
  {
  }

  /**
   * A refresh in flight is completed, whatever has happened since its read phase, if and only if its token is still
   * current; then it replaces the session that answers to the token by the one the read phase prepared.
   */
  lemma RefreshCompletesExactly(now: int, actions: seq<Action>, r: nat)
    requires Possible(Initial(now), actions) && r in Run(Initial(now), actions).running
    ensures var m := Run(Initial(now), actions);
            var (t, x, n) := (m.tables, m.running[r], Apply(m, FinishRefresh(r)));
            && r !in n.running
            && (n.exchanged == m.exchanged + [x.refreshHash] <==> x.refreshHash in t.index)
            && (x.refreshHash in t.index ==>
                  && t.index[x.refreshHash] == x.expected
                  && n.tables.sessions == (t.sessions - {x.expected})[x.next.accessHash := x.next]
                  && n.tables.index == (t.index - {x.refreshHash})[x.next.refreshHash := x.next.accessHash]
                  && x.refreshHash in n.tables.consumed && n.tables.consumed[x.refreshHash].family == x.next.family)
            && (x.refreshHash !in t.index ==> n.exchanged == m.exchanged)
            && (x.refreshHash !in t.index ==>
                  if Replays(t, x.refreshHash)
                  then Ends(t, n.tables,
                            set a | a in t.sessions && t.sessions[a].family == t.consumed[x.refreshHash].family)
                  else n.tables == t)
  {
    hide Run, Possible, Sound, Unshared, Ends, Without, CanRotate;
    ReachableIsUnshared(now, actions);
    var m := Run(Initial(now), actions);
    var (t, x) := (m.tables, m.running[r]);
    StillCurrent(m, r);
    if x.refreshHash !in t.index && x.refreshHash in t.consumed {
      WithoutEnds(m, InFamily(t, t.consumed[x.refreshHash].family));
    }
  }

  /** As long as its token is current, what a refresh in flight has read is what it finds. */
  lemma StillCurrent(m: Machine, r: nat)
    requires Sound(m) && Unshared(m) && r in m.running
    ensures var (t, x) := (m.tables, m.running[r]);
            && (CanRotate(t, x.refreshHash, x.expected) <==> x.refreshHash in t.index)
            && (x.refreshHash in t.index ==>
                  && t.index[x.refreshHash] == x.expected && x.expected in t.sessions
                  && t.sessions[x.expected].refreshHash == x.refreshHash
                  && t.sessions[x.expected].family == x.next.family)
  {
    var (t, x) := (m.tables, m.running[r]);
    hide SpentSound, IssuedSound;
    assert RunningSound(m, x);
    hide AllRunningSound;
    if x.refreshHash in t.index {
      assert SameSession(t.sessions[t.index[x.refreshHash]], m.issued[t.index[x.refreshHash]]);
    }
  }

  // --- devices ---------------------------------------------------------------------------------------------

  /**
   * A binding that nothing crosses gives exactly an unbound session its device; one for another device than the
   * session's, or for no session, is turned away.
   */
  lemma BindingTakesHoldExactly(m: Machine, b: nat, access: string, deviceId: string)
    requires b !in m.binding && Indexed(m.tables)
    ensures var n := Apply(m, ReadBinding(b, access, deviceId));
            var t := m.tables;
            && n.tables == t
            && (b in n.binding <==> access in t.sessions && t.sessions[access].deviceId == "" && deviceId != "")
            && (b in n.binding ==>
                  var u := Apply(n, WriteBinding(b)).tables;
                  && u.index == t.index && u.consumed == t.consumed && u.sessions.Keys == t.sessions.Keys
                  && u.sessions[access].deviceId == deviceId
                  && u.sessions[access] == t.sessions[access].(deviceId := deviceId)
                  && forall a :: a in t.sessions && a != access ==> u.sessions[a] == t.sessions[a])
            && (BindRead(t, access, deviceId) == NoSession <==> access !in t.sessions)
            && (BindRead(t, access, deviceId) == OtherDevice <==>
                  access in t.sessions && t.sessions[access].deviceId !in {"", deviceId})
  {
  }

  /** Clearing a binding leaves exactly that session without its device. */
  lemma ClearingIsExact(m: Machine, access: string, deviceId: string)
    ensures var (t, u) := (m.tables, Apply(m, ClearDevice(access, deviceId)).tables);
            var held := deviceId != "" && access in t.sessions && t.sessions[access].deviceId == deviceId;
            && u.index == t.index && u.consumed == t.consumed && u.sessions.Keys == t.sessions.Keys
            && (forall a :: a in t.sessions && !(held && a == access) ==> u.sessions[a] == t.sessions[a])
            && (held ==>
                  u.sessions[access].deviceId == "" && u.sessions[access].(deviceId := deviceId) == t.sessions[access])
  {
  }
}
