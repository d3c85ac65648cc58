/** What every run of the refresh protocol keeps, and what exactly the two lock sections of a device binding cost. */
module RefreshReplay {
  import opened Collections
  import opened RefreshFamilies
  import opened RefreshRuns

  /** Each refresh token is exchanged at most once, however the phases of refreshes and bindings interleave. */
  lemma ExchangedAtMostOnce(now: int, actions: seq<Action>, i: nat, j: nat)
    requires Possible(Initial(now), actions)
    requires i < j < |Run(Initial(now), actions).exchanged|
    ensures var m := Run(Initial(now), actions);
            m.exchanged[i] != m.exchanged[j] && m.exchanged[i] !in m.tables.index
  {
    hide Run, Possible;
    ReachableIsSound(now, actions);
  }

  /**
   * In every reachable state no access token outlives its refresh token, whose expiry is the one the family began with,
   * and every index entry names a session that answers to it.
   */
  lemma ExpiryIsInherited(now: int, actions: seq<Action>, a: string, h: string)
    requires Possible(Initial(now), actions)
    requires var t := Run(Initial(now), actions).tables; a in t.sessions && h in t.index
    ensures var m := Run(Initial(now), actions);
            var s := m.tables.sessions[a];
            && s.expiresAt <= s.refreshExpiresAt
            && s.family in m.expiry && s.refreshExpiresAt == m.expiry[s.family]
            && m.tables.index[h] in m.tables.sessions && m.tables.sessions[m.tables.index[h]].refreshHash == h
  {
    hide Run, Possible;
    ReachableIsSound(now, actions);
    hide SpentSound, AllRunningSound;
  }

  // --- when the maps stay consistent -----------------------------------------------------------------------

  /** A binding writes back a session that has been removed since it was read. */
  predicate Stale(m: Machine, action: Action) {
    action.WriteBinding? && action.b in m.binding && m.binding[action.b].accessHash !in m.tables.sessions
  }

  /** It does so beside another session of the family. */
  ghost predicate Crowds(m: Machine, action: Action) {
    Stale(m, action)
    && exists a :: a in m.tables.sessions && m.tables.sessions[a].family == m.binding[action.b].family
  }

  ghost predicate AlwaysConsistent(m: Machine, actions: seq<Action>)
    requires Possible(m, actions)
    decreases |actions|
  {
    Consistent(m.tables) && (actions == [] || AlwaysConsistent(Apply(m, actions[0]), actions[1..]))
  }

  ghost predicate NeverStale(m: Machine, actions: seq<Action>)
    requires Possible(m, actions)
    decreases |actions|
  {
    actions == [] || (!Stale(m, actions[0]) && NeverStale(Apply(m, actions[0]), actions[1..]))
  }

  ghost predicate AlwaysOnePerFamily(m: Machine, actions: seq<Action>)
    requires Possible(m, actions)
    decreases |actions|
  {
    OnePerFamily(m.tables) && (actions == [] || AlwaysOnePerFamily(Apply(m, actions[0]), actions[1..]))
  }

  ghost predicate NeverCrowds(m: Machine, actions: seq<Action>)
    requires Possible(m, actions)
    decreases |actions|
  {
    actions == [] || (!Crowds(m, actions[0]) && NeverCrowds(Apply(m, actions[0]), actions[1..]))
  }

  ghost predicate TablesKept(t: Tables, u: Tables) {
    (EveryIndexed(t) ==> EveryIndexed(u)) && (OnePerFamily(t) ==> OnePerFamily(u))
  }

  lemma SameTables(t: Tables)
    ensures TablesKept(t, t)
  {
  }

  lemma ClearTables(m: Machine, access: string, deviceId: string)
    requires Indexed(m.tables) && Traced(m)
    ensures TablesKept(m.tables, Cleared(m.tables, access, deviceId))
  {
    ClearTraced(m, access, deviceId);
    hide EveryIndexed, OnePerFamily, Indexed, Traced;
  }

  lemma DropTables(t: Tables, gone: set<string>)
    requires Indexed(t)
    ensures TablesKept(t, Without(t, gone))
  {
    DroppingKeeps(t, gone);
  }

  lemma ReplayTables(t: Tables, refreshHash: string)
    requires Indexed(t)
    ensures TablesKept(t, Replayed(t, refreshHash))
  {
    if refreshHash in t.consumed {
      DropTables(t, InFamily(t, t.consumed[refreshHash].family));
    }
  }

  lemma LogoutTables(t: Tables, refreshHash: string)
    requires Indexed(t)
    ensures TablesKept(t, LoggedOut(t, refreshHash))
  {
    hide TablesKept, Indexed, Without, Replayed;
    ReplayTables(t, refreshHash);
    DropTables(t, InFamily(t, ""));
    if refreshHash in t.index && t.index[refreshHash] in t.sessions {
      DropTables(t, InFamily(t, t.sessions[t.index[refreshHash]].family));
    }
  }

  lemma LoginTables(m: Machine, access: string, refresh: string, product: Product, audience: Audience, user: string)
    requires Sound(m) && Fresh(m, access, refresh)
    ensures TablesKept(m.tables, Inserted(m.tables, NewSession(m, access, refresh, product, audience, user)))
  {
    NotThereYet(m, access, refresh);
    InsertingKeeps(m.tables, NewSession(m, access, refresh, product, audience, user));
    hide Sound, EveryIndexed, OnePerFamily, Indexed;
  }

  lemma FinishTables(m: Machine, r: nat)
    requires Sound(m) && r in m.running
    ensures TablesKept(m.tables, Finished(m, r).tables)
  {
    if Rotates(m, r) {
      ExchangeKeepsIndexed(m, r);
    } else {
      ReplayTables(m.tables, m.running[r].refreshHash);
    }
    hide Sound, EveryIndexed, OnePerFamily, Indexed;
  }

  lemma CleanupTables(t: Tables, cutoff: int, gone: set<string>)
    requires Indexed(t)
    ensures TablesKept(t, Cleaned(t, cutoff, gone))
  {
    DropTables(t, gone);
  }

  /** Every other step keeps the maps consistent. */
  lemma OtherStepsKeep(m: Machine, action: Action)
    requires Sound(m) && Enabled(m, action) && !action.WriteBinding?
    ensures TablesKept(m.tables, Apply(m, action).tables)
  {
    match action
    case Login(access, refresh, product, audience, user) => LoginTables(m, access, refresh, product, audience, user);
    case FinishRefresh(r) => FinishTables(m, r);
    case ClearDevice(access, deviceId) => ClearTables(m, access, deviceId);
    case _ => DroppingSteps(m, action);
    hide Sound, TablesKept;
  }

  lemma DroppingSteps(m: Machine, action: Action)
    requires Indexed(m.tables) && Enabled(m, action)
    requires !action.Login? && !action.FinishRefresh? && !action.ClearDevice? && !action.WriteBinding?
    ensures TablesKept(m.tables, Apply(m, action).tables)
  {
    hide TablesKept, Indexed, LoggedOut, Replayed, Without, OldestExpired;
    SameTables(m.tables);
    match action
    case BeginRefresh(r, refreshHash, access, refresh, admitted) => ReplayTables(m.tables, refreshHash);
    case Logout(refreshHash) => LogoutTables(m.tables, refreshHash);
    case RevokeAccess(access) => DropTables(m.tables, {access} * m.tables.sessions.Keys);
    case RevokeUser(user) => DropTables(m.tables, set a | a in m.tables.sessions && m.tables.sessions[a].user == user);
    case RevokeDevice(deviceId, product) =>
      DropTables(m.tables, set a | a in m.tables.sessions && m.tables.sessions[a].deviceId == deviceId
          && m.tables.sessions[a].product == product);
    case Cleanup(cutoff, batch, gone) => CleanupTables(m.tables, cutoff, gone);
    case _ =>
  }

  lemma StepConsistency(m: Machine, action: Action)
    requires Sound(m) && Enabled(m, action)
    ensures Consistent(m.tables) ==> (Consistent(Apply(m, action).tables) <==> !Stale(m, action))
    ensures OnePerFamily(m.tables) ==> (OnePerFamily(Apply(m, action).tables) <==> !Crowds(m, action))
  {
    ApplyKeeps(m, action);
    assert Indexed(m.tables) && Traced(m) && Indexed(Apply(m, action).tables);
    hide Sound, Indexed, EveryIndexed, OnePerFamily;
    if action.WriteBinding? {
      WriteBindingIndexed(m, action.b);
    } else {
      OtherStepsKeep(m, action);
      hide Apply;
    }
  }

  /**
   * Sessions and index stay each other's inverse, with one session a family, along exactly those runs in which no
   * device binding writes back a session that was removed after it had been read.
   */
  lemma ConsistentExactlyWithoutStaleWrites(now: int, actions: seq<Action>)
    requires Possible(Initial(now), actions)
    ensures AlwaysConsistent(Initial(now), actions) <==> NeverStale(Initial(now), actions)
  {
    InitialIsSound(now);
    hide Possible, AlwaysConsistent, NeverStale, Sound;
    ConsistentFrom(Initial(now), actions);
  }

  lemma {:induction false} ConsistentFrom(m: Machine, actions: seq<Action>)
    requires Sound(m) && Possible(m, actions) && Consistent(m.tables)
    ensures AlwaysConsistent(m, actions) <==> NeverStale(m, actions)
    decreases |actions|
  {
    hide Sound, Apply, Enabled, Consistent, Stale;
    if actions != [] {
      ApplyKeeps(m, actions[0]);
      StepConsistency(m, actions[0]);
      if Stale(m, actions[0]) {
        assert !AlwaysConsistent(Apply(m, actions[0]), actions[1..]);
      } else {
        ConsistentFrom(Apply(m, actions[0]), actions[1..]);
      }
    }
  }

  /**
   * A family has at most one session along exactly those runs in which no such write finds another session of the
   * family.
   */
  lemma OneSessionPerFamilyExactly(now: int, actions: seq<Action>)
    requires Possible(Initial(now), actions)
    ensures AlwaysOnePerFamily(Initial(now), actions) <==> NeverCrowds(Initial(now), actions)
  {
    InitialIsSound(now);
    hide Possible, AlwaysOnePerFamily, NeverCrowds, Sound;
    OnePerFamilyFrom(Initial(now), actions);
  }

  lemma {:induction false} OnePerFamilyFrom(m: Machine, actions: seq<Action>)
    requires Sound(m) && Possible(m, actions) && OnePerFamily(m.tables)
    ensures AlwaysOnePerFamily(m, actions) <==> NeverCrowds(m, actions)
    decreases |actions|
  {
    hide Sound, Apply, Enabled, OnePerFamily, Crowds;
    if actions != [] {
      ApplyKeeps(m, actions[0]);
      StepConsistency(m, actions[0]);
      if Crowds(m, actions[0]) {
        assert !AlwaysOnePerFamily(Apply(m, actions[0]), actions[1..]);
      } else {
        OnePerFamilyFrom(Apply(m, actions[0]), actions[1..]);
      }
    }
  }

  // --- replay ----------------------------------------------------------------------------------------------

  /** Presenting a refresh token, in the read phase, the rotate phase or a logout. */
  predicate Presents(m: Machine, action: Action, refreshHash: string) {
    || (action.BeginRefresh? && action.refreshHash == refreshHash)
    || (action.FinishRefresh? && action.r in m.running && m.running[action.r].refreshHash == refreshHash)
    || (action.Logout? && action.refreshHash == refreshHash)
  }

  ghost predicate NoneLeft(m: Machine, family: string) {
    forall a :: a in m.tables.sessions ==> m.tables.sessions[a].family != family
  }

  predicate Answers(m: Machine, h: string, family: string) {
    h in m.tables.index && m.tables.index[h] in m.tables.sessions
    && m.tables.sessions[m.tables.index[h]].family == family
  }

  /** A session of the family that authenticates a request, or whose refresh token can be exchanged. */
  predicate Live(m: Machine, family: string, a: string) {
    && a in m.tables.sessions && m.tables.sessions[a].family == family
    && var s := m.tables.sessions[a];
      m.now <= s.expiresAt
      || (s.refreshHash in m.tables.index && m.tables.index[s.refreshHash] == a && m.now <= s.refreshExpiresAt)
  }

  /** No session of the family is live, and none can come from an exchange. */
  ghost predicate Dead(m: Machine, family: string) {
    && family in m.expiry
    && (forall a :: a in m.tables.sessions && m.tables.sessions[a].family == family ==>
          m.tables.sessions[a].expiresAt < m.now)
    && (m.expiry[family] < m.now || forall h :: !Answers(m, h, family))
  }

  /** A binding writes back a session of the family that has not expired yet. */
  predicate Revives(m: Machine, action: Action, family: string) {
    action.WriteBinding? && action.b in m.binding && m.binding[action.b].family == family
    && m.now <= m.binding[action.b].expiresAt
  }

  ghost predicate EverLive(m: Machine, actions: seq<Action>, family: string)
    requires Possible(m, actions)
    decreases |actions|
  {
    (exists a :: Live(m, family, a)) || (actions != [] && EverLive(Apply(m, actions[0]), actions[1..], family))
  }

  ghost predicate EverRevived(m: Machine, actions: seq<Action>, family: string)
    requires Possible(m, actions)
    decreases |actions|
  {
    actions != []
    && (Revives(m, actions[0], family) || EverRevived(Apply(m, actions[0]), actions[1..], family))
  }

  lemma DeadIsNotLive(m: Machine, family: string, a: string)
    requires Sound(m) && Dead(m, family)
    ensures !Live(m, family, a)
  {
    if a in m.tables.sessions && m.tables.sessions[a].family == family {
      assert SameSession(m.tables.sessions[a], m.issued[a]);
      assert m.tables.sessions[a].refreshExpiresAt == m.expiry[family];
      var h := m.tables.sessions[a].refreshHash;
      assert h in m.tables.index && m.tables.index[h] == a ==> Answers(m, h, family);
    }
    hide SpentSound, AllRunningSound, Indexed;
  }

  /** Steps after which there are no other sessions or index entries than before. */
  lemma FewerStaysDead(m: Machine, n: Machine, family: string)
    requires Dead(m, family) && m.now <= n.now
    requires forall f :: f in m.expiry ==> f in n.expiry && n.expiry[f] == m.expiry[f]
    requires forall a :: a in n.tables.sessions && n.tables.sessions[a].family == family ==>
               a in m.tables.sessions && SameSession(n.tables.sessions[a], m.tables.sessions[a])
    requires forall h :: Answers(n, h, family) ==> Answers(m, h, family)
    ensures Dead(n, family)
  {
  }

  lemma ReplayStaysDead(m: Machine, refreshHash: string, family: string)
    requires Dead(m, family)
    ensures Dead(m.(tables := Replayed(m.tables, refreshHash)), family)
  {
    FewerStaysDead(m, m.(tables := Replayed(m.tables, refreshHash)), family);
  }

  lemma RotationStaysDead(m: Machine, r: nat, family: string)
    requires Sound(m) && Rotates(m, r) && Dead(m, family)
    ensures Dead(Finished(m, r), family)
  {
    var x, n := m.running[r], Finished(m, r);
    RotationFacts(m, r);
    assert RunningSound(m, x);
    hide Sound;
    if x.next.family == family {
      assert Answers(m, x.refreshHash, family);
      assert m.expiry[family] < m.now;
    } else {
      forall h | Answers(n, h, family) ensures Answers(m, h, family) {
      }
    }
    forall a | a in n.tables.sessions && n.tables.sessions[a].family == family
      ensures n.tables.sessions[a].expiresAt < m.now
    {
    }
  }

  /** A rotation installs a session only of a family of which an index entry is left, or one that has expired. */
  lemma FinishStaysDead(m: Machine, r: nat, family: string)
    requires Sound(m) && r in m.running && Dead(m, family)
    ensures Dead(Finished(m, r), family)
  {
    if Rotates(m, r) {
      RotationStaysDead(m, r, family);
    } else {
      hide Sound, Dead;
      ReplayStaysDead(m, m.running[r].refreshHash, family);
      RunningIsNoMatter(m.(tables := Replayed(m.tables, m.running[r].refreshHash)), Finished(m, r), family);
    }
  }

  lemma DropStaysDead(m: Machine, gone: set<string>, family: string)
    requires Dead(m, family)
    ensures Dead(m.(tables := Without(m.tables, gone)), family)
  {
    FewerStaysDead(m, m.(tables := Without(m.tables, gone)), family);
  }

  lemma RunningIsNoMatter(m: Machine, n: Machine, family: string)
    requires Dead(m, family) && n.tables == m.tables && n.now == m.now && n.expiry == m.expiry
    ensures Dead(n, family)
  {
    FewerStaysDead(m, n, family);
  }

  lemma LoginStaysDead(m: Machine, access: string, refresh: string, product: Product, audience: Audience, user: string,
                       family: string)
    requires Sound(m) && Fresh(m, access, refresh) && Dead(m, family)
    ensures Dead(Apply(m, Login(access, refresh, product, audience, user)), family)
  {
    assert family != refresh && refresh !in m.expiry;
    NotThereYet(m, access, refresh);
    hide Sound;
    FewerStaysDead(m, Apply(m, Login(access, refresh, product, audience, user)), family);
  }

  /** The copy written back was expired, and it comes without an index entry of its own. */
  lemma WriteStaysDead(m: Machine, b: nat, family: string)
    requires Sound(m) && b in m.binding && Dead(m, family) && !Revives(m, WriteBinding(b), family)
    ensures Dead(BindingWritten(m, b), family)
  {
    assert Indexed(m.tables) && Traced(m);
    hide Sound, Dead;
    forall h | Answers(BindingWritten(m, b), h, family) ensures Answers(m, h, family) {
      WriteAnswersNoMore(m, b, h, family);
    }
    WrittenIsDead(m, b, family);
  }

  lemma WriteAnswersNoMore(m: Machine, b: nat, h: string, family: string)
    requires Indexed(m.tables) && Traced(m) && b in m.binding && Answers(BindingWritten(m, b), h, family)
    ensures Answers(m, h, family)
  {
    if m.binding[b].accessHash in m.tables.sessions {
      CopyAgrees(m, b);
    }
    hide Traced;
  }

  lemma WrittenIsDead(m: Machine, b: nat, family: string)
    requires b in m.binding && Dead(m, family) && !Revives(m, WriteBinding(b), family)
    requires forall h :: Answers(BindingWritten(m, b), h, family) ==> Answers(m, h, family)
    ensures Dead(BindingWritten(m, b), family)
  {
    hide Answers;
  }

  lemma StaysDead(m: Machine, action: Action, family: string)
    requires Sound(m) && Enabled(m, action) && Dead(m, family) && !Revives(m, action, family)
    ensures Dead(Apply(m, action), family)
  {
    hide Sound, Dead, Replayed, OldestExpired;
    match action
    case FinishRefresh(r) => FinishStaysDead(m, r, family);
    case Login(access, refresh, product, audience, user) =>
      LoginStaysDead(m, access, refresh, product, audience, user, family);
    case WriteBinding(b) => WriteStaysDead(m, b, family);
    case BeginRefresh(r, refreshHash, access, refresh, admitted) =>
      ReplayStaysDead(m, refreshHash, family);
      RunningIsNoMatter(m, Apply(m, action).(tables := m.tables), family);
      RunningIsNoMatter(m.(tables := Replayed(m.tables, refreshHash)),
                        Apply(m, action).(tables := Replayed(m.tables, refreshHash)), family);
    case Logout(refreshHash) =>
      ReplayStaysDead(m, refreshHash, family);
      DropStaysDead(m, InFamily(m.tables, ""), family);
      if refreshHash in m.tables.index && m.tables.index[refreshHash] in m.tables.sessions {
        DropStaysDead(m, InFamily(m.tables, m.tables.sessions[m.tables.index[refreshHash]].family), family);
      }
    case RevokeAccess(access) => DropStaysDead(m, {access} * m.tables.sessions.Keys, family);
    case RevokeUser(user) =>
      DropStaysDead(m, (set a | a in m.tables.sessions && m.tables.sessions[a].user == user), family);
    case RevokeDevice(deviceId, product) =>
      DropStaysDead(m, (set a | a in m.tables.sessions && m.tables.sessions[a].deviceId == deviceId
          && m.tables.sessions[a].product == product), family);
    case ClearDevice(access, deviceId) => FewerStaysDead(m, Apply(m, action), family);
    case Cleanup(cutoff, batch, gone) =>
      DropStaysDead(m, gone, family);
      FewerStaysDead(m.(tables := Without(m.tables, gone)), Apply(m, action), family);
    case _ => FewerStaysDead(m, Apply(m, action), family);
  }

  lemma RevivedIsLive(m: Machine, action: Action, family: string)
    requires Enabled(m, action) && Revives(m, action, family)
    ensures exists a :: Live(Apply(m, action), family, a)
  {
    assert Live(Apply(m, action), family, m.binding[action.b].accessHash);
  }

  lemma NowLive(m: Machine, actions: seq<Action>, family: string)
    requires Possible(m, actions) && exists a :: Live(m, family, a)
    ensures EverLive(m, actions, family)
  {
  }

  /** From a dead family a live session comes out of a late write only. */
  lemma {:induction false} LiveExactlyIfRevived(m: Machine, actions: seq<Action>, family: string)
    requires Sound(m) && Possible(m, actions) && Dead(m, family)
    ensures EverLive(m, actions, family) <==> EverRevived(m, actions, family)
    decreases |actions|
  {
    forall a ensures !Live(m, family, a) {
      DeadIsNotLive(m, family, a);
    }
    hide Sound, Apply, Enabled, Dead, Revives, Live;
    if actions != [] {
      ApplyKeeps(m, actions[0]);
      if Revives(m, actions[0], family) {
        RevivedIsLive(m, actions[0], family);
        NowLive(Apply(m, actions[0]), actions[1..], family);
      } else {
        StaysDead(m, actions[0], family);
        LiveExactlyIfRevived(Apply(m, actions[0]), actions[1..], family);
      }
    }
  }

  lemma SpentIsKnown(m: Machine, refreshHash: string)
    requires Sound(m) && refreshHash in m.exchanged
    ensures refreshHash in m.spent && m.spent[refreshHash].family in m.expiry
    ensures refreshHash in m.tables.consumed ==> m.tables.consumed[refreshHash] == m.spent[refreshHash]
    ensures refreshHash !in m.tables.consumed ==> m.expiry[m.spent[refreshHash].family] < m.now
  {
    hide Indexed, IssuedSound, Traced, AllRunningSound;
  }

  lemma ReplayEmptiesFamily(m: Machine, action: Action, refreshHash: string)
    requires Indexed(m.tables) && Enabled(m, action) && Presents(m, action, refreshHash)
    requires refreshHash in m.tables.consumed
    ensures var n := Apply(m, action);
            NoneLeft(n, m.tables.consumed[refreshHash].family) && n.now == m.now && n.expiry == m.expiry
  {
    assert refreshHash !in m.tables.index;
  }

  lemma ExpiredIsDead(m: Machine, family: string)
    requires Sound(m) && family in m.expiry && m.expiry[family] < m.now
    ensures Dead(m, family)
  {
    hide SpentSound, AllRunningSound, Indexed;
  }

  lemma ExpiryKept(m: Machine, action: Action, family: string)
    requires Sound(m) && Enabled(m, action) && family in m.expiry
    ensures var n := Apply(m, action); m.now <= n.now && family in n.expiry && n.expiry[family] == m.expiry[family]
  {
    hide Indexed, IssuedSound, Traced, AllRunningSound, SpentSound;
  }

  /** Right after the replay its family is dead. */
  lemma ReplayedIsDead(m: Machine, action: Action, refreshHash: string)
    requires Sound(m) && Enabled(m, action) && Presents(m, action, refreshHash) && refreshHash in m.exchanged
    ensures refreshHash in m.spent && Dead(Apply(m, action), m.spent[refreshHash].family)
    ensures refreshHash in m.tables.consumed ==> NoneLeft(Apply(m, action), m.spent[refreshHash].family)
  {
    SpentIsKnown(m, refreshHash);
    ApplyKeeps(m, action);
    ExpiryKept(m, action, m.spent[refreshHash].family);
    assert Indexed(m.tables);
    hide Sound, Apply, Enabled;
    if refreshHash in m.tables.consumed {
      ReplayEmptiesFamily(m, action, refreshHash);
    } else {
      ExpiredIsDead(Apply(m, action), m.spent[refreshHash].family);
    }
  }

  /**
   * Replay detection. When a spent refresh token is presented, in either phase or at logout, whatever refreshes are in
   * flight, its family has no session left (if the token is still remembered), and along any further run it has a live
   * session again if and only if a device binding writes back a session of the family that has not expired.
   */
  lemma ReplayKillsFamily(now: int, before: seq<Action>, action: Action, later: seq<Action>, refreshHash: string)
    requires Possible(Initial(now), before)
    requires var m := Run(Initial(now), before);
             Enabled(m, action) && Presents(m, action, refreshHash) && refreshHash in m.exchanged
                 && Possible(Apply(m, action), later)
    ensures var m := Run(Initial(now), before);
            refreshHash in m.spent
            && var n, family := Apply(m, action), m.spent[refreshHash].family;
               && (refreshHash in m.tables.consumed ==> NoneLeft(n, family))
               && (EverLive(n, later, family) <==> EverRevived(n, later, family))
  {
    var m := Run(Initial(now), before);
    ReachableIsSound(now, before);
    hide Run, Possible, Sound, Apply, Enabled;
    ApplyKeeps(m, action);
    ReplayedIsDead(m, action, refreshHash);
    LiveExactlyIfRevived(Apply(m, action), later, m.spent[refreshHash].family);
  }

  /** No device binding still holds an unexpired session of the family. */
  ghost predicate NoneWaiting(m: Machine, family: string) {
    forall b :: b in m.binding && m.binding[b].family == family ==> m.binding[b].expiresAt < m.now
  }

  lemma StaysNoneWaiting(m: Machine, action: Action, family: string)
    requires Enabled(m, action) && Dead(m, family) && NoneWaiting(m, family)
    requires m.now <= Apply(m, action).now
    ensures NoneWaiting(Apply(m, action), family) && !Revives(m, action, family)
  {
    hide OldestExpired, Indexed;
  }

  lemma {:induction false} NeverRevived(m: Machine, actions: seq<Action>, family: string)
    requires Sound(m) && Possible(m, actions) && Dead(m, family) && NoneWaiting(m, family)
    ensures !EverRevived(m, actions, family)
    decreases |actions|
  {
    if actions != [] {
      assert family in m.expiry;
      hide Sound, Apply, Enabled, Dead, Revives, NoneWaiting;
      ApplyKeeps(m, actions[0]);
      ExpiryKept(m, actions[0], family);
      StaysNoneWaiting(m, actions[0], family);
      StaysDead(m, actions[0], family);
      NeverRevived(Apply(m, actions[0]), actions[1..], family);
    }
  }

  /**
   * Whether the replay is final can be told at once: no continuation ever brings the family back to life, if and only
   * if no device binding in flight holds an unexpired session of it.
   */
  lemma ReplayIsFinalExactly(now: int, before: seq<Action>, action: Action, refreshHash: string)
    requires Possible(Initial(now), before)
    requires var m := Run(Initial(now), before);
             Enabled(m, action) && Presents(m, action, refreshHash) && refreshHash in m.exchanged
    ensures var m := Run(Initial(now), before);
            refreshHash in m.spent
            && var n, family := Apply(m, action), m.spent[refreshHash].family;
               (forall later :: Possible(n, later) ==> !EverLive(n, later, family)) <==> NoneWaiting(n, family)
  {
    var m := Run(Initial(now), before);
    ReachableIsSound(now, before);
    hide Run, Possible, Sound, Apply, Enabled, NoneWaiting;
    ApplyKeeps(m, action);
    ReplayedIsDead(m, action, refreshHash);
    FinalExactly(Apply(m, action), m.spent[refreshHash].family);
  }

  lemma FinalExactly(n: Machine, family: string)
    requires Sound(n) && Dead(n, family)
    ensures (forall later :: Possible(n, later) ==> !EverLive(n, later, family)) <==> NoneWaiting(n, family)
  {
    hide Sound, Apply, Enabled, Dead, Possible, EverLive, NoneWaiting, Live;
    if NoneWaiting(n, family) {
      forall later | Possible(n, later) ensures !EverLive(n, later, family) {
        LiveExactlyIfRevived(n, later, family);
        NeverRevived(n, later, family);
      }
    } else {
      var later := WaitingRevives(n, family);
    }
  }

  lemma WaitingRevives(m: Machine, family: string) returns (later: seq<Action>)
    requires !NoneWaiting(m, family)
    ensures Possible(m, later) && EverLive(m, later, family)
  {
    var b :| b in m.binding && m.binding[b].family == family && m.now <= m.binding[b].expiresAt;
    RevivedIsLive(m, WriteBinding(b), family);
    later := [WriteBinding(b)];
    hide Apply, Live;
    assert later[1..] == [] && Possible(m, later);
    NowLive(Apply(m, later[0]), later[1..], family);
  }

  // --- forgetting spent tokens -----------------------------------------------------------------------------

  lemma ReplayForgetsNothing(t: Tables, refreshHash: string)
    ensures Replayed(t, refreshHash).consumed == t.consumed && LoggedOut(t, refreshHash).consumed == t.consumed
  {
  }

  lemma PresentingForgetsNothing(m: Machine, action: Action)
    requires Enabled(m, action) && (action.BeginRefresh? || action.Logout?)
    ensures Apply(m, action).tables.consumed == m.tables.consumed
  {
    hide Replayed, LoggedOut;
    ReplayForgetsNothing(m.tables, action.refreshHash);
  }

  lemma FinishForgetsNothing(m: Machine, action: Action)
    requires action.FinishRefresh? && Enabled(m, action)
    ensures m.tables.consumed.Keys <= Apply(m, action).tables.consumed.Keys
  {
    hide Without;
    ReplayForgetsNothing(m.tables, m.running[action.r].refreshHash);
  }

  lemma DropForgetsNothing(m: Machine, action: Action)
    requires Enabled(m, action)
    requires !action.BeginRefresh? && !action.Logout? && !action.FinishRefresh? && !action.Cleanup?
    ensures Apply(m, action).tables.consumed == m.tables.consumed
  {
    hide OldestExpired;
  }

  lemma CleanupForgets(m: Machine, action: Action, h: string)
    requires action.Cleanup? && Enabled(m, action)
    requires h in m.tables.consumed && h !in Apply(m, action).tables.consumed
    ensures m.tables.consumed[h].refreshExpiresAt < action.cutoff <= m.now
  {
    hide OldestExpired, Without;
  }

  /** Only a retention pass forgets spent tokens. */
  lemma OnlyCleanupForgets(m: Machine, action: Action, refreshHash: string)
    requires Enabled(m, action) && refreshHash in m.tables.consumed && refreshHash !in Apply(m, action).tables.consumed
    ensures action.Cleanup? && m.tables.consumed[refreshHash].refreshExpiresAt < action.cutoff <= m.now
  {
    hide Apply, Enabled;
    match action
    case BeginRefresh(_, _, _, _, _) => PresentingForgetsNothing(m, action);
    case Logout(_) => PresentingForgetsNothing(m, action);
    case FinishRefresh(_) => FinishForgetsNothing(m, action);
    case Cleanup(_, _, _) => CleanupForgets(m, action, refreshHash);
    case _ => DropForgetsNothing(m, action);
  }

  lemma FamilySharesExpiry(m: Machine, refreshHash: string, a: string)
    requires Sound(m) && refreshHash in m.tables.consumed
    requires a in m.tables.sessions && m.tables.sessions[a].family == m.tables.consumed[refreshHash].family
    ensures m.tables.sessions[a].refreshExpiresAt == m.tables.consumed[refreshHash].refreshExpiresAt
  {
    hide AllRunningSound, Indexed;
  }

  /** A spent token is forgotten only when its whole family is past its refresh expiry. */
  lemma ForgetsOnlyExpiredFamilies(now: int, actions: seq<Action>, action: Action, refreshHash: string)
    requires Possible(Initial(now), actions)
    requires Enabled(Run(Initial(now), actions), action)
    ensures var m := Run(Initial(now), actions);
            refreshHash in m.tables.consumed && refreshHash !in Apply(m, action).tables.consumed ==>
              && action.Cleanup?
              && forall a ::
                   a in m.tables.sessions && m.tables.sessions[a].family == m.tables.consumed[refreshHash].family ==>
                     m.tables.sessions[a].refreshExpiresAt < action.cutoff <= m.now
  {
    var m := Run(Initial(now), actions);
    hide Run, Possible;
    ReachableIsSound(now, actions);
    if refreshHash in m.tables.consumed && refreshHash !in Apply(m, action).tables.consumed {
      OnlyCleanupForgets(m, action, refreshHash);
      hide Sound, Apply;
      forall a | a in m.tables.sessions && m.tables.sessions[a].family == m.tables.consumed[refreshHash].family
        ensures m.tables.sessions[a].refreshExpiresAt < action.cutoff
      {
        FamilySharesExpiry(m, refreshHash, a);
      }
    }
  }
}
