/** Which device a rotated session carries, and concrete runs of refreshes and device bindings that cross. */
module RefreshDevices {
  import opened Collections
  import opened RefreshFamilies
  import opened RefreshRuns
  import opened RefreshReplay

  /** The device a step writes into a session, if it writes one. */
  ghost function Written(m: Machine, action: Action, a: string): Option<string>
    requires Enabled(m, action)
  {
    if action.WriteBinding? && m.binding[action.b].accessHash == a then Some(m.binding[action.b].deviceId)
    else if action.ClearDevice? && action.access == a && Clears(m.tables, a, action.deviceId) then Some("")
    else None
  }

  /** The last device written into a session along a run. */
  ghost function LastWritten(m: Machine, actions: seq<Action>, a: string): Option<string>
    requires Possible(m, actions)
    decreases |actions|
  {
    if actions == [] then None
    else
      var rest := LastWritten(Apply(m, actions[0]), actions[1..], a);
      if rest.Some? then rest else Written(m, actions[0], a)
  }

  /** From `m` to `n` the session was given the device written last, or kept its own. */
  predicate DeviceFollows(m: Machine, n: Machine, a: string, written: Option<string>)
    requires a in n.tables.sessions
  {
    if written.Some? then n.tables.sessions[a].deviceId == written.value
    else a in m.tables.sessions && n.tables.sessions[a].deviceId == m.tables.sessions[a].deviceId
  }

  ghost predicate OnlyDrops(t: Tables, u: Tables) {
    forall a :: a in u.sessions ==> a in t.sessions && u.sessions[a] == t.sessions[a]
  }

  lemma WithoutDrops(t: Tables, gone: set<string>)
    ensures OnlyDrops(t, Without(t, gone))
  {
  }

  lemma ReplayDrops(t: Tables, refreshHash: string)
    ensures OnlyDrops(t, t) && OnlyDrops(t, Replayed(t, refreshHash))
  {
  }

  lemma LogoutDrops(t: Tables, refreshHash: string)
    ensures OnlyDrops(t, LoggedOut(t, refreshHash))
  {
    hide OnlyDrops, Without;
    ReplayDrops(t, refreshHash);
    WithoutDrops(t, InFamily(t, ""));
    if refreshHash in t.index && t.index[refreshHash] in t.sessions {
      WithoutDrops(t, InFamily(t, t.sessions[t.index[refreshHash]].family));
    }
  }

  /** Only these two kinds of steps change the device of a session that has been installed. */
  lemma StepWrites(m: Machine, action: Action, a: string)
    requires Sound(m) && Enabled(m, action) && a in m.issued && a in Apply(m, action).tables.sessions
    ensures DeviceFollows(m, Apply(m, action), a, Written(m, action, a))
  {
    hide Sound, DeviceFollows;
    match action
    case FinishRefresh(r) => FinishWrites(m, r, a);
    case Login(_, _, _, _, _) => LoginWrites(m, action, a);
    case WriteBinding(_) => BindingWrites(m, action, a);
    case ClearDevice(_, _) => BindingWrites(m, action, a);
    case _ => NoDeviceWritten(m, action, a);
  }

  lemma LoginWrites(m: Machine, action: Action, a: string)
    requires Sound(m) && Enabled(m, action) && action.Login? && a in m.issued
    requires a in Apply(m, action).tables.sessions
    ensures DeviceFollows(m, Apply(m, action), a, None)
  {
    NotThereYet(m, action.access, action.refresh);
    hide Sound;
  }

  lemma BindingWrites(m: Machine, action: Action, a: string)
    requires Enabled(m, action) && (action.WriteBinding? || action.ClearDevice?)
    requires a in Apply(m, action).tables.sessions
    ensures DeviceFollows(m, Apply(m, action), a, Written(m, action, a))
  {
  }

  lemma FinishWrites(m: Machine, r: nat, a: string)
    requires Sound(m) && r in m.running && a in m.issued && a in Finished(m, r).tables.sessions
    ensures DeviceFollows(m, Finished(m, r), a, None)
  {
    if Rotates(m, r) {
      RotationFacts(m, r);
    }
    hide Sound;
  }

  lemma NoDeviceWritten(m: Machine, action: Action, a: string)
    requires Enabled(m, action) && a in Apply(m, action).tables.sessions
    requires !action.FinishRefresh? && !action.Login? && !action.WriteBinding? && !action.ClearDevice?
    ensures DeviceFollows(m, Apply(m, action), a, None)
  {
    assert OnlyDrops(m.tables, Apply(m, action).tables) by {
      SomeDrops(m, action);
    }
    hide Apply, Enabled;
  }

  lemma SomeDrops(m: Machine, action: Action)
    requires Enabled(m, action)
    requires !action.FinishRefresh? && !action.Login? && !action.WriteBinding? && !action.ClearDevice?
    ensures OnlyDrops(m.tables, Apply(m, action).tables)
  {
    ReplayDrops(m.tables, "");
    hide OnlyDrops, OldestExpired, Without, Replayed, LoggedOut;
    match action
    case BeginRefresh(_, refreshHash, _, _, _) => ReplayDrops(m.tables, refreshHash);
    case Logout(refreshHash) => LogoutDrops(m.tables, refreshHash);
    case RevokeAccess(access) => WithoutDrops(m.tables, {access} * m.tables.sessions.Keys);
    case RevokeUser(user) =>
      WithoutDrops(m.tables, (set a | a in m.tables.sessions && m.tables.sessions[a].user == user));
    case RevokeDevice(deviceId, product) =>
      WithoutDrops(m.tables, (set a | a in m.tables.sessions && m.tables.sessions[a].deviceId == deviceId
          && m.tables.sessions[a].product == product));
    case Cleanup(cutoff, _, gone) => CleanupDrops(m.tables, cutoff, gone);
    case _ =>
  }

  lemma CleanupDrops(t: Tables, cutoff: int, gone: set<string>)
    ensures OnlyDrops(t, Cleaned(t, cutoff, gone))
  {
    WithoutDrops(t, gone);
  }

  lemma {:induction false} DeviceIsLastWritten(m: Machine, actions: seq<Action>, a: string)
    requires Sound(m) && Possible(m, actions) && a in m.issued && a in Run(m, actions).tables.sessions
    ensures DeviceFollows(m, Run(m, actions), a, LastWritten(m, actions, a))
    decreases |actions|
  {
    if actions != [] {
      hide Sound, Apply, Enabled, Written;
      var n := Apply(m, actions[0]);
      ApplyKeeps(m, actions[0]);
      IssuedGrow(m, actions[0], a);
      DeviceIsLastWritten(n, actions[1..], a);
      if LastWritten(n, actions[1..], a).None? {
        StepWrites(m, actions[0], a);
      }
    }
  }

  lemma IssuedGrow(m: Machine, action: Action, a: string)
    requires Enabled(m, action) && a in m.issued
    ensures a in Apply(m, action).issued
  {
    hide OldestExpired;
  }

  /** Steps that leave a refresh between its phases. */
  predicate LeavesRunning(actions: seq<Action>, r: nat) {
    forall i :: 0 <= i < |actions| ==> actions[i] != FinishRefresh(r) && actions[i] != Abandon(r)
  }

  lemma {:induction false} StillRunning(m: Machine, actions: seq<Action>, r: nat)
    requires Possible(m, actions) && LeavesRunning(actions, r) && r in m.running
    ensures r in Run(m, actions).running && Run(m, actions).running[r] == m.running[r]
    decreases |actions|
  {
    if actions != [] {
      assert actions[0] != FinishRefresh(r) && actions[0] != Abandon(r);
      StepLeavesRunning(m, actions[0], r);
      hide Apply, Enabled;
      StillRunning(Apply(m, actions[0]), actions[1..], r);
    }
  }

  lemma StepLeavesRunning(m: Machine, action: Action, r: nat)
    requires Enabled(m, action) && r in m.running && action != FinishRefresh(r) && action != Abandon(r)
    ensures r in Apply(m, action).running && Apply(m, action).running[r] == m.running[r]
  {
    hide OldestExpired;
  }

  /**
   * A refresh hands its session's device on as the read phase saw it. So the rotated session has the device its
   * predecessor had to the last if and only if, between the two phases, the last step that wrote a device into that
   * predecessor (if there was one) wrote the device seen by the read phase.
   */
  lemma DeviceSurvivesExactly(now: int, before: seq<Action>, begin: Action, between: seq<Action>)
    requires Possible(Initial(now), before)
    requires var m := Run(Initial(now), before);
             && begin.BeginRefresh? && Enabled(m, begin) && begin.r in Apply(m, begin).running
             && Possible(Apply(m, begin), between) && LeavesRunning(between, begin.r)
             && Rotates(Run(Apply(m, begin), between), begin.r)
    ensures var m := Run(Initial(now), before);
            var n := Apply(m, begin);
            var x := n.running[begin.r];
            var u := Run(n, between);
            && x.expected in m.tables.sessions && x.expected in u.tables.sessions
            && var w := Apply(u, FinishRefresh(begin.r));
              && x.next.accessHash in w.tables.sessions
              && w.tables.sessions[x.next.accessHash].deviceId == m.tables.sessions[x.expected].deviceId
              && (w.tables.sessions[x.next.accessHash].deviceId == u.tables.sessions[x.expected].deviceId <==>
                  LastWritten(n, between, x.expected).None?
                  || LastWritten(n, between, x.expected) == Some(m.tables.sessions[x.expected].deviceId))
  {
    var m := Run(Initial(now), before);
    ReachableIsSound(now, before);
    hide Run, Possible;
    ApplyKeeps(m, begin);
    BegunFacts(m, begin);
    var n := Apply(m, begin);
    StillRunning(n, between, begin.r);
    hide Sound, Apply, Enabled;
    DeviceIsLastWritten(n, between, n.running[begin.r].expected);
    RotatedDevice(Run(n, between), begin.r);
  }

  lemma BegunFacts(m: Machine, begin: Action)
    requires Sound(m) && begin.BeginRefresh? && Enabled(m, begin) && begin.r in Apply(m, begin).running
    ensures var x := Apply(m, begin).running[begin.r];
            && x.expected in m.tables.sessions && x.expected in m.issued && x.expected in Apply(m, begin).issued
            && x.next.deviceId == m.tables.sessions[x.expected].deviceId
            && Apply(m, begin).tables.sessions == m.tables.sessions
  {
    hide SpentSound, AllRunningSound;
  }

  lemma RotatedDevice(u: Machine, r: nat)
    requires Rotates(u, r)
    ensures Enabled(u, FinishRefresh(r))
    ensures var x := u.running[r];
            var w := Apply(u, FinishRefresh(r));
            && x.expected in u.tables.sessions
            && x.next.accessHash in w.tables.sessions && w.tables.sessions[x.next.accessHash] == x.next
  {
  }
}
