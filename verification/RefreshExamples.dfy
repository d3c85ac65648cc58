/**
 * Concrete runs in which a device binding and a refresh cross: a replayed family comes back to life, a family gets two
 * sessions, a rotation loses the device. The hashes are any six different ones.
 */
module RefreshExamples {
  import opened Collections
  import opened RefreshFamilies
  import opened RefreshRuns
  import opened RefreshReplay
  import opened RefreshDevices

  /** Access and refresh hashes in turn, as many as the runs need. */
  predicate Different(h: seq<string>) {
    |h| == 6 && forall i, j :: 0 <= i < j < |h| ==> h[i] != h[j]
  }

  ghost predicate Reaches(now: int, actions: seq<Action>, m: Machine) {
    Possible(Initial(now), actions) && Run(Initial(now), actions) == m
  }

  lemma {:induction false} RunAppends(m: Machine, actions: seq<Action>, action: Action)
    requires Possible(m, actions) && Enabled(Run(m, actions), action)
    ensures Possible(m, actions + [action]) && Run(m, actions + [action]) == Apply(Run(m, actions), action)
    decreases |actions|
  {
    hide Apply, Enabled;
    var all := actions + [action];
    if actions == [] {
      assert all[0] == action && all[1..] == [];
    } else {
      RunAppends(Apply(m, actions[0]), actions[1..], action);
      assert all[0] == actions[0] && all[1..] == actions[1..] + [action];
    }
  }

  lemma OneMore(now: int, actions: seq<Action>, m: Machine, action: Action)
    requires Reaches(now, actions, m) && Enabled(m, action)
    ensures Reaches(now, actions + [action], Apply(m, action))
  {
    hide Apply, Enabled, Possible, Run;
    RunAppends(Initial(now), actions, action);
  }

  function FirstSession(now: int, h: seq<string>): Session
    requires Different(h)
  {
    Session(h[0], h[1], now + ACCESS_SECONDS, now + REFRESH_SECONDS, AutoLive, DesktopAudience, h[1], 0, "user", "")
  }

  function SecondSession(now: int, h: seq<string>): Session
    requires Different(h)
  {
    FirstSession(now, h).(accessHash := h[2], refreshHash := h[3], generation := 1)
  }

  function FirstLogin(h: seq<string>): Action
    requires Different(h)
  {
    Login(h[0], h[1], AutoLive, DesktopAudience, "user")
  }

  function FirstRefresh(h: seq<string>): Action
    requires Different(h)
  {
    BeginRefresh(0, h[1], h[2], h[3], true)
  }

  function LoggedIn(now: int, h: seq<string>): Machine
    requires Different(h)
  {
    Initial(now).(tables := Tables(map[h[0] := FirstSession(now, h)], map[h[1] := h[0]], map[]), drawn := {h[0], h[1]},
                  issued := map[h[0] := FirstSession(now, h)], expiry := map[h[1] := now + REFRESH_SECONDS])
  }

  function Refreshing(now: int, h: seq<string>): Machine
    requires Different(h)
  {
    LoggedIn(now, h).(drawn := {h[0], h[1], h[2], h[3]},
                      running := map[0 := Running(h[1], h[0], SecondSession(now, h))])
  }

  lemma ReachesLoggedIn(now: int, h: seq<string>)
    requires Different(h)
    ensures Reaches(now, [FirstLogin(h)], LoggedIn(now, h))
  {
    assert Reaches(now, [], Initial(now));
    OneMore(now, [], Initial(now), FirstLogin(h));
    assert [] + [FirstLogin(h)] == [FirstLogin(h)];
    var m := Apply(Initial(now), FirstLogin(h));
    assert m.drawn == {h[0], h[1]};
  }

  lemma BeginsRefreshing(now: int, h: seq<string>)
    requires Different(h)
    ensures Enabled(LoggedIn(now, h), FirstRefresh(h)) && Apply(LoggedIn(now, h), FirstRefresh(h)) == Refreshing(now, h)
  {
    assert {h[0], h[1]} + {h[2], h[3]} == {h[0], h[1], h[2], h[3]};
  }

  /** The state after the first refresh, with `copies` waiting to be written back. */
  function Refreshed(now: int, h: seq<string>, copies: map<nat, Session>): Machine
    requires Different(h)
  {
    Refreshing(now, h).(
      tables := Tables(map[h[2] := SecondSession(now, h)], map[h[3] := h[2]],
                       map[h[1] := Consumed(h[1], now + REFRESH_SECONDS)]),
      running := map[], binding := copies,
      issued := map[h[0] := FirstSession(now, h), h[2] := SecondSession(now, h)],
      exchanged := [h[1]], spent := map[h[1] := Consumed(h[1], now + REFRESH_SECONDS)])
  }

  lemma FinishesRefreshing(now: int, h: seq<string>, copies: map<nat, Session>)
    requires Different(h)
    ensures var m := Refreshing(now, h).(binding := copies);
            Enabled(m, FinishRefresh(0)) && Apply(m, FinishRefresh(0)) == Refreshed(now, h, copies)
  {
    var m := Refreshing(now, h).(binding := copies);
    var n := Apply(m, FinishRefresh(0));
    assert Rotates(m, 0);
    assert n.tables.sessions == Refreshed(now, h, copies).tables.sessions;
    assert n.tables.index == Refreshed(now, h, copies).tables.index;
    assert n.running == map[];
    assert n.exchanged == [h[1]];
  }

  lemma ReachesRefreshed(now: int, h: seq<string>)
    requires Different(h)
    ensures Reaches(now, [FirstLogin(h), FirstRefresh(h), FinishRefresh(0)], Refreshed(now, h, map[]))
  {
    ReachesLoggedIn(now, h);
    BeginsRefreshing(now, h);
    FinishesRefreshing(now, h, map[]);
    assert Refreshing(now, h).(binding := map[]) == Refreshing(now, h);
    hide Reaches, Apply, Enabled;
    OneMore(now, [FirstLogin(h)], LoggedIn(now, h), FirstRefresh(h));
    assert [FirstLogin(h)] + [FirstRefresh(h)] == [FirstLogin(h), FirstRefresh(h)];
    OneMore(now, [FirstLogin(h), FirstRefresh(h)], Refreshing(now, h), FinishRefresh(0));
    assert [FirstLogin(h), FirstRefresh(h)] + [FinishRefresh(0)] == [FirstLogin(h), FirstRefresh(h), FinishRefresh(0)];
  }

  /**
   * A client binds its device while somebody else replays its spent token: the replay removes the family's sessions,
   * the write puts the current one back, and it authenticates requests although it can no longer be refreshed.
   */
  lemma LateWriteRevivesFamily(now: int, h: seq<string>, deviceId: string)
    requires Different(h) && deviceId != ""
    ensures var before := [FirstLogin(h), FirstRefresh(h), FinishRefresh(0), ReadBinding(0, h[2], deviceId)];
            var replay := BeginRefresh(1, h[1], h[4], h[5], true);
            && Possible(Initial(now), before)
            && var m := Run(Initial(now), before);
              && Enabled(m, replay) && Presents(m, replay, h[1]) && h[1] in m.exchanged && h[1] in m.tables.consumed
              && var n := Apply(m, replay);
                && NoneLeft(n, h[1]) && Enabled(n, WriteBinding(0))
                && var u := Apply(n, WriteBinding(0));
                  Live(u, h[1], h[2]) && h[3] !in u.tables.index
  {
    var start := [FirstLogin(h), FirstRefresh(h), FinishRefresh(0)];
    var read := ReadBinding(0, h[2], deviceId);
    var m := Refreshed(now, h, map[0 := SecondSession(now, h).(deviceId := deviceId)]);
    ReachesRefreshed(now, h);
    ReadsSecond(now, h, deviceId);
    ReplayAndWrite(now, h, deviceId);
    hide Run, Possible, Apply, Enabled, Live, NoneLeft, Refreshed, SecondSession, Reaches;
    OneMore(now, start, Refreshed(now, h, map[]), read);
    assert start + [read] == [FirstLogin(h), FirstRefresh(h), FinishRefresh(0), read];
    ReachedState(now, start + [read], m);
  }

  lemma ReadsSecond(now: int, h: seq<string>, deviceId: string)
    requires Different(h) && deviceId != ""
    ensures var m, read := Refreshed(now, h, map[]), ReadBinding(0, h[2], deviceId);
            Enabled(m, read)
            && Apply(m, read) == Refreshed(now, h, map[0 := SecondSession(now, h).(deviceId := deviceId)])
  {
  }

  lemma ReplayAndWrite(now: int, h: seq<string>, deviceId: string)
    requires Different(h) && deviceId != ""
    ensures var m := Refreshed(now, h, map[0 := SecondSession(now, h).(deviceId := deviceId)]);
            var replay := BeginRefresh(1, h[1], h[4], h[5], true);
            && Enabled(m, replay) && Presents(m, replay, h[1]) && h[1] in m.exchanged && h[1] in m.tables.consumed
            && var n := Apply(m, replay);
              && NoneLeft(n, h[1]) && Enabled(n, WriteBinding(0))
              && var u := Apply(n, WriteBinding(0));
                Live(u, h[1], h[2]) && h[3] !in u.tables.index
  {
    var m := Refreshed(now, h, map[0 := SecondSession(now, h).(deviceId := deviceId)]);
    var replay := BeginRefresh(1, h[1], h[4], h[5], true);
    assert Enabled(m, replay);
    assert h[1] !in m.tables.index && h[1] in m.tables.consumed;
    var n := Apply(m, replay);
    assert n.binding == m.binding && m.binding[0].accessHash == h[2];
    assert n.tables == FamilyRevoked(m.tables, h[1]);
    assert InFamily(m.tables, h[1]) == {h[2]};
    assert RefreshHashes(m.tables.sessions, {h[2]}) == {h[3]};
  }

  /** A binding reads the session that a refresh then replaces: its write leaves the family with two sessions. */
  lemma LateWriteCrowdsFamily(now: int, h: seq<string>, deviceId: string)
    requires Different(h) && deviceId != ""
    ensures var actions := [FirstLogin(h), ReadBinding(0, h[0], deviceId), FirstRefresh(h), FinishRefresh(0),
                            WriteBinding(0)];
            && Possible(Initial(now), actions)
            && var m := Run(Initial(now), actions);
              && h[0] != h[2] && Live(m, h[1], h[0]) && Live(m, h[1], h[2]) && !OnePerFamily(m.tables)
  {
    var copy := FirstSession(now, h).(deviceId := deviceId);
    var read, begin := ReadBinding(0, h[0], deviceId), FirstRefresh(h);
    ReachesLoggedIn(now, h);
    var bound := LoggedIn(now, h).(binding := map[0 := copy]);
    assert Apply(LoggedIn(now, h), read) == bound;
    BeginsRefreshing(now, h);
    FinishesRefreshing(now, h, map[0 := copy]);
    var both := Refreshing(now, h).(binding := map[0 := copy]);
    assert Enabled(bound, begin) && Apply(bound, begin) == both;
    var done := Refreshed(now, h, map[0 := copy]);
    WritesFirst(now, h, copy);
    hide Run, Possible, Reaches, Apply, Enabled;
    OneMore(now, [FirstLogin(h)], LoggedIn(now, h), read);
    assert [FirstLogin(h)] + [read] == [FirstLogin(h), read];
    OneMore(now, [FirstLogin(h), read], bound, begin);
    assert [FirstLogin(h), read] + [begin] == [FirstLogin(h), read, begin];
    OneMore(now, [FirstLogin(h), read, begin], both, FinishRefresh(0));
    assert [FirstLogin(h), read, begin] + [FinishRefresh(0)] == [FirstLogin(h), read, begin, FinishRefresh(0)];
    OneMore(now, [FirstLogin(h), read, begin, FinishRefresh(0)], done, WriteBinding(0));
    assert [FirstLogin(h), read, begin, FinishRefresh(0)] + [WriteBinding(0)]
        == [FirstLogin(h), read, begin, FinishRefresh(0), WriteBinding(0)];
    ReachedState(now, [FirstLogin(h), read, begin, FinishRefresh(0), WriteBinding(0)], Apply(done, WriteBinding(0)));
  }

  lemma ReachedState(now: int, actions: seq<Action>, m: Machine)
    requires Reaches(now, actions, m)
    ensures Possible(Initial(now), actions) && Run(Initial(now), actions) == m
  {
  }

  lemma WritesFirst(now: int, h: seq<string>, copy: Session)
    requires Different(h) && SameSession(copy, FirstSession(now, h))
    ensures var m := Refreshed(now, h, map[0 := copy]);
            && Enabled(m, WriteBinding(0))
            && var n := Apply(m, WriteBinding(0));
              Live(n, h[1], h[0]) && Live(n, h[1], h[2]) && !OnePerFamily(n.tables)
  {
    var n := Apply(Refreshed(now, h, map[0 := copy]), WriteBinding(0));
    assert n.tables.sessions[h[0]].family == n.tables.sessions[h[2]].family;
  }

  /** A device bound between the two phases of a refresh is lost: the new session carries what the read phase saw. */
  lemma RefreshLosesDevice(now: int, h: seq<string>, deviceId: string)
    requires Different(h) && deviceId != ""
    ensures var before := [FirstLogin(h)];
            var between := [ReadBinding(0, h[0], deviceId), WriteBinding(0)];
            && Possible(Initial(now), before) && Enabled(Run(Initial(now), before), FirstRefresh(h))
            && var n := Apply(Run(Initial(now), before), FirstRefresh(h));
              && Possible(n, between) && LeavesRunning(between, 0)
              && var u := Run(n, between);
                && Rotates(u, 0) && LastWritten(n, between, h[0]) == Some(deviceId)
                && h[0] in u.tables.sessions && u.tables.sessions[h[0]].deviceId == deviceId
                && var w := Apply(u, FinishRefresh(0));
                  h[2] in w.tables.sessions && w.tables.sessions[h[2]].deviceId == ""
  {
    ReachesLoggedIn(now, h);
    BeginsRefreshing(now, h);
    var n := Refreshing(now, h);
    var between := [ReadBinding(0, h[0], deviceId), WriteBinding(0)];
    var copy := FirstSession(now, h).(deviceId := deviceId);
    var bound := n.(binding := map[0 := copy]);
    assert Enabled(n, between[0]) && Apply(n, between[0]) == bound;
    var u := n.(tables := n.tables.(sessions := map[h[0] := copy]));
    assert Enabled(bound, between[1]) && Apply(bound, between[1]) == u by {
      assert map[0 := copy] - {0} == map[];
    }
    assert between[1..] == [WriteBinding(0)] && between[1..][1..] == [];
    TwoSteps(n, between[0], bound, between[1], u, h[0]);
    assert Rotates(u, 0);
    hide Possible, Run, LastWritten;
  }

  lemma TwoSteps(m: Machine, first: Action, n: Machine, second: Action, u: Machine, a: string)
    requires Enabled(m, first) && Apply(m, first) == n && Enabled(n, second) && Apply(n, second) == u
    ensures Possible(m, [first, second]) && Run(m, [first, second]) == u
    ensures Written(n, second, a).Some? ==> LastWritten(m, [first, second], a) == Written(n, second, a)
  {
    hide Apply, Enabled, Written;
    assert [first, second][1..] == [second] && [second][1..] == [];
    assert Possible(n, [second]) && Run(n, [second]) == Run(u, []) == u;
    assert LastWritten(n, [second], a) == Written(n, second, a);
  }
}
