/** A run in which an unbinding that has been forgotten takes a device off the code it has been bound to since. */
module ForgettingRun {
  import opened Collections
  import opened Tables
  import opened LeaseTable
  import opened Activation
  import opened Leasing
  import opened Delivery
  import opened ControlPlane
  import opened Runs
  import opened RedeliveryRun
  import opened Forgetting

  function MakesCodeFor(life: nat): Command {
    CreateCodeCommand(AutoLive, false, "newcode1", CodeInput(USER, life + 86400, 1), Some("code text"))
  }

  function ActivatesUnder(key: string): Command { ActivateCommand(key, USER, ACTIVATION) }

  function Unbinds(): Command { UnbindCommand(AutoLive, "unbinding", DEVICE) }

  /** The user's only code, good for one device until a day after `life`. */
  ghost predicate OneCode(s: State, codeId: string, life: nat, bound: nat) {
    && s.people == PEOPLE && s.grants.codes.Keys == {codeId}
    && var code := s.grants.codes[codeId];
      && code.userId == USER && code.product == AutoLive && code.status != CodeRevoked
      && code.expiresAt == life + 86400 && code.maxDevices == 1 && code.boundDevices == bound
  }

  ghost predicate Free(s: State, codeId: string, life: nat) {
    && OneCode(s, codeId, life, 0) && s.grants.bindings == map[]
    && (DEVICE in s.grants.devices ==>
          Vacant(s.grants.devices[DEVICE]) && s.grants.devices[DEVICE].product == AutoLive)
  }

  ghost predicate Holds(s: State, codeId: string, life: nat) {
    && OneCode(s, codeId, life, 1) && s.grants.bindings == map[DEVICE := codeId] && DEVICE in s.grants.devices
    && var d := s.grants.devices[DEVICE];
      d.product == AutoLive && d.owner == Some(USER) && d.status == DeviceActive
  }

  lemma CodeMadeFor(life: nat)
    ensures var s := Empty(PEOPLE);
            var t := Step(s, 0, MakesCodeFor(life)).0;
            && Free(t, NextId(s.ledger, "ac"), life) && t.ledger.records.Keys <= {CreateCodeScope("newcode1", None)}
  {
    hide NextId;
    assert ValidKey("newcode1");
  }

  lemma ActivationTakesCode(s: State, now: int, key: string, codeId: string, life: nat)
    requires Free(s, codeId, life) && 0 <= now < life + 86400 && ValidKey(key)
    requires ActivateScope(USER, key) !in s.ledger.records
    ensures var t := Step(s, now, ActivatesUnder(key)).0;
            Holds(t, codeId, life) && t.ledger.records.Keys <= s.ledger.records.Keys + {ActivateScope(USER, key)}
  {
    FreePasses(s, now, key, codeId, life);
    var choice := SelectCode(s.grants.codes, USER, AutoLive, now);
    assert choice == Chosen(codeId);
    hide SelectCode, ValidKey, ActivateVerdict, Covered;
  }

  lemma FreePasses(s: State, now: int, key: string, codeId: string, life: nat)
    requires Free(s, codeId, life) && 0 <= now < life + 86400 && ValidKey(key)
    requires ActivateScope(USER, key) !in s.ledger.records
    ensures ActivateVerdict(s, key, USER, ACTIVATION).Proceed? && !Covered(s.grants, now, USER, ACTIVATION)
    ensures SelectCode(s.grants.codes, USER, AutoLive, now) == Chosen(codeId)
  {
    assert Trim("name") == "name" && Trim("platform") == "platform" && Trim("1.0") == "1.0";
    ChoiceIsEarliest(s.grants.codes, USER, AutoLive, now);
    assert Open(s.grants.codes[codeId], USER, AutoLive, now);
    hide SelectCode, Trim, ValidKey;
  }

  lemma UnbindingFrees(s: State, now: int, codeId: string, life: nat)
    requires Holds(s, codeId, life) && UnbindScope(DEVICE, "unbinding", AutoLive) !in s.ledger.records
    ensures var (t, reply) := Step(s, now, Unbinds());
            !reply.Failed? && Free(t, codeId, life) && DEVICE in t.grants.devices
  {
    assert ValidKey("unbinding");
    hide ValidKey, Freed;
  }

  lemma ForgettingKeepsFree(s: State, codeId: string, life: nat)
    requires life > 0 && SinceZero(s.ledger) && Free(s, codeId, life)
    ensures var e := ForgetsAll(life, s.ledger.records.Keys);
            var t := Step(s, e.now, e.command).0;
            t.ledger.records == map[] && Free(t, codeId, life)
  {
    assert OldRecords(s.ledger, 1) == s.ledger.records.Keys;
  }

  function FirstBinding(life: nat): seq<Event> {
    [Event(0, MakesCodeFor(life)), Event(0, ActivatesUnder("activate"))]
  }

  lemma TwoEvents(s: State, a: Event, b: Event)
    ensures Run(s, [a, b]) == Step(Step(s, a.now, a.command).0, b.now, b.command).0
  {
    hide Step;
    assert [a, b][1..] == [b];
    OneEvent(Step(s, a.now, a.command).0, b);
  }

  lemma BoundFirst(life: nat) returns (codeId: string)
    ensures var s := Reached(PEOPLE, FirstBinding(life));
            && Holds(s, codeId, life) && SinceZero(s.ledger)
            && UnbindScope(DEVICE, "unbinding", AutoLive) !in s.ledger.records
  {
    hide Step, Serve, Run, Free, Holds, NextId, SinceZero;
    codeId := NextId(Empty(PEOPLE).ledger, "ac");
    CodeMadeFor(life);
    KeyIsValid();
    ActivationTakesCode(Step(Empty(PEOPLE), 0, MakesCodeFor(life)).0, 0, "activate", codeId, life);
    TwoEvents(Empty(PEOPLE), Event(0, MakesCodeFor(life)), Event(0, ActivatesUnder("activate")));
    EmptySinceZero();
    RunSinceZero(Empty(PEOPLE), FirstBinding(life));
  }

  lemma KeyIsValid()
    ensures ValidKey("activate") && ValidKey("activate2")
  {
    assert Trim("activate") == "activate" && Trim("activate2") == "activate2";
  }

  lemma EmptySinceZero()
    ensures SinceZero(Empty(PEOPLE).ledger)
  {
  }

  /**
   * For every lifetime of records: a user binds a device, unbinds it, and binds it again once a retention pass has
   * found the unbinding older than its lifetime; when the unbinding is delivered a second time, the device is taken
   * off its code although nobody asked for it anew.
   */
  lemma ForgottenUnbindDetaches(life: nat) returns (codeId: string, between: seq<Event>)
    requires life > 0
    ensures var s := Reached(PEOPLE, FirstBinding(life));
            && Timed(0, FirstBinding(life)) && Timed(0, between) && LastTime(0, between) == life + 1
            && Holds(s, codeId, life) && !Step(s, 0, Unbinds()).1.Failed?
            && var u := Run(Step(s, 0, Unbinds()).0, between);
              && Holds(u, codeId, life) && ActsAgain(u, life + 1, Unbinds())
              && Free(Step(u, life + 1, Unbinds()).0, codeId, life)
    ensures forall i :: 0 <= i < |between| && between[i].command.Forget? ==> between[i].command.recordLife == life
  {
    hide Step, Serve, Run, Free, Holds, SinceZero, ActsAgain, Unbinds, FirstBinding;
    codeId := BoundFirst(life);
    FirstIsTimed(life);
    var s := Reached(PEOPLE, FirstBinding(life));
    UnbindingFrees(s, 0, codeId, life);
    var t := Step(s, 0, Unbinds()).0;
    StepSinceZero(s, Unbinds());
    var forgets := ForgetsAll(life, t.ledger.records.Keys);
    ForgettingKeepsFree(t, codeId, life);
    var w := Step(t, forgets.now, forgets.command).0;
    KeyIsValid();
    ActivationTakesCode(w, life + 1, "activate2", codeId, life);
    var binds := Event(life + 1, ActivatesUnder("activate2"));
    between := [forgets, binds];
    TwoEvents(t, forgets, binds);
    var u := Run(t, between);
    UnbindingFrees(u, life + 1, codeId, life);
    UnbindingActs(u, life + 1, codeId, life);
    TwoTimed(forgets, binds);
  }

  lemma TwoTimed(a: Event, b: Event)
    requires 0 <= a.now <= b.now
    ensures Timed(0, [a, b]) && LastTime(0, [a, b]) == b.now
  {
    assert [a, b][1..] == [b] && [b][1..] == [];
  }

  lemma FirstIsTimed(life: nat)
    ensures Timed(0, FirstBinding(life))
  {
    assert FirstBinding(life)[1..][1..] == [];
  }

  lemma UnbindingActs(u: State, now: int, codeId: string, life: nat)
    requires Holds(u, codeId, life) && UnbindScope(DEVICE, "unbinding", AutoLive) !in u.ledger.records
    ensures ActsAgain(u, now, Unbinds())
  {
  }
}
