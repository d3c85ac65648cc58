/**
 * Login attempts that overlap. The check and the recording are separate steps, and a failure is recorded under the
 * clock reading made before the check, however long the handler took.
 */
module ThrottleRace {
  import opened Collections
  import opened LoginThrottle

  datatype Step = Check(id: nat, attempt: Attempt) | Close(id: nat)

  /** The stored counters and the attempts that have passed the check and are not answered yet. */
  datatype Server = Server(rows: map<Bucket, Row>, flights: map<nat, Attempt>)

  function Next(s: Server, step: Step): Server {
    match step
    case Check(id, e) => if id in s.flights || Blocked(s.rows, e) then s else s.(flights := s.flights[id := e])
    case Close(id) => if id !in s.flights then s else Server(Answered(s.rows, s.flights[id]), s.flights - {id})
  }

  function RunSteps(s: Server, steps: seq<Step>): Server
    decreases |steps|
  {
    if steps == [] then s else RunSteps(Next(s, steps[0]), steps[1..])
  }

  /** An attempt that nobody overlaps is served as in one step. */
  lemma AloneIsServed(s: Server, id: nat, e: Attempt)
    requires id !in s.flights
    ensures Next(Next(s, Check(id, e)), Close(id)) == Server(After(s.rows, e), s.flights)
  {
    hide Answered, Blocked;
    if !Blocked(s.rows, e) {
      assert s.flights[id := e] - {id} == s.flights;
    }
  }

  // --- counting failures -----------------------------------------------------------------------------------

  predicate Records(s: Server, step: Step, b: Bucket) {
    step.Close? && step.id in s.flights && s.flights[step.id].outcome == Denied && CountsFor(s.flights[step.id], b)
  }

  predicate ClearsRow(s: Server, step: Step, b: Bucket) {
    && step.Close? && step.id in s.flights && s.flights[step.id].outcome == Accepted
    && s.flights[step.id].account.Some? && b == Bucket(AccountBucket, s.flights[step.id].account.value)
  }

  ghost predicate NeverClears(s: Server, steps: seq<Step>, b: Bucket)
    decreases |steps|
  {
    steps == [] || (!ClearsRow(s, steps[0], b) && NeverClears(Next(s, steps[0]), steps[1..], b))
  }

  /** The attempts in flight that count for the bucket and read the clock no earlier than `start`. */
  function Waiting(s: Server, b: Bucket, start: int): set<nat> {
    set id | id in s.flights && CountsFor(s.flights[id], b) && start <= s.flights[id].now
  }

  ghost predicate AtMost(s: Server, steps: seq<Step>, b: Bucket, start: int, k: nat)
    decreases |steps|
  {
    |Waiting(s, b, start)| <= k && (steps == [] || AtMost(Next(s, steps[0]), steps[1..], b, start, k))
  }

  /** Every clock reading is before the end of the half-open window that starts at `start`. */
  ghost predicate BeforeEnd(s: Server, steps: seq<Step>, start: int) {
    && (forall id :: id in s.flights ==> s.flights[id].now < start + WINDOW)
    && (forall i :: 0 <= i < |steps| && steps[i].Check? ==> steps[i].attempt.now < start + WINDOW)
  }

  /** Failures recorded by attempts that read the clock within the window. */
  function FailuresWithin(s: Server, steps: seq<Step>, b: Bucket, start: int): nat
    decreases |steps|
  {
    if steps == [] then 0
    else
      (if Records(s, steps[0], b) && start <= s.flights[steps[0].id].now then 1 else 0)
      + FailuresWithin(Next(s, steps[0]), steps[1..], b, start)
  }

  /** Failures recorded by attempts that read the clock before the window. */
  function LateFailures(s: Server, steps: seq<Step>, b: Bucket, start: int): nat
    decreases |steps|
  {
    if steps == [] then 0
    else
      (if Records(s, steps[0], b) && s.flights[steps[0].id].now < start then 1 else 0)
      + LateFailures(Next(s, steps[0]), steps[1..], b, start)
  }

  // --- the bound -------------------------------------------------------------------------------------------

  /** `f` failures have been recorded within the window since the last late one. */
  ghost predicate Counted(s: Server, b: Bucket, start: int, f: nat, k: nat) {
    && f + |Waiting(s, b, start)| <= MostPerWindow(b.kind) + k
    && (f > 0 ==> b in s.rows && s.rows[b].failures >= f && s.rows[b].lastFailedAt >= start)
    && (f > MostPerWindow(b.kind) ==> s.rows[b].blockedUntil >= start + WINDOW)
  }

  lemma LongestBackoff(kind: Kind, n: nat)
    requires n > MostPerWindow(kind)
    ensures Backoff(kind, n) == WINDOW
  {
    BackoffGrows(kind, MostPerWindow(kind) + 1, n);
    assert Doubled(0) == 1 && Doubled(1) == 2 && Doubled(2) == 4 && Doubled(3) == 8 && Doubled(4) == 16;
    assert Doubled(5) == 32;
  }

  lemma CheckKeeps(s: Server, step: Step, b: Bucket, start: int, f: nat, k: nat)
    requires step.Check? && step.attempt.now < start + WINDOW
    requires Counted(s, b, start, f, k) && |Waiting(Next(s, step), b, start)| <= k
    ensures Counted(Next(s, step), b, start, f, k)
  {
    var t := Next(s, step);
    if CountsFor(step.attempt, b) && f > MostPerWindow(b.kind) {
      assert Blocks(s.rows, b, step.attempt.now) && Blocked(s.rows, step.attempt);
    } else if f > MostPerWindow(b.kind) {
      assert Waiting(t, b, start) == Waiting(s, b, start);
    }
  }

  lemma OneLess(s: Server, id: nat, b: Bucket, start: int)
    requires id in s.flights
    ensures Waiting(Next(s, Close(id)), b, start) == Waiting(s, b, start) - {id}
    ensures id in Waiting(s, b, start) ==>
              |Waiting(Next(s, Close(id)), b, start)| == |Waiting(s, b, start)| - 1
    ensures |Waiting(Next(s, Close(id)), b, start)| <= |Waiting(s, b, start)|
  {
    assert Waiting(Next(s, Close(id)), b, start) == Waiting(s, b, start) - {id};
    if id !in Waiting(s, b, start) {
      assert Waiting(s, b, start) - {id} == Waiting(s, b, start);
    }
  }

  lemma RecordedRow(rows: map<Bucket, Row>, e: Attempt, b: Bucket)
    requires e.outcome == Denied && CountsFor(e, b)
    ensures b in Answered(rows, e)
    ensures var n := CountAfter(rows, b, e.now); Answered(rows, e)[b] == Row(n, e.now + Backoff(b.kind, n), e.now)
  {
    hide Backoff;
  }

  lemma RecordKeeps(s: Server, step: Step, b: Bucket, start: int, f: nat, k: nat)
    requires Records(s, step, b) && start <= s.flights[step.id].now < start + WINDOW
    requires Counted(s, b, start, f, k)
    ensures Counted(Next(s, step), b, start, f + 1, k)
  {
    var e := s.flights[step.id];
    OneLess(s, step.id, b, start);
    RecordedRow(s.rows, e, b);
    hide Answered, Backoff;
    var n := CountAfter(s.rows, b, e.now);
    if n > MostPerWindow(b.kind) {
      LongestBackoff(b.kind, n);
    }
  }

  lemma OthersKeepRow(rows: map<Bucket, Row>, e: Attempt, b: Bucket)
    requires !(e.outcome == Denied && CountsFor(e, b))
    requires !(e.outcome == Accepted && e.account.Some? && b == Bucket(AccountBucket, e.account.value))
    ensures b in Answered(rows, e) <==> b in rows
    ensures b in rows ==> Answered(rows, e)[b] == rows[b]
  {
  }

  lemma OtherKeeps(s: Server, step: Step, b: Bucket, start: int, f: nat, k: nat)
    requires step.Close? && !Records(s, step, b) && !ClearsRow(s, step, b)
    requires Counted(s, b, start, f, k)
    ensures Counted(Next(s, step), b, start, f, k)
  {
    if step.id in s.flights {
      OneLess(s, step.id, b, start);
      OthersKeepRow(s.rows, s.flights[step.id], b);
      hide Answered;
    }
  }

  /** A late recording may lift the block and start the count over. */
  lemma LateRestarts(s: Server, step: Step, b: Bucket, start: int, f: nat, k: nat)
    requires Records(s, step, b) && |Waiting(s, b, start)| <= k
    ensures Counted(Next(s, step), b, start, 0, k)
  {
    OneLess(s, step.id, b, start);
  }

  lemma {:induction false} FailuresAddUp(
    s: Server, steps: seq<Step>, b: Bucket, start: int, f: nat, k: nat)
    requires BeforeEnd(s, steps, start) && NeverClears(s, steps, b) && AtMost(s, steps, b, start, k)
    requires Counted(s, b, start, f, k)
    ensures f + FailuresWithin(s, steps, b, start)
            <= (LateFailures(s, steps, b, start) + 1) * (MostPerWindow(b.kind) + k)
    decreases |steps|
  {
    if steps != [] {
      var step, rest := steps[0], steps[1..];
      var t := Next(s, step);
      assert BeforeEnd(t, rest, start);
      hide Counted, Next, CountsFor;
      if step.Check? {
        CheckKeeps(s, step, b, start, f, k);
        FailuresAddUp(t, rest, b, start, f, k);
      } else if !Records(s, step, b) {
        OtherKeeps(s, step, b, start, f, k);
        FailuresAddUp(t, rest, b, start, f, k);
      } else if start <= s.flights[step.id].now {
        RecordKeeps(s, step, b, start, f, k);
        FailuresAddUp(t, rest, b, start, f + 1, k);
      } else {
        LateRestarts(s, step, b, start, f, k);
        FailuresAddUp(t, rest, b, start, 0, k);
        CountIsBounded(s, b, start, f, k);
        MoreRounds(LateFailures(t, rest, b, start), MostPerWindow(b.kind) + k);
      }
    } else {
      MoreRounds(0, MostPerWindow(b.kind) + k);
    }
  }

  lemma CountIsBounded(s: Server, b: Bucket, start: int, f: nat, k: nat)
    requires Counted(s, b, start, f, k)
    ensures f <= MostPerWindow(b.kind) + k
  {
  }

  lemma MoreRounds(late: nat, most: nat)
    ensures (late + 2) * most == (late + 1) * most + most
  {
  }

  /**
   * The rate bound for attempts that overlap. From any state, while at most `k` attempts for the bucket are in flight,
   * an interleaving of checks and answers within a half-open window of 15 minutes, without a success that clears the
   * bucket, records at most 9 + k failures for an account and 54 + k for an address; every failure recorded late,
   * under a clock reading from before the window, can lift the block and let as many pass again.
   */
  lemma ConcurrentFailuresBounded(s: Server, steps: seq<Step>, b: Bucket, start: int, k: nat)
    requires BeforeEnd(s, steps, start) && NeverClears(s, steps, b) && AtMost(s, steps, b, start, k)
    ensures FailuresWithin(s, steps, b, start)
            <= (LateFailures(s, steps, b, start) + 1) * (MostPerWindow(b.kind) + k)
  {
    FailuresAddUp(s, steps, b, start, 0, k);
  }

  // --- the bound is reached --------------------------------------------------------------------------------

  /** The steps keep the assumptions of the bound and record `n` failures, none of them late. */
  ghost predicate Yields(s: Server, steps: seq<Step>, b: Bucket, k: nat, n: nat) {
    && NeverClears(s, steps, b) && AtMost(s, steps, b, 0, k)
    && FailuresWithin(s, steps, b, 0) == n && LateFailures(s, steps, b, 0) == 0
  }

  lemma {:induction false} Joined(s: Server, first: seq<Step>, second: seq<Step>, b: Bucket, k: nat, m: nat, n: nat)
    requires Yields(s, first, b, k, m) && Yields(RunSteps(s, first), second, b, k, n)
    ensures Yields(s, first + second, b, k, m + n)
    ensures RunSteps(s, first + second) == RunSteps(RunSteps(s, first), second)
    decreases |first|
  {
    hide Next, CountsFor, Waiting;
    if first == [] {
      assert first + second == second;
    } else {
      assert (first + second)[1..] == first[1..] + second;
      var here := FailuresWithin(s, first, b, 0) - FailuresWithin(Next(s, first[0]), first[1..], b, 0);
      Joined(Next(s, first[0]), first[1..], second, b, k, m - here, n);
    }
  }

  /** Failing attempts made between zero and `end`. */
  ghost predicate Failing(events: seq<Attempt>, end: int) {
    forall i :: 0 <= i < |events| ==> events[i].outcome == Denied && 0 <= events[i].now <= end
  }

  /** Attempts served one after the other. */
  function Pairs(events: seq<Attempt>): seq<Step>
    decreases |events|
  {
    if events == [] then [] else [Check(1, events[0]), Close(1)] + Pairs(events[1..])
  }

  lemma OnePair(s: Server, e: Attempt, b: Bucket, k: nat)
    requires 1 !in s.flights && e.outcome == Denied && e.now >= 0 && |Waiting(s, b, 0)| < k
    ensures Yields(s, [Check(1, e), Close(1)], b, k, if Fails(s.rows, e, b) then 1 else 0)
    ensures RunSteps(s, [Check(1, e), Close(1)]) == Server(After(s.rows, e), s.flights)
  {
    AloneIsServed(s, 1, e);
    var t, u := Next(s, Check(1, e)), Next(Next(s, Check(1, e)), Close(1));
    assert [Check(1, e), Close(1)][1..] == [Close(1)] && [Close(1)][1..] == [];
    Smaller(Waiting(t, b, 0), Waiting(s, b, 0) + {1});
    assert Waiting(u, b, 0) == Waiting(s, b, 0);
    hide Answered, Blocked, Waiting, CountsFor;
    OneStep(t, Close(1), b, k);
    OneStep(s, Check(1, e), b, k);
    Joined(s, [Check(1, e)], [Close(1)], b, k, 0, if Records(t, Close(1), b) then 1 else 0);
    assert [Check(1, e)] + [Close(1)] == [Check(1, e), Close(1)];
  }

  lemma OneStep(s: Server, step: Step, b: Bucket, k: nat)
    requires |Waiting(s, b, 0)| <= k && |Waiting(Next(s, step), b, 0)| <= k && !ClearsRow(s, step, b)
    requires Records(s, step, b) ==> s.flights[step.id].now >= 0
    ensures Yields(s, [step], b, k, if Records(s, step, b) then 1 else 0)
    ensures RunSteps(s, [step]) == Next(s, step)
  {
    hide Next, Records, ClearsRow, Waiting;
    var steps := [step];
    assert steps[0] == step && steps[1..] == [];
    var t := Next(s, step);
    assert FailuresWithin(t, [], b, 0) == 0 && LateFailures(t, [], b, 0) == 0;
    assert AtMost(t, [], b, 0, k) && AtMost(s, steps, b, 0, k);
    assert NeverClears(t, [], b) && NeverClears(s, steps, b);
    assert LateFailures(s, steps, b, 0) == 0;
    assert FailuresWithin(s, steps, b, 0) == if Records(s, step, b) then 1 else 0;
  }

  lemma {:induction false} Smaller(a: set<nat>, c: set<nat>)
    requires a <= c
    ensures |a| <= |c|
  {
    assert c == a + (c - a) && a !! (c - a);
  }

  lemma {:induction false} PairsAreServed(s: Server, events: seq<Attempt>, end: int, b: Bucket, k: nat)
    requires 1 !in s.flights && |Waiting(s, b, 0)| < k
    requires Failing(events, end)
    ensures Yields(s, Pairs(events), b, k, Failures(s.rows, events, b))
    ensures RunSteps(s, Pairs(events)) == Server(Run(s.rows, events), s.flights)
    decreases |events|
  {
    if events != [] {
      var e := events[0];
      var t := Server(After(s.rows, e), s.flights);
      OnePair(s, e, b, k);
      assert Waiting(t, b, 0) == Waiting(s, b, 0);
      PairsAreServed(t, events[1..], end, b, k);
      hide Yields, After, Fails, RunSteps;
      Joined(s, [Check(1, e), Close(1)], Pairs(events[1..]), b, k, if Fails(s.rows, e, b) then 1 else 0,
          Failures(t.rows, events[1..], b));
    } else {
      assert Waiting(s, b, 0) == Waiting(s, b, 0);
    }
  }

  /** `k` copies of one attempt, checked before any of them is answered. */
  function Copies(e: Attempt, k: nat): (flights: map<nat, Attempt>)
    ensures forall id: nat :: id in flights <==> id < k
    ensures forall id: nat :: id in flights ==> flights[id] == e
  {
    if k == 0 then map[] else Copies(e, k - 1)[k - 1 := e]
  }

  function Checks(e: Attempt, k: nat): seq<Step> {
    if k == 0 then [] else Checks(e, k - 1) + [Check(k - 1, e)]
  }

  function Closes(k: nat): seq<Step> {
    if k == 0 then [] else [Close(k - 1)] + Closes(k - 1)
  }

  lemma {:induction false} CopiesWait(rows: map<Bucket, Row>, e: Attempt, b: Bucket, k: nat)
    ensures |Waiting(Server(rows, Copies(e, k)), b, 0)| <= k
  {
    if k == 0 {
      assert Waiting(Server(rows, Copies(e, 0)), b, 0) == {};
    } else {
      CopiesWait(rows, e, b, k - 1);
      var before := Waiting(Server(rows, Copies(e, k - 1)), b, 0);
      Smaller(Waiting(Server(rows, Copies(e, k)), b, 0), before + {k - 1});
    }
  }

  lemma {:induction false} ChecksPass(rows: map<Bucket, Row>, e: Attempt, b: Bucket, i: nat, k: nat)
    requires !Blocked(rows, e) && i <= k
    ensures Yields(Server(rows, map[]), Checks(e, i), b, k, 0)
    ensures RunSteps(Server(rows, map[]), Checks(e, i)) == Server(rows, Copies(e, i))
  {
    var s := Server(rows, map[]);
    CopiesWait(rows, e, b, i);
    if i == 0 {
      assert Copies(e, 0) == map[];
      assert Waiting(s, b, 0) == {};
    } else {
      ChecksPass(rows, e, b, i - 1, k);
      var t := Server(rows, Copies(e, i - 1));
      CopiesWait(rows, e, b, i - 1);
      assert Copies(e, i - 1)[i - 1 := e] == Copies(e, i);
      hide Blocked;
      OneStep(t, Check(i - 1, e), b, k);
      hide Yields, RunSteps;
      Joined(s, Checks(e, i - 1), [Check(i - 1, e)], b, k, 0, 0);
    }
  }

  lemma {:induction false} ClosesRecord(rows: map<Bucket, Row>, e: Attempt, b: Bucket, i: nat, k: nat)
    requires e.outcome == Denied && CountsFor(e, b) && e.now >= 0 && i <= k
    ensures Yields(Server(rows, Copies(e, i)), Closes(i), b, k, i)
    decreases i
  {
    hide Answered;
    CopiesWait(rows, e, b, i);
    if i > 0 {
      assert Copies(e, i) - {i - 1} == Copies(e, i - 1);
      assert Closes(i)[1..] == Closes(i - 1);
      ClosesRecord(Answered(rows, e), e, b, i - 1, k);
    }
  }

  /** Every clock reading of a check is within the window that starts at zero. */
  ghost predicate Early(steps: seq<Step>) {
    forall i :: 0 <= i < |steps| && steps[i].Check? ==> steps[i].attempt.now < WINDOW
  }

  lemma {:induction false} PairsAreEarly(events: seq<Attempt>, end: int)
    requires Failing(events, end) && end < WINDOW
    ensures Early(Pairs(events))
    decreases |events|
  {
    if events != [] {
      PairsAreEarly(events[1..], end);
    }
  }

  lemma {:induction false} WaveIsEarly(e: Attempt, k: nat)
    requires e.now < WINDOW
    ensures Early(Checks(e, k)) && Early(Closes(k))
  {
    if k > 0 {
      WaveIsEarly(e, k - 1);
    }
  }

  lemma {:induction false} FastestAreFailing(account: Option<string>, address: string, kind: Kind, m: nat, n: nat)
    requires m <= n
    ensures Failing(Fastest(account, address, kind, m), Span(kind, n))
  {
    if m > 0 {
      FastestAreFailing(account, address, kind, m - 1, n);
      SpanGrows(kind, 0, m);
      SpanGrows(kind, m, n);
      var before, last := Fastest(account, address, kind, m - 1), Attempt(Span(kind, m), account, address, Denied);
      hide Span;
      assert Failing(before + [last], Span(kind, n));
    }
  }

  lemma LastDelays(kind: Kind)
    ensures var m := MostPerWindow(kind);
            Span(kind, m - 1) == 210 && Backoff(kind, m - 1) == 240 && Backoff(kind, m) == 480
  {
    SpanOfWindow();
    assert Doubled(0) == 1 && Doubled(1) == 2 && Doubled(2) == 4 && Doubled(3) == 8 && Doubled(4) == 16;
  }

  /** The attempt of the worst run: with a username for an account, without one for an address. */
  function Guess(now: int, kind: Kind, name: string, address: string): Attempt {
    Attempt(now, if kind.AccountBucket? then Some(name) else None, address, Denied)
  }

  function Target(kind: Kind, name: string, address: string): Bucket {
    Bucket(kind, if kind.AccountBucket? then name else address)
  }

  /**
   * One slow attempt is in flight while others fail as fast as they may; it is answered just before the longest delay
   * would begin, and sets the end of the block by its old clock reading. Once that is over, `k` attempts pass together.
   */
  function WorstRun(kind: Kind, name: string, address: string, k: nat): seq<Step> {
    var quick := Fastest(Guess(0, kind, name, address).account, address, kind, MostPerWindow(kind) - 1);
    [Check(0, Guess(0, kind, name, address))] + (Pairs(quick) + ([Close(0)]
        + (Checks(Guess(480, kind, name, address), k) + Closes(k))))
  }

  lemma WaveYields(rows: map<Bucket, Row>, e: Attempt, b: Bucket, k: nat)
    requires !Blocked(rows, e) && e.outcome == Denied && CountsFor(e, b) && e.now >= 0
    ensures Yields(Server(rows, map[]), Checks(e, k) + Closes(k), b, k, k)
  {
    ChecksPass(rows, e, b, k, k);
    ClosesRecord(rows, e, b, k, k);
    hide Yields, Blocked;
    Joined(Server(rows, map[]), Checks(e, k), Closes(k), b, k, 0, k);
  }

  lemma SlowAnswer(rows: map<Bucket, Row>, kind: Kind, name: string, address: string, k: nat)
    requires var m := MostPerWindow(kind);
             forall c :: c in {Target(kind, name, address), Bucket(AddressBucket, address)} ==>
               c in rows && rows[c] == Row(m - 1, 210 + Backoff(c.kind, m - 1), 210)
    requires k >= 2
    ensures var s := Server(rows, map[0 := Guess(0, kind, name, address)]);
            && Yields(s, [Close(0)], Target(kind, name, address), k, 1)
            && RunSteps(s, [Close(0)]) == Next(s, Close(0)) && Next(s, Close(0)).flights == map[]
            && !Blocked(Next(s, Close(0)).rows, Guess(480, kind, name, address))
  {
    var e, b := Guess(0, kind, name, address), Target(kind, name, address);
    var s := Server(rows, map[0 := e]);
    LastDelays(kind);
    assert b in {b, Bucket(AddressBucket, address)}
        && Bucket(AddressBucket, address) in {b, Bucket(AddressBucket, address)};
    RecordedRow(rows, e, b);
    RecordedRow(rows, e, Bucket(AddressBucket, address));
    hide Answered;
    Smaller(Waiting(s, b, 0), {0});
    assert Waiting(Next(s, Close(0)), b, 0) == {};
    OneStep(s, Close(0), b, k);
  }

  /** From two overlapping attempts on the bound is attained, for accounts and for addresses, without a late failure. */
  lemma OverlapReachesBound(kind: Kind, name: string, address: string, k: nat)
    requires k >= 2
    ensures var s, steps, b := Server(map[], map[]), WorstRun(kind, name, address, k), Target(kind, name, address);
            && BeforeEnd(s, steps, 0) && NeverClears(s, steps, b) && AtMost(s, steps, b, 0, k)
            && LateFailures(s, steps, b, 0) == 0 && FailuresWithin(s, steps, b, 0) == MostPerWindow(kind) + k
  {
    var s0, b, m := Server(map[], map[]), Target(kind, name, address), MostPerWindow(kind);
    var slow, wave := Guess(0, kind, name, address), Guess(480, kind, name, address);
    var quick := Fastest(slow.account, address, kind, m - 1);
    var rows := Run(map[], quick);
    FastestFails(slow.account, address, kind, m - 1);
    FastestAreFailing(slow.account, address, kind, m - 1, m - 1);
    LastDelays(kind);
    WorstIsEarly(kind, name, address, k);
    var s1, s2 := Server(map[], map[0 := slow]), Server(rows, map[0 := slow]);
    assert Next(s0, Check(0, slow)) == s1 by { assert map[][0 := slow] == map[0 := slow]; }
    Smaller(Waiting(s1, b, 0), {0});
    assert Waiting(s0, b, 0) == {};
    OneStep(s0, Check(0, slow), b, k);
    PairsAreServed(s1, quick, 210, b, k);
    SlowAnswer(rows, kind, name, address, k);
    var s3 := Next(s2, Close(0));
    WaveYields(s3.rows, wave, b, k);
    hide Next, RunSteps, Blocked, Fastest, Run;
    Joined(s2, [Close(0)], Checks(wave, k) + Closes(k), b, k, 1, k);
    Joined(s1, Pairs(quick), [Close(0)] + (Checks(wave, k) + Closes(k)), b, k, m - 1, 1 + k);
    Joined(s0, [Check(0, slow)], Pairs(quick) + ([Close(0)] + (Checks(wave, k) + Closes(k))), b, k, 0, m + k);
  }

  lemma WorstIsEarly(kind: Kind, name: string, address: string, k: nat)
    ensures Early(WorstRun(kind, name, address, k))
  {
    var m := MostPerWindow(kind);
    var quick := Fastest(Guess(0, kind, name, address).account, address, kind, m - 1);
    LastDelays(kind);
    FastestAreFailing(Guess(0, kind, name, address).account, address, kind, m - 1, m - 1);
    hide Fastest, Span;
    PairsAreEarly(quick, 210);
    WaveIsEarly(Guess(480, kind, name, address), k);
  }

  /** A late answer can lift a block: after the last failure the window allows, the bucket accepts the next attempt. */
  lemma LateAnswerLiftsBlock(kind: Kind, name: string, address: string)
    ensures var late, quick := Guess(-500, kind, name, address), Fastest(Guess(0, kind, name, address).account, address,
                                 kind, MostPerWindow(kind));
            var s := RunSteps(Server(map[], map[]), [Check(0, late)] + Pairs(quick));
            && Blocked(s.rows, Guess(451, kind, name, address))
            && !Blocked(Next(s, Close(0)).rows, Guess(451, kind, name, address))
  {
    var b, m := Target(kind, name, address), MostPerWindow(kind);
    var late := Guess(-500, kind, name, address);
    var rows := Run(map[], Fastest(late.account, address, kind, m));
    LateRun(kind, name, address);
    FastestFails(late.account, address, kind, m);
    LastDelays(kind);
    SpanOfWindow();
    LateRow(rows, late, b);
    LateRow(rows, late, Bucket(AddressBucket, address));
    hide RunSteps, Fastest, Run, Answered, Backoff, Doubled;
    assert b in {b, Bucket(AddressBucket, address)};
    assert Blocks(rows, b, 451);
  }

  lemma LateRun(kind: Kind, name: string, address: string)
    ensures var late := Guess(-500, kind, name, address);
            var quick := Fastest(late.account, address, kind, MostPerWindow(kind));
            RunSteps(Server(map[], map[]), [Check(0, late)] + Pairs(quick))
            == Server(Run(map[], quick), map[0 := late])
  {
    var s0, b, m := Server(map[], map[]), Target(kind, name, address), MostPerWindow(kind);
    var late := Guess(-500, kind, name, address);
    var quick, s1 := Fastest(late.account, address, kind, m), Server(map[], map[0 := late]);
    FastestAreFailing(late.account, address, kind, m, m);
    assert Next(s0, Check(0, late)) == s1 by { assert map[][0 := late] == map[0 := late]; }
    assert Waiting(s0, b, 0) == {} && Waiting(s1, b, 0) == {};
    hide Fastest, Answered, Run;
    OneStep(s0, Check(0, late), b, 1);
    PairsAreServed(s1, quick, Span(kind, m), b, 1);
    Joined(s0, [Check(0, late)], Pairs(quick), b, 1, 0, Failures(map[], quick, b));
  }

  lemma LateRow(rows: map<Bucket, Row>, late: Attempt, b: Bucket)
    requires late.outcome == Denied && late.now == -500 && CountsFor(late, b)
    ensures b in Answered(rows, late) && Answered(rows, late)[b].blockedUntil <= 400
  {
    RecordedRow(rows, late, b);
    var n := CountAfter(rows, b, late.now);
    BackoffGrows(b.kind, n, n);
    hide Answered, Backoff;
  }
}
