/** Login-failure throttling: the backoff, the per-bucket counters, and how fast failures can come. */
module LoginThrottle {
  import opened Collections

  const WINDOW := 900
  const FIRST_DELAY := 30
  const ACCOUNT_THRESHOLD := 5
  const ADDRESS_THRESHOLD := 50

  datatype Kind = AccountBucket | AddressBucket
  datatype Bucket = Bucket(kind: Kind, digest: string)
  datatype Row = Row(failures: nat, blockedUntil: int, lastFailedAt: int)

  function Threshold(kind: Kind): nat {
    if kind.AddressBucket? then ADDRESS_THRESHOLD else ACCOUNT_THRESHOLD
  }

  // --- the backoff -----------------------------------------------------------------------------------------

  function Doubled(times: nat): nat {
    if times == 0 then 1 else 2 * Doubled(times - 1)
  }

  function Min(a: int, b: int): int { if a < b then a else b }

  /** No delay below the threshold; from there on 30 seconds doubled per further failure, at most 15 minutes. */
  function Backoff(kind: Kind, failures: nat): int {
    if failures < Threshold(kind) then 0 else Min(WINDOW, FIRST_DELAY * Doubled(failures - Threshold(kind)))
  }

  method LoginFailureBackoff(kind: Kind, failures: nat) returns (delay: int)
    ensures failures < Threshold(kind) ==> delay == 0
    ensures failures >= Threshold(kind) ==> delay == Min(WINDOW, FIRST_DELAY * Doubled(failures - Threshold(kind)))
  {
    var threshold := ACCOUNT_THRESHOLD;
    if kind == AddressBucket {
      threshold := ADDRESS_THRESHOLD;
    }
    if failures < threshold {
      return 0;
    }
    delay := FIRST_DELAY;
    var count := threshold;
    while count < failures && delay < WINDOW
      invariant threshold <= count <= failures
      invariant delay == FIRST_DELAY * Doubled(count - threshold)
    {
      delay := delay * 2;
      count := count + 1;
    }
    DoubledGrows(count - threshold, failures - threshold);
    if delay > WINDOW {
      return WINDOW;
    }
  }

  lemma {:induction false} DoubledGrows(a: nat, b: nat)
    requires a <= b
    ensures 1 <= Doubled(a) <= Doubled(b)
    decreases b
  {
    if a == b {
      if a > 0 { DoubledGrows(a - 1, a - 1); }
    } else {
      DoubledGrows(a, b - 1);
    }
  }

  lemma BackoffGrows(kind: Kind, a: nat, b: nat)
    requires a <= b
    ensures 0 <= Backoff(kind, a) <= Backoff(kind, b) <= WINDOW
  {
    if Threshold(kind) <= a {
      DoubledGrows(a - Threshold(kind), b - Threshold(kind));
    } else if Threshold(kind) <= b {
      DoubledGrows(0, b - Threshold(kind));
    }
  }

  // --- one attempt -----------------------------------------------------------------------------------------

  datatype Outcome = Accepted | Denied | Other

  /**
   * A login attempt: the clock read before the checks, the buckets it counts for, and what the handler would answer.
   */
  datatype Attempt = Attempt(now: int, account: Option<string>, address: string, outcome: Outcome)

  predicate CountsFor(e: Attempt, b: Bucket) {
    b == Bucket(AddressBucket, e.address) || (e.account.Some? && b == Bucket(AccountBucket, e.account.value))
  }

  predicate Blocks(rows: map<Bucket, Row>, b: Bucket, now: int) {
    b in rows && now < rows[b].blockedUntil
  }

  predicate Blocked(rows: map<Bucket, Row>, e: Attempt) {
    || Blocks(rows, Bucket(AddressBucket, e.address), e.now)
    || (e.account.Some? && Blocks(rows, Bucket(AccountBucket, e.account.value), e.now))
  }

  function CountAfter(rows: map<Bucket, Row>, b: Bucket, now: int): nat {
    if b !in rows || rows[b].lastFailedAt < now - WINDOW then 1 else rows[b].failures + 1
  }

  function Failed(rows: map<Bucket, Row>, b: Bucket, now: int): map<Bucket, Row> {
    var n := CountAfter(rows, b, now);
    rows[b := Row(n, now + Backoff(b.kind, n), now)]
  }

  /** What the handler's answer to an attempt leaves behind. */
  function Answered(rows: map<Bucket, Row>, e: Attempt): map<Bucket, Row> {
    match e.outcome
    case Accepted => if e.account.Some? then rows - {Bucket(AccountBucket, e.account.value)} else rows
    case Denied =>
      var counted := if e.account.Some? then Failed(rows, Bucket(AccountBucket, e.account.value), e.now) else rows;
      Failed(counted, Bucket(AddressBucket, e.address), e.now)
    case Other => rows
  }

  /** The counters after an attempt. A blocked attempt is turned away before the handler and counts for nothing. */
  function After(rows: map<Bucket, Row>, e: Attempt): map<Bucket, Row> {
    if Blocked(rows, e) then rows else Answered(rows, e)
  }

  /** The bucket is the attempt's address or its account. */
  predicate Concerns(e: Attempt, b: Bucket) {
    if b.kind == AddressBucket then b.digest == e.address else e.account == Some(b.digest)
  }

  predicate TurnedAway(rows: map<Bucket, Row>, e: Attempt) {
    exists b :: b in rows && Concerns(e, b) && e.now < rows[b].blockedUntil
  }

  /** The bucket's next count: one more, or one again after a gap of more than 15 minutes. */
  predicate CountsOn(rows: map<Bucket, Row>, b: Bucket, now: int, n: nat) {
    n == if b in rows && now <= rows[b].lastFailedAt + 900 then rows[b].failures + 1 else 1
  }

  /**
   * What an attempt comes to, bucket by bucket. A refused password counts in the account and in the address and blocks
   * both as the count demands; a success forgets the account and leaves the address; an attempt turned away, or
   * answered in any other way, leaves every bucket.
   */
  lemma AttemptLeavesExactly(rows: map<Bucket, Row>, e: Attempt, b: Bucket)
    ensures var after := After(rows, e);
            var (mine, passes) := (Concerns(e, b), !TurnedAway(rows, e));
            if mine && passes && e.outcome == Denied then
              && b in after && CountsOn(rows, b, e.now, after[b].failures) && after[b].lastFailedAt == e.now
              && after[b].blockedUntil == e.now + Backoff(b.kind, after[b].failures)
            else if mine && passes && e.outcome == Accepted && b.kind == AccountBucket then b !in after
            else (b in after <==> b in rows) && (b in rows ==> after[b] == rows[b])
  {
    hide Backoff;
    var address := Bucket(AddressBucket, e.address);
    if Blocks(rows, address, e.now) {
      assert address in rows && Concerns(e, address);
    } else if e.account.Some? && Blocks(rows, Bucket(AccountBucket, e.account.value), e.now) {
      var account := Bucket(AccountBucket, e.account.value);
      assert account in rows && Concerns(e, account);
    }
  }

  /** The stored counters and the middleware around the login handlers. */
  class Throttle {
    var rows: map<Bucket, Row>

    constructor ()
      ensures rows == map[]
    {
      rows := map[];
    }

    method Check(buckets: seq<Bucket>, now: int) returns (retryAfter: int)
      ensures retryAfter >= 0
      ensures retryAfter > 0 <==> exists b :: b in buckets && Blocks(rows, b, now)
      ensures forall b :: b in buckets && Blocks(rows, b, now) ==> rows[b].blockedUntil - now <= retryAfter
    {
      retryAfter := 0;
      for i := 0 to |buckets|
        invariant retryAfter >= 0
        invariant retryAfter > 0 <==> exists b :: b in buckets[..i] && Blocks(rows, b, now)
        invariant forall b :: b in buckets[..i] && Blocks(rows, b, now) ==> rows[b].blockedUntil - now <= retryAfter
      {
        var b := buckets[i];
        assert buckets[..i + 1] == buckets[..i] + [b];
        if b in rows && now < rows[b].blockedUntil && retryAfter < rows[b].blockedUntil - now {
          assert Blocks(rows, b, now);
          retryAfter := rows[b].blockedUntil - now;
        }
      }
      assert buckets[..|buckets|] == buckets;
    }

    method RecordFailure(buckets: seq<Bucket>, now: int)
      modifies this
      ensures |buckets| == 1 ==> rows == Failed(old(rows), buckets[0], now)
      ensures |buckets| == 2 ==> rows == Failed(Failed(old(rows), buckets[0], now), buckets[1], now)
      ensures forall b :: b !in buckets ==> (b in rows <==> b in old(rows)) && (b in rows ==> rows[b] == old(rows)[b])
    {
      for i := 0 to |buckets|
        invariant i == 0 ==> rows == old(rows)
        invariant i == 1 ==> rows == Failed(old(rows), buckets[0], now)
        invariant i == 2 ==> rows == Failed(Failed(old(rows), buckets[0], now), buckets[1], now)
        invariant forall b :: b !in buckets ==>
                  (b in rows <==> b in old(rows)) && (b in rows ==> rows[b] == old(rows)[b])
      {
        var b := buckets[i];
        var failures := 1;
        if b in rows && !(rows[b].lastFailedAt < now - WINDOW) {
          failures := rows[b].failures + 1;
        }
        var delay := LoginFailureBackoff(b.kind, failures);
        rows := rows[b := Row(failures, now + delay, now)];
      }
    }

    /** Serving one attempt; `blocked` says that it was turned away. */
    method Serve(e: Attempt) returns (blocked: bool)
      modifies this
      ensures blocked <==> Blocked(old(rows), e)
      ensures rows == After(old(rows), e)
    {
      var address := Bucket(AddressBucket, e.address);
      var buckets := [address];
      if e.account.Some? {
        buckets := [Bucket(AccountBucket, e.account.value), address];
      }
      var retryAfter := Check(buckets, e.now);
      assert address in buckets && (e.account.Some? ==> buckets[0] == Bucket(AccountBucket, e.account.value));
      if retryAfter > 0 {
        return true;
      }
      if e.outcome == Accepted && e.account.Some? {
        rows := rows - {Bucket(AccountBucket, e.account.value)};
      } else if e.outcome == Denied {
        RecordFailure(buckets, e.now);
      }
      return false;
    }

    /** The retention pass: `stale` is any choice of rows not touched since the cutoff. */
    method Cleanup(stale: set<Bucket>, cutoff: int)
      requires forall b :: b in stale ==> b in rows && rows[b].lastFailedAt < cutoff
      modifies this
      ensures rows == old(rows) - stale
    {
      rows := rows - stale;
    }
  }

  // --- runs ------------------------------------------------------------------------------------------------

  function Run(rows: map<Bucket, Row>, events: seq<Attempt>): map<Bucket, Row>
    decreases |events|
  {
    if events == [] then rows else Run(After(rows, events[0]), events[1..])
  }

  predicate Timed(from: int, events: seq<Attempt>)
    decreases |events|
  {
    events == [] || (from <= events[0].now && Timed(events[0].now, events[1..]))
  }

  predicate Fails(rows: map<Bucket, Row>, e: Attempt, b: Bucket) {
    !Blocked(rows, e) && e.outcome == Denied && CountsFor(e, b)
  }

  /** How many failures the attempts record in a bucket. */
  function Failures(rows: map<Bucket, Row>, events: seq<Attempt>, b: Bucket): nat
    decreases |events|
  {
    if events == [] then 0
    else (if Fails(rows, events[0], b) then 1 else 0) + Failures(After(rows, events[0]), events[1..], b)
  }

  /** Every stored row is what its last failure left. */
  ghost predicate Sound(rows: map<Bucket, Row>, now: int) {
    forall b :: b in rows ==>
      && rows[b].failures >= 1 && rows[b].lastFailedAt <= now
      && rows[b].blockedUntil == rows[b].lastFailedAt + Backoff(b.kind, rows[b].failures)
  }

  lemma AfterIsSound(rows: map<Bucket, Row>, e: Attempt, now: int)
    requires Sound(rows, now) && now <= e.now
    ensures Sound(After(rows, e), e.now)
  {
  }

  lemma {:induction false} RunIsSound(rows: map<Bucket, Row>, events: seq<Attempt>, from: int)
    requires Sound(rows, from) && Timed(from, events)
    ensures Sound(Run(rows, events), if events == [] then from else events[|events| - 1].now)
    decreases |events|
  {
    if events != [] {
      AfterIsSound(rows, events[0], from);
      RunIsSound(After(rows, events[0]), events[1..], events[0].now);
    }
  }

  // --- the rate bound --------------------------------------------------------------------------------------

  /** The least time between the first and the k-th of k failures whose counts start at one. */
  function Span(kind: Kind, k: nat): int {
    if k <= 1 then 0 else Span(kind, k - 1) + Backoff(kind, k - 1)
  }

  /** A success that clears the bucket. */
  predicate Clears(rows: map<Bucket, Row>, e: Attempt, b: Bucket) {
    !Blocked(rows, e) && e.outcome == Accepted && e.account.Some? && b == Bucket(AccountBucket, e.account.value)
  }

  ghost predicate NeverCleared(rows: map<Bucket, Row>, events: seq<Attempt>, b: Bucket)
    decreases |events|
  {
    events == [] || (!Clears(rows, events[0], b) && NeverCleared(After(rows, events[0]), events[1..], b))
  }

  /** All attempts are made within the closed window that starts at `start`. */
  ghost predicate Within(events: seq<Attempt>, start: int) {
    forall i :: 0 <= i < |events| ==> start <= events[i].now <= start + WINDOW
  }

  /** `k` failures have been recorded in the window so far: the row shows it, and they took their time. */
  predicate Progressed(rows: map<Bucket, Row>, b: Bucket, start: int, k: nat) {
    k > 0 ==> b in rows && rows[b].failures >= k && rows[b].lastFailedAt >= start + Span(b.kind, k)
  }

  lemma {:induction false} SpanGrows(kind: Kind, a: nat, b: nat)
    requires a <= b
    ensures 0 <= Span(kind, a) <= Span(kind, b)
    decreases b
  {
    if a < b {
      BackoffGrows(kind, b - 1, b - 1);
      SpanGrows(kind, a, b - 1);
    } else if a > 0 {
      BackoffGrows(kind, a - 1, a - 1);
      SpanGrows(kind, a - 1, a - 1);
    }
  }

  lemma OtherAttemptsKeep(rows: map<Bucket, Row>, e: Attempt, b: Bucket)
    requires !Fails(rows, e, b) && !Clears(rows, e, b)
    ensures b in After(rows, e) <==> b in rows
    ensures b in rows ==> After(rows, e)[b] == rows[b]
  {
  }

  lemma FailureProgresses(rows: map<Bucket, Row>, e: Attempt, b: Bucket, start: int, k: nat)
    requires Sound(rows, e.now) && Progressed(rows, b, start, k) && Fails(rows, e, b)
    requires start <= e.now <= start + WINDOW
    ensures Progressed(After(rows, e), b, start, k + 1)
  {
    assert !Blocks(rows, b, e.now);
    if k > 0 {
      SpanGrows(b.kind, 0, k);
      BackoffGrows(b.kind, k, rows[b].failures);
    }
    assert After(rows, e)[b].failures == CountAfter(rows, b, e.now);
  }

  lemma {:induction false} FailuresTakeTime(
    rows: map<Bucket, Row>, events: seq<Attempt>, b: Bucket, from: int, start: int, k: nat)
    requires Sound(rows, from) && Timed(from, events)
    requires Within(events, start) && NeverCleared(rows, events, b)
    requires Progressed(rows, b, start, k) && (k > 0 ==> Span(b.kind, k) <= WINDOW)
    ensures Failures(rows, events, b) + k > 0 ==> Span(b.kind, Failures(rows, events, b) + k) <= WINDOW
    decreases |events|
  {
    if events != [] {
      var e, rest := events[0], events[1..];
      var rows' := After(rows, e);
      AfterIsSound(rows, e, from);
      if Fails(rows, e, b) {
        FailureProgresses(rows, e, b, start, k);
        assert rows'[b].lastFailedAt == e.now;
        FailuresTakeTime(rows', rest, b, e.now, start, k + 1);
      } else {
        OtherAttemptsKeep(rows, e, b);
        FailuresTakeTime(rows', rest, b, e.now, start, k);
      }
    }
  }

  lemma SpanOfWindow()
    ensures Span(AccountBucket, 9) == 450 && Span(AccountBucket, 10) == 930
    ensures Span(AddressBucket, 54) == 450 && Span(AddressBucket, 55) == 930
  {
    FreeFailures(AccountBucket, 5);
    FreeFailures(AddressBucket, 50);
    assert Doubled(0) == 1 && Doubled(1) == 2 && Doubled(2) == 4 && Doubled(3) == 8 && Doubled(4) == 16;
    assert Span(AccountBucket, 6) == 30 && Span(AccountBucket, 7) == 90 && Span(AccountBucket, 8) == 210;
    assert Span(AddressBucket, 51) == 30 && Span(AddressBucket, 52) == 90 && Span(AddressBucket, 53) == 210;
  }

  lemma {:induction false} FreeFailures(kind: Kind, k: nat)
    requires k <= Threshold(kind)
    ensures Span(kind, k) == 0
  {
    if k > 1 { FreeFailures(kind, k - 1); }
  }

  function MostPerWindow(kind: Kind): nat {
    if kind.AddressBucket? then 54 else 9
  }

  /**
   * The rate bound. After any history, attempts made one at a time within a closed window of 15 minutes and without a
   * success that clears the bucket record at most 9 failures for an account and at most 54 for an address.
   */
  lemma FailureRateBounded(history: seq<Attempt>, events: seq<Attempt>, b: Bucket, from: int, start: int)
    requires Timed(from, history + events) && Within(events, start)
    requires NeverCleared(Run(map[], history), events, b)
    ensures Failures(Run(map[], history), events, b) <= MostPerWindow(b.kind)
  {
    var reached := if history == [] then from else history[|history| - 1].now;
    TimedParts(history, events, from);
    RunIsSound(map[], history, from);
    var rows := Run(map[], history);
    FailuresTakeTime(rows, events, b, reached, start, 0);
    SpanOfWindow();
    var n := Failures(rows, events, b);
    if n > MostPerWindow(b.kind) {
      SpanGrows(b.kind, MostPerWindow(b.kind) + 1, n);
    }
  }

  lemma {:induction false} TimedParts(first: seq<Attempt>, second: seq<Attempt>, from: int)
    requires Timed(from, first + second)
    ensures Timed(from, first)
    ensures Timed(if first == [] then from else first[|first| - 1].now, second)
    decreases |first|
  {
    if first == [] {
      assert first + second == second;
    } else {
      assert (first + second)[1..] == first[1..] + second;
      TimedParts(first[1..], second, first[0].now);
    }
  }

  // --- the bound is reached --------------------------------------------------------------------------------

  /** Failing as fast as the throttle allows, with a username or without one. */
  function Fastest(account: Option<string>, address: string, kind: Kind, k: nat): seq<Attempt> {
    if k == 0 then [] else Fastest(account, address, kind, k - 1) + [Attempt(Span(kind, k), account, address, Denied)]
  }

  lemma {:induction false} RunAppends(rows: map<Bucket, Row>, events: seq<Attempt>, e: Attempt, b: Bucket)
    ensures Run(rows, events + [e]) == After(Run(rows, events), e)
    ensures Failures(rows, events + [e], b)
              == Failures(rows, events, b) + (if Fails(Run(rows, events), e, b) then 1 else 0)
    decreases |events|
  {
    if events == [] {
      assert events + [e] == [e] && [e][1..] == [];
    } else {
      assert (events + [e])[1..] == events[1..] + [e];
      RunAppends(After(rows, events[0]), events[1..], e, b);
    }
  }

  lemma {:induction false} FastestFails(account: Option<string>, address: string, kind: Kind, k: nat)
    requires kind.AddressBucket? ==> account.None?
    requires kind.AccountBucket? ==> account.Some? && k <= 9
    ensures var b := if kind.AddressBucket? then Bucket(kind, address) else Bucket(kind, account.value);
            var rows := Run(map[], Fastest(account, address, kind, k));
            && Failures(map[], Fastest(account, address, kind, k), b) == k
            && (k > 0 ==> forall c :: c in {b, Bucket(AddressBucket, address)} ==>
                  c in rows && rows[c] == Row(k, Span(kind, k) + Backoff(c.kind, k), Span(kind, k)))
            && (k == 0 ==> rows == map[])
  {
    if k > 0 {
      var b := if kind.AddressBucket? then Bucket(kind, address) else Bucket(kind, account.value);
      FastestFails(account, address, kind, k - 1);
      var before, e := Fastest(account, address, kind, k - 1), Attempt(Span(kind, k), account, address, Denied);
      RunAppends(map[], before, e, b);
      BackoffGrows(kind, k - 1, k - 1);
      var rows := Run(map[], before);
      if k > 1 {
        assert b in {b, Bucket(AddressBucket, address)}
            && Bucket(AddressBucket, address) in {b, Bucket(AddressBucket, address)};
      }
      assert !Blocked(rows, e);
      assert CountAfter(rows, b, e.now) == k && CountAfter(rows, Bucket(AddressBucket, address), e.now) == k;
    }
  }

  /** Both bounds are attained within less than the window. */
  lemma BoundReached(name: string, address: string)
    ensures Failures(map[], Fastest(Some(name), address, AccountBucket, 9), Bucket(AccountBucket, name)) == 9
    ensures Failures(map[], Fastest(None, address, AddressBucket, 54), Bucket(AddressBucket, address)) == 54
    ensures Span(AccountBucket, 9) <= WINDOW && Span(AddressBucket, 54) <= WINDOW
  {
    FastestFails(Some(name), address, AccountBucket, 9);
    FastestFails(None, address, AddressBucket, 54);
    SpanOfWindow();
  }

  // --- retention is invisible ------------------------------------------------------------------------------

  /** Two tables that differ only in rows whose last failure is out of the window. */
  ghost predicate Alike(rows: map<Bucket, Row>, pruned: map<Bucket, Row>, now: int) {
    && (forall b :: b in pruned ==> b in rows && rows[b] == pruned[b])
    && (forall b :: b in rows && b !in pruned ==> rows[b].lastFailedAt < now - WINDOW)
  }

  /** A row out of the window blocks nothing, so both tables give the same answer. */
  lemma AlikeBlocks(rows: map<Bucket, Row>, pruned: map<Bucket, Row>, b: Bucket, now: int, later: int)
    requires Sound(rows, now) && Alike(rows, pruned, now) && now <= later
    ensures Blocks(rows, b, later) <==> Blocks(pruned, b, later)
    ensures CountAfter(rows, b, later) == CountAfter(pruned, b, later)
  {
    if b in rows {
      BackoffGrows(b.kind, rows[b].failures, rows[b].failures);
    }
  }

  lemma AlikeAfterFailure(rows: map<Bucket, Row>, pruned: map<Bucket, Row>, b: Bucket, now: int)
    requires Alike(rows, pruned, now) && CountAfter(rows, b, now) == CountAfter(pruned, b, now)
    ensures Alike(Failed(rows, b, now), Failed(pruned, b, now), now)
  {
    hide CountAfter, Backoff;
  }

  lemma AlikeAnswers(rows: map<Bucket, Row>, pruned: map<Bucket, Row>, e: Attempt, now: int)
    requires Sound(rows, now) && Alike(rows, pruned, now) && now <= e.now
    ensures Blocked(rows, e) <==> Blocked(pruned, e)
    ensures Alike(After(rows, e), After(pruned, e), e.now)
  {
    var address := Bucket(AddressBucket, e.address);
    AlikeBlocks(rows, pruned, address, now, e.now);
    if e.account.Some? {
      var account := Bucket(AccountBucket, e.account.value);
      AlikeBlocks(rows, pruned, account, now, e.now);
      AlikeAfterFailure(rows, pruned, account, e.now);
      AlikeAfterFailure(Failed(rows, account, e.now), Failed(pruned, account, e.now), address, e.now);
    } else {
      AlikeAfterFailure(rows, pruned, address, e.now);
    }
    hide Failed, Blocks;
  }

  /** Which attempts are turned away. */
  function Answers(rows: map<Bucket, Row>, events: seq<Attempt>): seq<bool>
    decreases |events|
  {
    if events == [] then [] else [Blocked(rows, events[0])] + Answers(After(rows, events[0]), events[1..])
  }

  lemma {:induction false} AlikeForever(
    rows: map<Bucket, Row>, pruned: map<Bucket, Row>, events: seq<Attempt>, now: int)
    requires Sound(rows, now) && Alike(rows, pruned, now) && Timed(now, events)
    ensures Answers(rows, events) == Answers(pruned, events)
    decreases |events|
  {
    if events != [] {
      AlikeAnswers(rows, pruned, events[0], now);
      AfterIsSound(rows, events[0], now);
      AlikeForever(After(rows, events[0]), After(pruned, events[0]), events[1..], events[0].now);
    }
  }

  /** A retention pass that keeps rows for `lifetime` seconds changes the answer to no later attempt. */
  ghost predicate CleanupInvisible(lifetime: int) {
    forall history, events, from, now, stale | RetentionPass(history, events, from, now, lifetime, stale) ::
      Answers(Run(map[], history) - stale, events) == Answers(Run(map[], history), events)
  }

  ghost predicate RetentionPass(
    history: seq<Attempt>, events: seq<Attempt>, from: int, now: int, lifetime: int, stale: set<Bucket>) {
    && Timed(from, history) && Timed(now, events) && from <= now
        && (history != [] ==> history[|history| - 1].now <= now)
    && forall b :: b in stale ==> b in Run(map[], history) && Run(map[], history)[b].lastFailedAt < now - lifetime
  }

  /** The configuration accepts any positive lifetime; the pass is invisible exactly from the window's length on. */
  lemma InvisibleExactlyFromWindow(lifetime: nat)
    ensures CleanupInvisible(lifetime) <==> lifetime >= WINDOW
  {
    if lifetime >= WINDOW {
      forall history, events, from, now, stale | RetentionPass(history, events, from, now, lifetime, stale)
        ensures Answers(Run(map[], history) - stale, events) == Answers(Run(map[], history), events)
      {
        RunIsSound(map[], history, from);
        AlikeForever(Run(map[], history), Run(map[], history) - stale, events, now);
      }
    } else {
      EarlyCleanupShows(lifetime);
    }
  }

  function FourFailures(): seq<Attempt> {
    Fastest(Some("user"), "address", AccountBucket, 4)
  }

  lemma AfterFourFailures()
    ensures Run(map[], FourFailures())
              == map[Bucket(AccountBucket, "user") := Row(4, 0, 0), Bucket(AddressBucket, "address") := Row(4, 0, 0)]
  {
    FastestFails(Some("user"), "address", AccountBucket, 4);
    FreeFailures(AccountBucket, 4);
    var rows := Run(map[], FourFailures());
    assert forall c :: c in {Bucket(AccountBucket, "user"), Bucket(AddressBucket, "address")} ==>
        c in rows && rows[c] == Row(4, 0, 0);
    FastestTouches(4);
  }

  lemma {:induction false} FastestTouches(k: nat)
    ensures Run(map[], Fastest(Some("user"), "address", AccountBucket, k)).Keys <= {Bucket(AccountBucket, "user"),
              Bucket(AddressBucket, "address")}
  {
    if k > 0 {
      FastestTouches(k - 1);
      RunAppends(map[], Fastest(Some("user"), "address", AccountBucket, k - 1),
                 Attempt(Span(AccountBucket, k), Some("user"), "address", Denied), Bucket(AccountBucket, "user"));
    }
  }

  /** A fifth failure within the window blocks the sixth; after an early cleanup it does not. */
  lemma FifthFailure(rows: map<Bucket, Row>, now: int)
    requires rows == map[Bucket(AccountBucket, "user") := Row(4, 0, 0),
              Bucket(AddressBucket, "address") := Row(4, 0, 0)]
    requires 0 < now <= WINDOW
    ensures var attempt := Attempt(now, Some("user"), "address", Denied);
            var pruned := rows - {Bucket(AccountBucket, "user")};
            Answers(rows, [attempt, attempt]) == [false, true] && Answers(pruned, [attempt, attempt]) == [false, false]
  {
    var b, attempt := Bucket(AccountBucket, "user"), Attempt(now, Some("user"), "address", Denied);
    var pruned := rows - {b};
    assert [attempt, attempt][1..] == [attempt] && [attempt][1..] == [];
    assert Doubled(0) == 1;
    assert After(rows, attempt)[b] == Row(5, now + 30, now);
    assert After(pruned, attempt)[b] == Row(1, now, now);
    assert Blocked(After(rows, attempt), attempt) && !Blocked(After(pruned, attempt), attempt);
    assert Answers(After(rows, attempt), [attempt]) == [true] + Answers(After(After(rows, attempt), attempt), []);
    assert Answers(After(pruned, attempt), [attempt]) == [false] + Answers(After(After(pruned, attempt), attempt), []);
  }

  /** Forgetting four failures too early lets the fifth go unpunished. */
  lemma EarlyCleanupShows(lifetime: nat)
    requires lifetime < WINDOW
    ensures !CleanupInvisible(lifetime)
  {
    var b, now := Bucket(AccountBucket, "user"), lifetime + 1;
    var attempt := Attempt(now, Some("user"), "address", Denied);
    var events := [attempt, attempt];
    assert Timed(now, events) by { assert events[1..] == [attempt] && [attempt][1..] == []; }
    AfterFourFailures();
    FifthFailure(Run(map[], FourFailures()), now);
    FastestIsTimed(4);
    assert RetentionPass(FourFailures(), events, 0, now, lifetime, {b});
  }

  lemma {:induction false} FastestIsTimed(k: nat)
    requires k <= 4
    ensures var events := Fastest(Some("user"), "address", AccountBucket, k);
            && |events| == k && (forall i :: 0 <= i < k ==> events[i].now == 0) && Timed(0, events)
  {
    if k > 0 {
      FastestIsTimed(k - 1);
      FreeFailures(AccountBucket, k);
      TimedAtOnce(Fastest(Some("user"), "address", AccountBucket, k));
    }
  }

  lemma {:induction false} TimedAtOnce(events: seq<Attempt>)
    requires forall i :: 0 <= i < |events| ==> events[i].now == 0
    ensures Timed(0, events)
    decreases |events|
  {
    if events != [] {
      TimedAtOnce(events[1..]);
    }
  }
}
