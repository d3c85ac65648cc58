/** A user's recorded tokens against the user's daily limit. */
module Quota {
  import opened Collections
  import opened Tables
  import opened LeaseTable
  import opened Activation
  import opened ModelPool
  import opened Leasing
  import opened Bindings
  import opened LeaseSafety
  import opened Progress
  import opened Delivery
  import opened ControlPlane
  import opened Runs

  // --- one accepted record ---------------------------------------------------------------------------------

  /** Only recording a call touches the usage table. */
  lemma OthersKeepUsage(s: State, now: int, c: Command)
    requires !c.RecordUsageCommand?
    ensures Step(s, now, c).0.pool.usage == s.pool.usage
  {
    hide Serve, Step;
    ServeKeepsUsage(s, now, c);
    StepServes(s, now, c);
  }

  lemma ServeKeepsUsage(s: State, now: int, c: Command)
    requires !c.RecordUsageCommand?
    ensures Serve(s, now, c).0.pool.usage == s.pool.usage
  {
    hide ValidKey, Trim, NextId, Lookup, Gate, LeaseRefusal, RefreshedAccounts, ActivateVerdict, SelectCode, Covered,
        SelectAccount, NewLease, PolicyRefusal, CreateCodeVerdict, DeviceVerdict, CreateAccountVerdict;
    hide EditRefusal, ActiveCount, Sweep, UpdateAccountVerdict, DisableAccountVerdict, OldRecords, OldTests;
  }

  /**
   * The one record a step may add: under the caller's own lease, dated now, and only while the caller is below the
   * limit.
   */
  ghost predicate AddsOne(s: State, t: State, now: int, userId: string, id: string) {
    && id !in s.pool.usage && id in t.pool.usage
    && t.pool.usage == s.pool.usage[id := t.pool.usage[id]]
    && var u := t.pool.usage[id];
      && u.leaseId in s.pool.leases && s.pool.leases[u.leaseId].userId == userId
      && s.pool.leases[u.leaseId].product == u.product
      && u.createdAt == now
      && !OverQuota(s, now, u.product, userId)
  }

  lemma RecordingAddsOne(
    s: State, now: int, product: Product, key: string, userId: string, deviceId: string, requestId: string,
    raw: CallInput)
    requires Numbered(s)
    ensures var t := RecordUsage(s, now, product, key, userId, deviceId, requestId, raw).0;
            t.pool.usage == s.pool.usage || exists id :: AddsOne(s, t, now, userId, id)
  {
    hide OverQuota, Recorded, Charged, ValidKey, Issued, Trim, NextId, Lookup;
    NumberedAfterDraw(s.pool.usage.Keys, "usage", s.ledger);
    var t := RecordUsage(s, now, product, key, userId, deviceId, requestId, raw).0;
    if t.pool.usage != s.pool.usage {
      assert AddsOne(s, t, now, userId, NextId(s.ledger, "usage"));
    }
  }

  /** Adding a record adds its tokens to the one day total it counts for. */
  lemma RecordCountsOnce(
    usage: map<string, Usage>, leases: map<string, Lease>, id: string, u: Usage, userId: string, day: int,
    product: Product)
    requires id !in usage
    ensures UserDayTotal(usage[id := u], leases, userId, day, product)
         == UserDayTotal(usage, leases, userId, day, product) + (if CountsForUser(u, leases, userId, day, product)
             then u.call.totalTokens else 0)
  {
    SumUpdate(usage, UserTokens(leases, userId, day, product), id, u);
  }

  /**
   * Every accepted record found the user's total for the day below the limit in force, and moved that total by
   * exactly its own tokens.
   */
  lemma AcceptedBelowLimit(s: State, now: int, c: Command)
    requires Numbered(s) && c.RecordUsageCommand? && Step(s, now, c).0.pool.usage != s.pool.usage
    ensures var t := Step(s, now, c).0;
            exists id :: id in t.pool.usage
              && t.pool.usage == s.pool.usage[id := t.pool.usage[id]]
              && var u := t.pool.usage[id];
                 var before := UserDayTotal(s.pool.usage, s.pool.leases, c.userId, Day(now), u.product);
                 && (c.userId in s.people.policies && s.people.policies[c.userId].dailyTokenLimit > 0 ==>
                       before < s.people.policies[c.userId].dailyTokenLimit)
                 && UserDayTotal(t.pool.usage, s.pool.leases, c.userId, Day(now), u.product)
                     == before + u.call.totalTokens
  {
    hide RecordUsage;
    RecordingAddsOne(s, now, c.product, c.key, c.userId, c.deviceId, c.requestId, c.call);
    StepServes(s, now, c);
    var t := Step(s, now, c).0;
    var id :| AddsOne(s, Serve(s, now, c).0, now, c.userId, id);
    RecordCountsOnce(s.pool.usage, s.pool.leases, id, t.pool.usage[id], c.userId, Day(now), t.pool.usage[id].product);
  }

  // --- along a run -----------------------------------------------------------------------------------------

  /** A record that counts towards the day, none of which is later. */
  ghost predicate LastOfDay(
    usage: map<string, Usage>, leases: map<string, Lease>, userId: string, day: int, product: Product, id: string) {
    && id in usage && CountsForUser(usage[id], leases, userId, day, product)
    && forall other :: other in usage && CountsForUser(usage[other], leases, userId, day, product) ==>
         usage[other].createdAt <= usage[id].createdAt
  }

  /** The day total is zero, or leaving out the day's last record brings it below the limit. */
  ghost predicate DayBounded(
    usage: map<string, Usage>, leases: map<string, Lease>, userId: string, limit: nat, day: int, product: Product) {
    var total := UserDayTotal(usage, leases, userId, day, product);
    total == 0
    || exists id :: LastOfDay(usage, leases, userId, day, product, id) && total < limit + usage[id].call.totalTokens
  }

  ghost predicate Dated(usage: map<string, Usage>, now: int) {
    forall id :: id in usage ==> usage[id].createdAt <= now
  }

  ghost predicate Bounded(pool: Pool, userId: string, limit: nat) {
    forall day, product :: DayBounded(pool.usage, pool.leases, userId, limit, day, product)
  }

  /** Day totals depend on the leases only through whose they are. */
  lemma SameTotals(
    usage: map<string, Usage>, leases: map<string, Lease>, leases': map<string, Lease>, userId: string, day: int,
    product: Product)
    requires LeasesAdvance(leases, leases')
    requires forall u :: u in usage ==> usage[u].leaseId in leases
    ensures UserDayTotal(usage, leases', userId, day, product) == UserDayTotal(usage, leases, userId, day, product)
    ensures forall u :: u in usage ==>
              (CountsForUser(usage[u], leases', userId, day, product) <==>
               CountsForUser(usage[u], leases, userId, day, product))
  {
    forall u | u in usage
      ensures CountsForUser(usage[u], leases', userId, day, product) <==>
              CountsForUser(usage[u], leases, userId, day, product)
    {
      assert LeaseAdvances(leases[usage[u].leaseId], leases'[usage[u].leaseId]);
    }
    SumSame(usage, UserTokens(leases', userId, day, product), usage, UserTokens(leases, userId, day, product));
  }

  lemma QuietStepKeepsBound(s: Pool, t: Pool, userId: string, limit: nat)
    requires Bounded(s, userId, limit) && t.usage == s.usage && LeasesAdvance(s.leases, t.leases)
    requires forall u :: u in s.usage ==> s.usage[u].leaseId in s.leases
    ensures Bounded(t, userId, limit)
  {
    forall day, product ensures DayBounded(t.usage, t.leases, userId, limit, day, product) {
      assert DayBounded(s.usage, s.leases, userId, limit, day, product);
      SameTotals(s.usage, s.leases, t.leases, userId, day, product);
      if UserDayTotal(s.usage, s.leases, userId, day, product) != 0 {
        var id :| LastOfDay(s.usage, s.leases, userId, day, product, id)
          && UserDayTotal(s.usage, s.leases, userId, day, product) < limit + s.usage[id].call.totalTokens;
        assert LastOfDay(t.usage, t.leases, userId, day, product, id);
      }
    }
  }

  lemma RecordKeepsBound(s: Pool, t: Pool, userId: string, limit: nat, id: string, u: Usage)
    requires Bounded(s, userId, limit) && id !in s.usage && t.usage == s.usage[id := u] && t.leases == s.leases
    requires u.leaseId in s.leases && s.leases[u.leaseId].product == u.product && Dated(s.usage, u.createdAt)
    requires s.leases[u.leaseId].userId == userId ==>
              UserDayTotal(s.usage, s.leases, userId, Day(u.createdAt), u.product) < limit
    ensures Bounded(t, userId, limit)
  {
    forall day, product ensures DayBounded(t.usage, t.leases, userId, limit, day, product) {
      assert DayBounded(s.usage, s.leases, userId, limit, day, product);
      RecordCountsOnce(s.usage, s.leases, id, u, userId, day, product);
      if CountsForUser(u, s.leases, userId, day, product) {
        assert LastOfDay(t.usage, t.leases, userId, day, product, id);
      } else if UserDayTotal(s.usage, s.leases, userId, day, product) != 0 {
        var other :| LastOfDay(s.usage, s.leases, userId, day, product, other)
          && UserDayTotal(s.usage, s.leases, userId, day, product) < limit + s.usage[other].call.totalTokens;
        assert LastOfDay(t.usage, t.leases, userId, day, product, other);
      }
    }
  }

  predicate HasLimit(people: People, userId: string, limit: nat) {
    userId in people.policies && people.policies[userId].dailyTokenLimit == limit
  }

  lemma StepKeepsBound(s: State, now: int, c: Command, userId: string, limit: nat)
    requires Numbered(s) && PoolSound(s.pool)
    requires limit > 0 && HasLimit(s.people, userId, limit) && Bounded(s.pool, userId, limit)
              && Dated(s.pool.usage, now)
    ensures Bounded(Step(s, now, c).0.pool, userId, limit) && Dated(Step(s, now, c).0.pool.usage, now)
  {
    hide Numbered, OnAccounts, WithinLimits, Bounded, Step, RecordUsage, UserDayTotal, CodesAdvance, LeasesAdvance,
        UsageAdvances, AddsOne;
    StepAdvances(s, now, c);
    StepServes(s, now, c);
    var t := Step(s, now, c).0;
    if t.pool.usage == s.pool.usage {
      QuietStepKeepsBound(s.pool, t.pool, userId, limit);
    } else {
      AddingKeepsBound(s, now, c, userId, limit);
    }
  }

  lemma AddingKeepsBound(s: State, now: int, c: Command, userId: string, limit: nat)
    requires Numbered(s) && Step(s, now, c).0.pool.usage != s.pool.usage
    requires limit > 0 && HasLimit(s.people, userId, limit) && Bounded(s.pool, userId, limit)
              && Dated(s.pool.usage, now)
    ensures Bounded(Step(s, now, c).0.pool, userId, limit) && Dated(Step(s, now, c).0.pool.usage, now)
  {
    hide Numbered, Bounded, RecordUsage, UserDayTotal;
    StepServes(s, now, c);
    var t := Step(s, now, c).0;
    if !c.RecordUsageCommand? {
      OthersKeepUsage(s, now, c);
      assert false;
    } else {
      RecordingAddsOne(s, now, c.product, c.key, c.userId, c.deviceId, c.requestId, c.call);
      RecordingKeepsLeases(s, now, c.product, c.key, c.userId, c.deviceId, c.requestId, c.call);
      var id :| AddsOne(s, Serve(s, now, c).0, now, c.userId, id);
      RecordKeepsBound(s.pool, t.pool, userId, limit, id, t.pool.usage[id]);
    }
  }

  lemma RecordingKeepsLeases(
    s: State, now: int, product: Product, key: string, userId: string, deviceId: string, requestId: string,
    raw: CallInput)
    ensures RecordUsage(s, now, product, key, userId, deviceId, requestId, raw).0.pool.leases == s.pool.leases
  {
    hide OverQuota, Recorded, Charged, ValidKey, Trim, NextId, Lookup;
  }

  /** Every administrative change along the run leaves the user's limit as it is. */
  ghost predicate LimitFixed(events: seq<Event>, userId: string, limit: nat) {
    forall i :: 0 <= i < |events| && events[i].command.Administer? ==> HasLimit(events[i].command.people, userId, limit)
  }

  lemma OthersKeepPeople(s: State, now: int, c: Command)
    requires !c.Administer?
    ensures Step(s, now, c).0.people == s.people
  {
    hide Serve, Step;
    ServeKeepsPeople(s, now, c);
    StepServes(s, now, c);
  }

  lemma ServeKeepsPeople(s: State, now: int, c: Command)
    requires !c.Administer?
    ensures Serve(s, now, c).0.people == s.people
  {
    hide ValidKey, Trim, NextId, Lookup, Gate, LeaseRefusal, RefreshedAccounts, ActivateVerdict, SelectCode, Covered,
        SelectAccount, NewLease, PolicyRefusal, CreateCodeVerdict, DeviceVerdict, CreateAccountVerdict;
    hide EditRefusal, ActiveCount, Sweep, Charged, UsageRefusal, Recorded, OverQuota, UpdateAccountVerdict,
        DisableAccountVerdict, OldRecords, OldTests;
  }

  lemma {:induction false} RunKeepsBound(s: State, from: int, events: seq<Event>, userId: string, limit: nat)
    requires Invariant(s, from) && Timed(from, events)
    requires limit > 0 && HasLimit(s.people, userId, limit) && LimitFixed(events, userId, limit)
    requires Bounded(s.pool, userId, limit) && Dated(s.pool.usage, from)
    ensures Bounded(Run(s, events).pool, userId, limit)
    decreases |events|
  {
    hide Consistent, PoolSound, OnActiveDevices, Numbered, Bounded;
    if events != [] {
      var now, c := events[0].now, events[0].command;
      LaterStillSound(s, from, now);
      if !c.Administer? { OthersKeepPeople(s, now, c); }
      StepKeepsInvariant(s, now, c);
      StepKeepsBound(s, now, c, userId, limit);
      hide Step;
      RunKeepsBound(Step(s, now, c).0, now, events[1..], userId, limit);
    }
  }

  lemma LaterStillSound(s: State, now: int, later: int)
    requires Invariant(s, now) && now <= later
    ensures Invariant(s, later)
  {
    hide PoolSound, OnActiveDevices, Numbered;
  }

  /** Under a fixed limit a user's total for any day and product stays below the limit plus the last record's tokens. */
  lemma UsageBounded(
    people: People, from: int, events: seq<Event>, userId: string, limit: nat, day: int, product: Product)
    requires Timed(from, events)
    requires limit > 0 && HasLimit(people, userId, limit) && LimitFixed(events, userId, limit)
    ensures var pool := Reached(people, events).pool;
            var total := UserDayTotal(pool.usage, pool.leases, userId, day, product);
            total == 0
            || exists id :: LastOfDay(pool.usage, pool.leases, userId, day, product, id)
                 && total < limit + pool.usage[id].call.totalTokens
  {
    hide Run, Invariant;
    EmptyIsSound(people, from);
    NothingUsed(people, userId, limit);
    RunKeepsBound(Empty(people), from, events, userId, limit);
    assert DayBounded(Reached(people, events).pool.usage, Reached(people, events).pool.leases, userId, limit, day,
        product);
  }

  lemma NothingUsed(people: People, userId: string, limit: nat)
    ensures Bounded(Empty(people).pool, userId, limit)
  {
  }
}
