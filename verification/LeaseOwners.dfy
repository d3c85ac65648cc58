/** Who may do what to a lease, and what recorded calls have to do with the leases they name. */
module LeaseOwners {
  import opened Collections
  import opened Tables
  import opened LeaseTable
  import opened Activation
  import opened ModelPool
  import opened Leasing
  import opened LeaseSafety
  import opened Progress
  import opened ControlPlane
  import opened Runs
  import LeaseLedger
  import Quota

  /**
   * The gate before every lease command lets a request pass exactly if its user is active, names a device, and a lease
   * of that user, device and product could be active without breaking what active leases rely on.
   */
  lemma GateAdmitsExactly(
    s: State, userId: string, deviceId: string, product: Product, id: string, lease: Lease)
    requires OnActiveDevices(s.pool.leases, s.grants.devices) && id !in s.pool.leases
    requires lease.userId == userId && lease.deviceId == deviceId && lease.product == product
              && lease.status == LeaseActive
    ensures Gate(s, userId, deviceId, product).None? <==>
            && userId in s.people.users && s.people.users[userId].status == UserActive
            && Trim(deviceId) != ""
            && OnActiveDevices(s.pool.leases[id := lease], s.grants.devices)
  {
    hide Trim;
    var leases := s.pool.leases[id := lease];
    if OnActiveDevices(leases, s.grants.devices) {
      assert leases[id] == lease;
    }
  }

  // --- who changes a lease ---------------------------------------------------------------------------------

  /** The lease's time was up. */
  predicate TimeUp(before: Lease, after: Lease, now: int) {
    before.status == LeaseActive && before.expiresAt <= now && after == Swept(before, now, None)
  }

  /** The lease's own user asked for it, from the lease's device, for its product, and was let through the gate. */
  predicate AskedByHolder(s: State, c: Command, id: string)
    requires id in s.pool.leases
  {
    && (c.RenewCommand? || c.ReleaseCommand?) && c.leaseId == id
    && s.pool.leases[id].userId == c.userId && s.pool.leases[id].deviceId == c.deviceId
    && s.pool.leases[id].product == c.product
    && Gate(s, c.userId, c.deviceId, c.product).None?
  }

  /** An administrator took back the lease, or disabled or unbound its device. */
  predicate TakenBack(s: State, c: Command, id: string)
    requires id in s.pool.leases
  {
    || (c.ReclaimCommand? && c.leaseId == id && c.product == s.pool.leases[id].product)
    || ((c.DisableDeviceCommand? || c.UnbindCommand?)
        && HeldBy(s.pool.leases[id], c.deviceId, c.product))
  }

  ghost predicate Justified(s: State, now: int, c: Command, id: string, leases: map<string, Lease>)
    requires id in s.pool.leases
  {
    id in leases
    && (leases[id] == s.pool.leases[id] || TimeUp(s.pool.leases[id], leases[id], now)
        || AskedByHolder(s, c, id) || TakenBack(s, c, id))
  }

  lemma SweepIsJustified(s: State, now: int, c: Command, id: string, product: Option<Product>)
    requires id in s.pool.leases
    ensures Justified(s, now, c, id, Sweep(s.pool.leases, now, product)) && Justified(s, now, c, id, s.pool.leases)
  {
    hide Gate;
  }

  lemma ServeJustified(s: State, now: int, c: Command, id: string)
    requires id in s.pool.leases && Numbered(s)
    ensures Justified(s, now, c, id, Serve(s, now, c).0.pool.leases)
  {
    hide Justified, Serve, Issued, Identifier, Counter;
    match c
    case RenewCommand(product, _, _, _, _, _) => RenewJustified(s, now, c, id);
    case ReleaseCommand(product, _, _, _, _, _) => ReleaseJustified(s, now, c, id);
    case ReclaimCommand(_, _, _, _) => ReclaimJustified(s, now, c, id);
    case DisableDeviceCommand(_, _, _) => DeviceJustified(s, now, c, id);
    case UnbindCommand(_, _, _) => DeviceJustified(s, now, c, id);
    case CreateLeaseCommand(product, key, userId, deviceId, lease, order, secretFound) =>
      NumberedAfterDraw(s.pool.leases.Keys, "lease", s.ledger);
      CreateJustified(s, now, c, id);
    case _ => OthersJustified(s, now, c, id);
  }

  lemma RenewJustified(s: State, now: int, c: Command, id: string)
    requires id in s.pool.leases && c.RenewCommand?
    ensures Justified(s, now, c, id, Serve(s, now, c).0.pool.leases)
  {
    hide Gate, ValidKey, Lookup, TakenBack, RenewRefusal;
    SweepIsJustified(s, now, c, id, Some(c.product));
  }

  lemma ReleaseJustified(s: State, now: int, c: Command, id: string)
    requires id in s.pool.leases && c.ReleaseCommand?
    ensures Justified(s, now, c, id, Serve(s, now, c).0.pool.leases)
  {
    hide Gate, ValidKey, Lookup, TakenBack, Trim;
    SweepIsJustified(s, now, c, id, Some(c.product));
  }

  lemma ReclaimJustified(s: State, now: int, c: Command, id: string)
    requires id in s.pool.leases && c.ReclaimCommand?
    ensures Justified(s, now, c, id, Serve(s, now, c).0.pool.leases)
  {
    hide Gate, ValidKey, Lookup, Trim;
    SweepIsJustified(s, now, c, id, None);
  }

  lemma DeviceJustified(s: State, now: int, c: Command, id: string)
    requires id in s.pool.leases && (c.DisableDeviceCommand? || c.UnbindCommand?)
    ensures Justified(s, now, c, id, Serve(s, now, c).0.pool.leases)
  {
    hide Gate, DeviceVerdict;
    SweepIsJustified(s, now, c, id, None);
  }

  lemma CreateJustified(s: State, now: int, c: Command, id: string)
    requires id in s.pool.leases && c.CreateLeaseCommand? && NextId(s.ledger, "lease") !in s.pool.leases
    ensures Justified(s, now, c, id, Serve(s, now, c).0.pool.leases)
  {
    hide Gate, ValidKey, Lookup, PolicyRefusal, RefreshedAccounts, SelectAccount, NewLease, NextId, LeaseDefaults,
        TakenBack, AskedByHolder;
    SweepIsJustified(s, now, c, id, Some(c.product));
    AllocateAdds(s.(pool := SweptPool(s.pool, now, Some(c.product))), now, c.product, c.key, c.userId, c.deviceId,
        LeaseDefaults(c.lease), c.order, c.secretFound, id);
    hide Justified, Allocate, Sweep;
  }

  lemma AllocateAdds(
    t: State, now: int, product: Product, key: string, userId: string, deviceId: string, input: LeaseInput,
    order: seq<string>, secretFound: bool, id: string)
    requires id in t.pool.leases && NextId(t.ledger, "lease") !in t.pool.leases
    ensures var leases := Allocate(t, now, product, key, userId, deviceId, input, order, secretFound).0.pool.leases;
            id in leases && leases[id] == t.pool.leases[id]
  {
    hide RefreshedAccounts, SelectAccount, NewLease, NextId;
  }

  lemma OthersJustified(s: State, now: int, c: Command, id: string)
    requires id in s.pool.leases && !c.RenewCommand? && !c.ReleaseCommand? && !c.ReclaimCommand?
    requires !c.DisableDeviceCommand? && !c.UnbindCommand? && !c.CreateLeaseCommand?
    ensures Justified(s, now, c, id, Serve(s, now, c).0.pool.leases)
  {
    hide Justified, ValidKey, Trim, Sweep, Gate, NextId, Lookup, UsageRefusal, Charged, Recorded, RefreshedAccounts,
        EditRefusal, ActiveCount, ActivateVerdict, CreateCodeVerdict, UpdateAccountVerdict, DisableAccountVerdict,
        CreateAccountVerdict, OldRecords, OldTests, OverQuota, SelectCode, Covered;
    SweepIsJustified(s, now, c, id, None);
    match c
    case UpdateAccountCommand(product, _, _, _, _) => SweepIsJustified(s, now, c, id, Some(product));
    case DisableAccountCommand(product, _, _) => SweepIsJustified(s, now, c, id, Some(product));
    case _ =>
  }

  /**
   * Nobody changes somebody else's lease. Whatever command is served, a lease stays as it was, or its time was up, or
   * its own active user asked for it from the lease's active device, or an administrator took it back.
   */
  lemma LeaseChangesAreJustified(s: State, now: int, c: Command, id: string)
    requires id in s.pool.leases && Numbered(s)
    ensures Justified(s, now, c, id, Step(s, now, c).0.pool.leases)
  {
    hide Serve, Step, Justified;
    ServeJustified(s, now, c, id);
    StepServes(s, now, c);
  }

  // --- what recorded calls say -----------------------------------------------------------------------------

  predicate Matches(u: Usage, leases: map<string, Lease>) {
    && u.leaseId in leases
    && u.product == leases[u.leaseId].product && u.call.provider == leases[u.leaseId].provider
    && u.call.model == leases[u.leaseId].model && u.createdAt >= leases[u.leaseId].createdAt
  }

  ghost predicate CallsMatch(pool: Pool) {
    forall u :: u in pool.usage ==> Matches(pool.usage[u], pool.leases)
  }

  ghost predicate LeasesBefore(pool: Pool, now: int) {
    forall id :: id in pool.leases ==> pool.leases[id].createdAt <= now
  }

  lemma RecordedMatches(
    s: State, now: int, product: Product, key: string, userId: string, deviceId: string, requestId: string,
    raw: CallInput)
    requires LeasesBefore(s.pool, now)
    ensures var t := RecordUsage(s, now, product, key, userId, deviceId, requestId, raw).0;
            && t.pool.leases == s.pool.leases
            && forall u :: u in t.pool.usage && (u !in s.pool.usage || t.pool.usage[u] != s.pool.usage[u]) ==>
                 Matches(t.pool.usage[u], s.pool.leases)
  {
    hide OverQuota, Recorded, Charged, ValidKey, Trim, NextId, Lookup;
  }

  lemma StillMatch(before: Pool, after: Pool)
    requires CallsMatch(before) && LeasesAdvance(before.leases, after.leases)
    requires forall u :: u in after.usage && (u !in before.usage || after.usage[u] != before.usage[u]) ==>
               Matches(after.usage[u], before.leases)
    ensures CallsMatch(after)
  {
    forall u | u in after.usage ensures Matches(after.usage[u], after.leases) {
      assert Matches(after.usage[u], before.leases);
      assert LeaseAdvances(before.leases[after.usage[u].leaseId], after.leases[after.usage[u].leaseId]);
    }
  }

  lemma RenewAddsNone(s: State, now: int, c: Command)
    requires c.RenewCommand?
    ensures Serve(s, now, c).0.pool.leases.Keys == s.pool.leases.Keys
  {
    hide Gate, ValidKey, Lookup;
  }

  lemma CreateAddsNow(s: State, now: int, c: Command)
    requires c.CreateLeaseCommand? && LeasesBefore(s.pool, now)
    ensures LeasesBefore(Serve(s, now, c).0.pool, now)
  {
    hide Gate, ValidKey, Lookup, PolicyRefusal, RefreshedAccounts, SelectAccount, NextId, LeaseDefaults;
  }

  lemma StepLeasesBefore(s: State, now: int, c: Command)
    requires Numbered(s) && LeasesBefore(s.pool, now)
    ensures LeasesBefore(Step(s, now, c).0.pool, now)
  {
    hide Serve, Step, Numbered;
    StepServes(s, now, c);
    StepAdvances(s, now, c);
    if c.CreateLeaseCommand? {
      CreateAddsNow(s, now, c);
    } else {
      if c.RenewCommand? { RenewAddsNone(s, now, c); } else { LeaseLedger.OthersOnlyEnd(s, now, c); }
      SameLeasesBefore(s.pool, Step(s, now, c).0.pool, now);
    }
  }

  lemma SameLeasesBefore(before: Pool, after: Pool, now: int)
    requires LeasesBefore(before, now) && LeasesAdvance(before.leases, after.leases)
    requires after.leases.Keys == before.leases.Keys
    ensures LeasesBefore(after, now)
  {
    forall id | id in after.leases ensures after.leases[id].createdAt <= now {
      assert LeaseAdvances(before.leases[id], after.leases[id]);
    }
  }

  lemma StepMatches(s: State, now: int, c: Command)
    requires Numbered(s) && LeasesBefore(s.pool, now) && CallsMatch(s.pool)
    ensures CallsMatch(Step(s, now, c).0.pool)
  {
    hide Step, Numbered, Matches, LeasesBefore, RecordUsage;
    StepServes(s, now, c);
    StepAdvances(s, now, c);
    if c.RecordUsageCommand? {
      RecordedMatches(s, now, c.product, c.key, c.userId, c.deviceId, c.requestId, c.call);
    } else {
      Quota.OthersKeepUsage(s, now, c);
    }
    StillMatch(s.pool, Step(s, now, c).0.pool);
  }

  lemma {:induction false} RunMatches(s: State, from: int, events: seq<Event>)
    requires Numbered(s) && LeasesBefore(s.pool, from) && CallsMatch(s.pool) && Timed(from, events)
    ensures CallsMatch(Run(s, events).pool)
    decreases |events|
  {
    hide Step, Numbered, CallsMatch;
    if events != [] {
      StepLeasesBefore(s, events[0].now, events[0].command);
      StepMatches(s, events[0].now, events[0].command);
      StepAdvances(s, events[0].now, events[0].command);
      RunMatches(Step(s, events[0].now, events[0].command).0, events[0].now, events[1..]);
    }
  }

  /**
   * In every reachable state a recorded call names an existing lease of its product, provider and model, and was made
   * no earlier than the lease.
   */
  lemma CallsMatchTheirLeases(people: People, from: int, events: seq<Event>, u: string)
    requires Timed(from, events) && u in Reached(people, events).pool.usage
    ensures Matches(Reached(people, events).pool.usage[u], Reached(people, events).pool.leases)
  {
    hide Run, Matches;
    RunMatches(Empty(people), from, events);
  }
}
