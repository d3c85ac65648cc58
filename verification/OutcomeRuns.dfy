/** What follows for runs from what becomes of each request. */
module OutcomeRuns {
  import opened Collections
  import opened Tables
  import opened LeaseTable
  import opened Leasing
  import opened Bindings
  import opened LeaseSafety
  import opened Progress
  import opened ControlPlane
  import opened Runs
  import opened Requests
  import opened GrantOutcomes
  import opened PoolOutcomes
  import opened LeaseOutcomes
  import opened UsageOutcomes
  import LeaseLedger

  // --- a disabled device -----------------------------------------------------------------------------------

  predicate IsDisabled(s: State, id: string) {
    id in s.grants.devices && s.grants.devices[id].status == DeviceDisabled
  }

  /** The step unbinds the device, for the first time the request is heard of. */
  ghost predicate Unbinds(s: State, e: Event, id: string) {
    && e.command.UnbindCommand? && e.command.deviceId == id && !Step(s, e.now, e.command).1.Failed?
    && !Known(s, UnbindScope(id, e.command.key, e.command.product))
  }

  ghost predicate EverUnbound(s: State, events: seq<Event>, id: string)
    decreases |events|
  {
    events != []
    && (Unbinds(s, events[0], id) || EverUnbound(Step(s, events[0].now, events[0].command).0, events[1..], id))
  }

  lemma ActivationSparesDisabled(s: State, now: int, c: Command, id: string)
    requires c.ActivateCommand? && IsDisabled(s, id)
    ensures IsDisabled(Serve(s, now, c).0, id) && Serve(s, now, c).0.grants.devices[id] == s.grants.devices[id]
  {
    hide DecidedBy, Serve, Moves, Usable, StillCovered, GoodKey, GoodActivation, Entitled, Grant;
    ActivationDecided(s, now, c);
    if !Serve(s, now, c).1.Failed? {
      NoneFails(ActivationChecks(s, now, c), Serve(s, now, c).1);
      assert !ActivationChecks(s, now, c)[8].fails && !ActivationChecks(s, now, c)[9].fails;
      ActivationIsConfirmed(s, now, c);
      if !Known(s, ActivateScope(c.userId, c.key)) && !StillCovered(s, now, c.userId, c.activation) {
        ActivationTakesHold(s, now, c);
        MovesOneDevice(s, Serve(s, now, c).0.grants, now, c.userId, c.activation);
      }
    }
  }

  lemma NoneFails(checks: seq<Check>, reply: Reply)
    requires DecidedBy(checks, reply) && !reply.Failed?
    ensures forall i :: 0 <= i < |checks| ==> !checks[i].fails
  {
  }

  lemma MovesOneDevice(s: State, g: Grants, now: int, userId: string, a: ActivateInput)
    requires exists codeId :: Usable(s, now, userId, a, codeId) && Moves(s, g, now, userId, a, codeId)
    ensures OnlyRow(s.grants.devices, g.devices, a.deviceId)
  {
  }

  lemma StepSparesDisabled(s: State, e: Event, id: string)
    requires IsDisabled(s, id) && !Unbinds(s, e, id)
    ensures IsDisabled(Step(s, e.now, e.command).0, id)
    ensures Step(s, e.now, e.command).0.grants.devices[id] == s.grants.devices[id]
  {
    hide Serve, Step;
    var c := e.command;
    StepServes(s, e.now, c);
    if c.ActivateCommand? {
      ActivationSparesDisabled(s, e.now, c, id);
    } else if c.DisableDeviceCommand? {
      DisablingDecided(s, e.now, c);
      if !Serve(s, e.now, c).1.Failed? { DeviceGetsDisabled(s, e.now, c); }
    } else if c.UnbindCommand? {
      UnbindingDecided(s, e.now, c);
      if !Serve(s, e.now, c).1.Failed? { DeviceGetsUnbound(s, e.now, c); }
    } else if c.CreateCodeCommand? || c.RevokeCodeCommand? || c.ListCodesCommand? || c.Administer? {
      CodesKeepPool(s, e.now, c);
    } else {
      OthersKeepGrants(s, e.now, c);
    }
  }

  /** A disabled device stays as it is, whoever activates it and whatever else happens, until it is unbound. */
  lemma {:induction false} DisabledUntilUnbound(s: State, events: seq<Event>, id: string)
    requires IsDisabled(s, id)
    ensures EverUnbound(s, events, id)
            || (id in Run(s, events).grants.devices && Run(s, events).grants.devices[id] == s.grants.devices[id])
    decreases |events|
  {
    hide Step, Serve, Unbinds;
    if events != [] && !EverUnbound(s, events, id) {
      StepSparesDisabled(s, events[0], id);
      DisabledUntilUnbound(Step(s, events[0].now, events[0].command).0, events[1..], id);
    }
  }

  // --- a new lease -----------------------------------------------------------------------------------------

  lemma OnlyCreationAddsLeases(s: State, now: int, c: Command, id: string)
    requires Numbered(s) && id !in s.pool.leases && id in Step(s, now, c).0.pool.leases
    ensures c.CreateLeaseCommand? && !Serve(s, now, c).1.Failed?
    ensures !Known(s, CreateLeaseScope(c.userId, c.deviceId, c.key, c.product)) && id == NextId(s.ledger, "lease")
  {
    hide Serve, Step, NextId, CanServe, BringsUpToDate, GrantsLease, Remembers, Draws;
    StepServes(s, now, c);
    if c.RenewCommand? {
      if Serve(s, now, c).1.Failed? { RefusedChangeLeaves(s, now, c); } else { LeaseIsRenewed(s, now, c); }
    } else if !c.CreateLeaseCommand? {
      LeaseLedger.OthersOnlyEnd(s, now, c);
    } else if Serve(s, now, c).1.Failed? {
      RefusedLeaseLeaves(s, now, c);
    } else if Known(s, CreateLeaseScope(c.userId, c.deviceId, c.key, c.product)) {
      LeaseIsConfirmed(s, now, c);
    } else {
      NextLeaseIsNew(s);
      LeaseIsCreated(s, now, c);
    }
  }

  lemma NextLeaseIsNew(s: State)
    requires Numbered(s)
    ensures NextId(s.ledger, "lease") !in s.pool.leases
  {
    hide Identifier, Issued;
    NextIdFresh(s.pool.leases.Keys, "lease", Counter(s.ledger, "lease"));
  }

  /**
   * In every reachable state, whatever command adds a lease: an active user has asked for it from an active device of
   * their own, with a model the user's policy allows and before the tokens of the day reached its limit, and the
   * account could serve it.
   */
  lemma NewLeasesAreAuthorised(people: People, from: int, events: seq<Event>, now: int, c: Command, id: string)
    requires Timed(from, events) && LastTime(from, events) <= now
    requires id !in Reached(people, events).pool.leases && id in Step(Reached(people, events), now, c).0.pool.leases
    ensures c.CreateLeaseCommand?
    ensures var s, lease := Reached(people, events), Step(Reached(people, events), now, c).0.pool.leases[id];
            && ActiveUser(s, lease.userId) && OwnDevice(s, lease.userId, lease.deviceId)
            && s.grants.devices[lease.deviceId].status == DeviceActive
            && s.grants.devices[lease.deviceId].product == lease.product
            && Authorised(s, lease.userId, Wanted(c.lease)) && !AtLimit(s, now, lease.userId, lease.product)
            && CanServe(s, now, lease.product, Wanted(c.lease), c.order, lease.accountId)
            && lease.provider == Wanted(c.lease).provider && lease.model == Wanted(c.lease).model
            && lease.createdAt == now && lease.status == LeaseActive
  {
    var s := Reached(people, events);
    ReachedIsSound(people, from, events);
    hide Serve, Step, Run, Consistent, PoolSound, OnActiveDevices, Numbered;
    OnlyCreationAddsLeases(s, now, c, id);
    StepServes(s, now, c);
    NextLeaseIsNew(s);
    LeaseIsCreated(s, now, c);
    LeaseCreationDecided(s, now, c);
    LeaseChecksPassed(s, now, c);
    hide DecidedBy, LeaseChecks, ExpiresIn, BringsUpToDate, Remembers, Draws;
  }

  lemma LeaseChecksPassed(s: State, now: int, c: Command)
    requires c.CreateLeaseCommand? && DecidedBy(LeaseChecks(s, now, c), Serve(s, now, c).1)
    requires !Serve(s, now, c).1.Failed? && !Known(s, CreateLeaseScope(c.userId, c.deviceId, c.key, c.product))
    ensures ActiveUser(s, c.userId) && OwnDevice(s, c.userId, c.deviceId)
    ensures s.grants.devices[c.deviceId].status == DeviceActive && s.grants.devices[c.deviceId].product == c.product
    ensures Authorised(s, c.userId, Wanted(c.lease)) && !AtLimit(s, now, c.userId, c.product)
  {
    var checks := LeaseChecks(s, now, c);
    NoneFails(checks, Serve(s, now, c).1);
    hide Serve, GoodKey, NonBlank, CanServe, Authorised, AtLimit;
    assert !checks[3].fails && !checks[5].fails && !checks[6].fails && !checks[7].fails && !checks[10].fails
        && !checks[11].fails;
  }
}
