/** Delivering a renewal again: when exactly it extends the lease once more, and a run in which it does. */
module Redelivery {
  import opened Collections
  import opened Tables
  import opened LeaseTable
  import opened Activation
  import opened ModelPool
  import opened Leasing
  import opened Progress
  import opened Delivery
  import opened ControlPlane
  import opened Runs

  // --- when a redelivery extends ---------------------------------------------------------------------------

  /** Everything a renewal needs, its record aside. */
  predicate Renewable(s: State, now: int, c: Command)
    requires c.RenewCommand?
  {
    && Gate(s, c.userId, c.deviceId, c.product).None? && c.leaseId in s.pool.leases
    && var lease := s.pool.leases[c.leaseId];
      && lease.status == LeaseActive && now < lease.expiresAt
      && lease.accountId in s.pool.accounts && s.pool.accounts[lease.accountId].status == AccountActive
  }

  predicate WellPosed(c: Command) {
    c.RenewCommand? && ValidKey(c.key) && 30 <= ExtensionOf(c.extendSeconds) <= 3600
  }

  /** The lease is the one the caller holds. */
  predicate OwnLease(leases: map<string, Lease>, c: Command)
    requires c.RenewCommand?
  {
    && c.leaseId in leases && leases[c.leaseId].userId == c.userId && leases[c.leaseId].deviceId == c.deviceId
    && leases[c.leaseId].product == c.product
  }

  lemma RenewedFacts(s: State, now: int, c: Command)
    requires c.RenewCommand? && !Serve(s, now, c).1.Failed?
    ensures WellPosed(c) && OwnLease(s.pool.leases, c)
    ensures RenewScope(c.leaseId, c.key, c.product) in Serve(s, now, c).0.ledger.records
  {
    hide ValidKey, Gate;
  }

  lemma RenewalMoves(s: State, now: int, c: Command)
    requires c.RenewCommand? && WellPosed(c) && OwnLease(s.pool.leases, c)
    ensures var t := Serve(s, now, c).0;
            && c.leaseId in t.pool.leases
            && (RenewScope(c.leaseId, c.key, c.product) !in s.ledger.records && Renewable(s, now, c) ==>
                  t.pool.leases[c.leaseId].expiresAt
                  == s.pool.leases[c.leaseId].expiresAt + ExtensionOf(c.extendSeconds))
            && (RenewScope(c.leaseId, c.key, c.product) in s.ledger.records || !Renewable(s, now, c) ==>
                  t.pool.leases[c.leaseId].expiresAt == s.pool.leases[c.leaseId].expiresAt)
  {
    hide ValidKey, Gate;
  }

  lemma StaysOwn(s: State, t: State, c: Command)
    requires c.RenewCommand? && OwnLease(s.pool.leases, c) && Advances(s, t)
    ensures OwnLease(t.pool.leases, c)
  {
    assert LeaseAdvances(s.pool.leases[c.leaseId], t.pool.leases[c.leaseId]);
  }

  /**
   * Once a renewal has succeeded, delivering it again at any later point moves the lease's expiry if and only if its
   * record has been dropped meanwhile and the user, device, lease and account checks still pass; it then moves by
   * exactly the same extension again. And only a retention pass that found the record older than its lifetime has
   * dropped it.
   */
  lemma RedeliveryExtendsExactly(s: State, now: int, c: Command, between: seq<Event>, later: int)
    requires Numbered(s) && c.RenewCommand? && !Step(s, now, c).1.Failed?
    ensures var t := Step(s, now, c).0;
            var scope := RenewScope(c.leaseId, c.key, c.product);
            var u := Run(t, between);
            var v := Step(u, later, c).0;
            && c.leaseId in u.pool.leases && c.leaseId in v.pool.leases
            && (v.pool.leases[c.leaseId].expiresAt != u.pool.leases[c.leaseId].expiresAt <==>
                scope !in u.ledger.records && Renewable(u, later, c))
            && (v.pool.leases[c.leaseId].expiresAt != u.pool.leases[c.leaseId].expiresAt ==>
                  v.pool.leases[c.leaseId].expiresAt
                  == u.pool.leases[c.leaseId].expiresAt + ExtensionOf(c.extendSeconds))
            && Remembered(t, scope)
            && (scope !in u.ledger.records ==>
                  exists i :: 0 <= i < |between| && Expires(between[i], scope, t.ledger.recordedAt[scope]))
  {
    hide Numbered, Step, Serve, Run, OwnLease, WellPosed, Renewable, Expires, Advances;
    var t, scope := Step(s, now, c).0, RenewScope(c.leaseId, c.key, c.product);
    StepServes(s, now, c);
    RenewedFacts(s, now, c);
    StepAdvances(s, now, c);
    StaysOwn(s, t, c);
    RunAdvances(t, between);
    var u := Run(t, between);
    StaysOwn(t, u, c);
    RenewalMoves(u, later, c);
    StepServes(u, later, c);
    OwnIsThere(u, c);
    Positive(c);
    SucceededIsRemembered(s, now, c);
    if Outlives(t, scope, between) {
      RecordsSurvive(t, between, scope);
    }
  }

  lemma OwnIsThere(s: State, c: Command)
    requires c.RenewCommand? && OwnLease(s.pool.leases, c)
    ensures c.leaseId in s.pool.leases
  {
  }

  lemma Positive(c: Command)
    requires WellPosed(c)
    ensures ExtensionOf(c.extendSeconds) >= 30
  {
    hide ExtensionOf;
  }
}
