/** The bulk updates of the lease table: the expiry sweep and the release of a device's leases. */
module LeaseTable {
  import opened Collections
  import opened Tables

  predicate InProduct(lease: Lease, product: Option<Product>) {
    product.None? || lease.product == product.value
  }

  function Swept(lease: Lease, now: int, product: Option<Product>): Lease {
    if InProduct(lease, product) && lease.status == LeaseActive && lease.expiresAt <= now then
      lease.(status := LeaseExpired, releasedAt := if lease.releasedAt.None? then Some(now) else lease.releasedAt)
    else lease
  }

  function Sweep(leases: map<string, Lease>, now: int, product: Option<Product>): (swept: map<string, Lease>)
    ensures swept.Keys == leases.Keys
  {
    map id | id in leases :: Swept(leases[id], now, product)
  }

  function ReleasedAt(lease: Lease, now: int): Lease {
    lease.(status := LeaseReleased, releasedAt := Some(now))
  }

  predicate HeldBy(lease: Lease, deviceId: string, product: Product) {
    lease.product == product && lease.deviceId == deviceId && lease.status == LeaseActive
  }

  function ReleaseForDevice(
    leases: map<string, Lease>, deviceId: string, now: int, product: Product): map<string, Lease> {
    map id | id in leases :: if HeldBy(leases[id], deviceId, product) then ReleasedAt(leases[id], now) else leases[id]
  }

  /** `after` is `before` with some active leases ended and nothing else about any lease's terms changed. */
  ghost predicate OnlyEnds(before: map<string, Lease>, after: map<string, Lease>) {
    && before.Keys == after.Keys
    && forall id :: id in before ==> Ended(before[id], after[id])
  }

  predicate Ended(before: Lease, after: Lease) {
    && after == before.(status := after.status, releasedAt := after.releasedAt)
    && (after != before ==> before.status == LeaseActive && after.status != LeaseActive)
  }

  lemma SweepOnlyEnds(leases: map<string, Lease>, now: int, product: Option<Product>)
    ensures OnlyEnds(leases, Sweep(leases, now, product))
  {
  }

  lemma ReleaseOnlyEnds(leases: map<string, Lease>, deviceId: string, now: int, product: Product)
    ensures OnlyEnds(leases, ReleaseForDevice(leases, deviceId, now, product))
  {
  }

  /** Ending leases never adds to an account's active count. */
  lemma EndingLowersCount(before: map<string, Lease>, after: map<string, Lease>, accountId: string)
    requires OnlyEnds(before, after)
    ensures ActiveCount(after, accountId) <= ActiveCount(before, accountId)
  {
    SumMonotone(after, ActiveOn(accountId), before, ActiveOn(accountId));
  }

  /** An account's count is zero exactly when none of its leases is active. */
  lemma CountZero(leases: map<string, Lease>, accountId: string)
    ensures ActiveCount(leases, accountId) == 0 <==>
            forall id :: id in leases && leases[id].accountId == accountId ==> leases[id].status != LeaseActive
  {
    if id :| id in leases && leases[id].accountId == accountId && leases[id].status == LeaseActive {
      SumRemove(leases, ActiveOn(accountId), id);
    } else {
      SumZero(leases, ActiveOn(accountId));
    }
  }
}
