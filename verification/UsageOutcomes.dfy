/**
 * What becomes of a request to record a call: which check turns it away, what is recorded, and what it is charged to.
 */
module UsageOutcomes {
  import opened Collections
  import opened Tables
  import opened ModelPool
  import opened Leasing
  import opened LeaseSafety
  import opened ControlPlane
  import opened Requests
  import opened GrantOutcomes
  import opened PoolOutcomes
  import opened LeaseOutcomes

  /** The tokens a request is charged: the total it gives, or what it counts in and out if it gives none. */
  function TokensOf(call: CallInput): int {
    if call.totalTokens == 0 then call.inputTokens + call.outputTokens else call.totalTokens
  }

  predicate GoodCall(call: CallInput) {
    && GoodId(call.clientCallId) && GoodId(call.leaseId)
    && 1 <= |call.provider| <= 64 && 1 <= |call.model| <= 128 && |call.errorCode| <= 128
    && call.inputTokens >= 0 && call.outputTokens >= 0 && call.totalTokens >= 0 && call.latencyMs >= 0
    && TokensOf(call) >= call.inputTokens + call.outputTokens
  }

  /** The record says what the request said. */
  predicate Tells(u: Usage, call: CallInput) {
    && u.call.provider == call.provider && u.call.model == call.model
    && u.call.inputTokens == call.inputTokens && u.call.outputTokens == call.outputTokens
    && u.call.totalTokens == TokensOf(call) && u.call.latencyMs == call.latencyMs
    && u.call.status == call.status && u.call.errorCode == call.errorCode
  }

  predicate OfCall(s: State, call: CallInput, id: string) {
    id in s.pool.usage && s.pool.usage[id].leaseId == call.leaseId && s.pool.usage[id].clientCallId == call.clientCallId
  }

  function PrintedCall(c: Command): Fingerprint
    requires c.RecordUsageCommand?
  {
    UsagePrint(c.userId, c.deviceId, c.product, c.call.(totalTokens := TokensOf(c.call)))
  }

  ghost function UsageChecks(s: State, now: int, c: Command): seq<Check>
    requires c.RecordUsageCommand?
  {
    var call, scope := c.call, UsageScope(c.userId, c.deviceId, c.key, c.product);
    var own, there := OwnDevice(s, c.userId, c.deviceId), call.leaseId in s.pool.leases;
    var known, seen := Known(s, scope), exists id :: OfCall(s, call, id);
    var differs := exists id :: OfCall(s, call, id) && !Tells(s.pool.usage[id], call);
    [Check(!GoodKey(c.key), IdempotencyKeyRequired),
     Check(!GoodCall(call), InvalidRequest),
     Check(!NonBlank(c.deviceId), DeviceBindingRequired),
     Check(!own, DeviceNotFound),
     Check(own && s.grants.devices[c.deviceId].product != c.product, Forbidden)]
    + HolderChecks(s, call.leaseId, c.userId, c.deviceId, c.product)
    + [Check(there && !(s.pool.leases[call.leaseId].provider == call.provider
                        && s.pool.leases[call.leaseId].model == call.model), InvalidRequest),
       Check(Clashes(s, scope, PrintedCall(c)), IdempotencyConflict),
       Check(known && Resource(s, scope) !in s.pool.usage, ModelLeaseNotFound),
       Check(!known && differs, IdempotencyConflict),
       Check(!known && !seen && AtLimit(s, now, c.userId, c.product), UserRecordedQuotaExceeded)]
  }

  lemma CallsAreGood(call: CallInput)
    ensures GoodCall(call) <==>
            ValidCall(call) && WithTotal(call).totalTokens >= WithTotal(call).inputTokens + WithTotal(call).outputTokens
  {
    IdsAreGood(call.clientCallId);
    IdsAreGood(call.leaseId);
    hide ValidId, GoodId;
  }

  /** Where each call is recorded once, the record found is the one that counts. */
  lemma FoundOnce(s: State, call: CallInput, id: string)
    requires RecordedOnce(s.pool.usage, s.pool.leases) && OfCall(s, call, id) && ValidCall(WithTotal(call))
    ensures s.pool.usage[id].call == CallOf(WithTotal(call)) <==>
            !exists k :: OfCall(s, call, k) && !Tells(s.pool.usage[k], call)
  {
    assert forall k :: OfCall(s, call, k) ==> SameCall(s.pool.usage[k], call.leaseId, call.clientCallId);
    assert forall k :: OfCall(s, call, k) ==> k == id;
    hide ValidCall;
  }

  /** Recorded calls are found, and told apart from the request's, by what the records say. */
  lemma FoundTells(s: State, call: CallInput)
    requires RecordedOnce(s.pool.usage, s.pool.leases) && GoodCall(call)
    ensures ValidCall(WithTotal(call))
    ensures Recorded(s.pool.usage, call.leaseId, call.clientCallId) <==> exists id :: OfCall(s, call, id)
    ensures forall id :: id in s.pool.usage && SameCall(s.pool.usage[id], call.leaseId, call.clientCallId) ==>
              (s.pool.usage[id].call == CallOf(WithTotal(call)) <==>
               !exists k :: OfCall(s, call, k) && !Tells(s.pool.usage[k], call))
  {
    CallsAreGood(call);
    assert forall id :: OfCall(s, call, id) <==>
        id in s.pool.usage && SameCall(s.pool.usage[id], call.leaseId, call.clientCallId);
    forall id | OfCall(s, call, id)
      ensures s.pool.usage[id].call == CallOf(WithTotal(call)) <==>
              !exists k :: OfCall(s, call, k) && !Tells(s.pool.usage[k], call)
    {
      FoundOnce(s, call, id);
    }
    hide CallOf, Tells, RecordedOnce;
  }

  function ErrorOf(reply: Reply): Option<Error> {
    if reply.Failed? then Some(reply.error) else None
  }

  /** The last checks: what the request finds remembered and recorded, and the limit. */
  lemma ChargingDecided(s: State, now: int, c: Command)
    requires c.RecordUsageCommand? && RecordedOnce(s.pool.usage, s.pool.leases) && GoodCall(c.call)
    requires c.call.leaseId in s.pool.leases
    ensures ValidCall(WithTotal(c.call)) && WithTotal(c.call).leaseId == c.call.leaseId
    ensures var (call, scope) := (c.call, UsageScope(c.userId, c.deviceId, c.key, c.product));
            var (t, reply) :=
              Charge(s, now, c.product, c.key, c.userId, c.deviceId, c.requestId, WithTotal(call));
            var known, seen := Known(s, scope), exists id :: OfCall(s, call, id);
            var differs := exists id :: OfCall(s, call, id) && !Tells(s.pool.usage[id], call);
            && (reply.Failed? ==> t == s)
            && ErrorOf(reply) ==
               if Clashes(s, scope, PrintedCall(c)) then Some(IdempotencyConflict)
               else if known && Resource(s, scope) !in s.pool.usage then Some(ModelLeaseNotFound)
               else if !known && differs then Some(IdempotencyConflict)
               else if !known && !seen && AtLimit(s, now, c.userId, c.product) then Some(UserRecordedQuotaExceeded)
               else None
  {
    hide ValidCall, GoodCall, CallOf, Tells, Charged, NextId, RecordedOnce, UserDayTotal, Trim;
    FoundTells(s, c.call);
    assert WithTotal(c.call) == c.call.(totalTokens := TokensOf(c.call));
  }

  lemma RecordingDecided(s: State, now: int, c: Command)
    requires c.RecordUsageCommand? && RecordedOnce(s.pool.usage, s.pool.leases)
    ensures DecidedBy(UsageChecks(s, now, c), Serve(s, now, c).1)
    ensures Serve(s, now, c).1.Failed? ==> Serve(s, now, c).0 == s
  {
    hide ValidKey, GoodKey, ValidCall, GoodCall, Trim, NonBlank, Charge, RecordedOnce, Tells, OfCall, AtLimit, Clashes,
        Resource;
    var checks := UsageChecks(s, now, c);
    KeysAreGood(c.key);
    CallsAreGood(c.call);
    TrimIsBlank(c.deviceId);
    if GoodCall(c.call) && c.call.leaseId in s.pool.leases {
      ChargingDecided(s, now, c);
    }
    Unfolds(checks);
    Decides(checks, 0, Serve(s, now, c).1);
  }

  /** A repeated request, and one about a call that is recorded already, answers with the record and records nothing. */
  lemma CallIsConfirmed(s: State, now: int, c: Command)
    requires c.RecordUsageCommand? && !Serve(s, now, c).1.Failed?
    ensures var ((t, reply), scope) := (Serve(s, now, c), UsageScope(c.userId, c.deviceId, c.key, c.product));
            && (Known(s, scope) ==> t == s && reply == UsageReply(s.pool.usage[Resource(s, scope)]))
            && (!Known(s, scope) && (exists id :: OfCall(s, c.call, id)) ==>
                  exists id ::
                    && OfCall(s, c.call, id) && Tells(s.pool.usage[id], c.call) && reply == UsageReply(s.pool.usage[id])
                    && t == s.(ledger := t.ledger) && Remembers(s, t, scope, PrintedCall(c), id)
                    && t.ledger.sequences == s.ledger.sequences)
  {
    var call, scope := c.call, UsageScope(c.userId, c.deviceId, c.key, c.product);
    CallsAreGood(call);
    assert WithTotal(call) == call.(totalTokens := TokensOf(call));
    if id :| !Known(s, scope) && OfCall(s, call, id) {
      assert SameCall(s.pool.usage[id], call.leaseId, call.clientCallId);
    }
    hide ValidKey, ValidCall, GoodCall, Trim, Charged, NextId, OverQuota;
  }

  /** The lease's account is exhausted once the tokens of its day reach its limit; no other account changes. */
  ghost predicate Charges(s: State, t: State, now: int, product: Product, accountId: string) {
    && t.pool.accounts.Keys == s.pool.accounts.Keys
    && forall id :: id in s.pool.accounts ==>
         var before, after := s.pool.accounts[id], t.pool.accounts[id];
         if id == accountId && before.dailyLimit > 0
            && before.dailyLimit <= AccountDayTotal(t.pool.usage, s.pool.leases, id, now / 86400, Some(product))
         then after == before.(status := Exhausted) else after == before
  }

  /** The record tells what the request said about the call, and of which lease, when and under which product it was. */
  predicate RecordsCall(c: Command, u: Usage, now: int)
    requires c.RecordUsageCommand?
  {
    && Tells(u, c.call) && u.leaseId == c.call.leaseId && u.clientCallId == c.call.clientCallId
    && u.product == c.product && u.requestId == Trim(c.requestId) && u.createdAt == now
  }

  /** Any other request that succeeds records its call as told and charges its account. */
  lemma CallIsRecorded(s: State, now: int, c: Command)
    requires c.RecordUsageCommand? && !Serve(s, now, c).1.Failed?
    requires !Known(s, UsageScope(c.userId, c.deviceId, c.key, c.product)) && !exists id :: OfCall(s, c.call, id)
    ensures c.call.leaseId in s.pool.leases
    ensures var ((t, reply), id) := (Serve(s, now, c), NextId(s.ledger, "usage"));
            && OnlyPool(s, t) && t.pool == s.pool.(accounts := t.pool.accounts, usage := t.pool.usage)
            && OnlyRow(s.pool.usage, t.pool.usage, id) && RecordsCall(c, t.pool.usage[id], now)
            && reply == UsageReply(t.pool.usage[id])
            && Charges(s, t, now, c.product, s.pool.leases[c.call.leaseId].accountId)
            && Draws(s, t, "usage", 1)
            && Remembers(s, t, UsageScope(c.userId, c.deviceId, c.key, c.product), PrintedCall(c), id)
  {
    var call := c.call;
    CallsAreGood(call);
    assert WithTotal(call) == call.(totalTokens := TokensOf(call));
    assert forall k :: k in s.pool.usage && SameCall(s.pool.usage[k], call.leaseId, call.clientCallId) ==>
        OfCall(s, call, k);
    hide ValidKey, ValidId, Trim, NextId, OverQuota, AccountDayTotal;
  }

  /**
   * A recorded call raises the day's total of its user, for its product, by the tokens the request is charged, which
   * are never fewer than it counts in and out; no other user's total changes, nor that of another day.
   */
  lemma DayTotalRises(s: State, now: int, c: Command, userId: string, day: int)
    requires Invariant(s, now) && c.RecordUsageCommand? && !Serve(s, now, c).1.Failed?
    requires !Known(s, UsageScope(c.userId, c.deviceId, c.key, c.product)) && !exists id :: OfCall(s, c.call, id)
    ensures TokensOf(c.call) >= c.call.inputTokens + c.call.outputTokens
    ensures UserDayTotal(Serve(s, now, c).0.pool.usage, s.pool.leases, userId, day, c.product)
         == UserDayTotal(s.pool.usage, s.pool.leases, userId, day, c.product)
            + (if userId == c.userId && day == now / 86400 then TokensOf(c.call) else 0)
  {
    hide Serve, Invariant, UserDayTotal, AccountDayTotal, DecidedBy, Charges, NextId;
    CallIsRecorded(s, now, c);
    RecorderHoldsLease(s, now, c);
    NextCallIsNew(s, now);
    var t, id := Serve(s, now, c).0, NextId(s.ledger, "usage");
    assert t.pool.usage == s.pool.usage[id := t.pool.usage[id]];
    TotalsAddUp(s.pool.usage, s.pool.leases, id, t.pool.usage[id], userId, day, c.product);
  }

  lemma NextCallIsNew(s: State, now: int)
    requires Invariant(s, now)
    ensures NextId(s.ledger, "usage") !in s.pool.usage
  {
    hide Identifier, Issued;
    NextIdFresh(s.pool.usage.Keys, "usage", Counter(s.ledger, "usage"));
  }

  lemma RecorderHoldsLease(s: State, now: int, c: Command)
    requires c.RecordUsageCommand? && !Serve(s, now, c).1.Failed?
    ensures c.call.leaseId in s.pool.leases && s.pool.leases[c.call.leaseId].userId == c.userId
    ensures GoodCall(c.call)
  {
    CallsAreGood(c.call);
    hide ValidKey, ValidId, Charge;
  }
}
