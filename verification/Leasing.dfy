/** Creating, renewing, releasing and reclaiming leases, and recording the calls made under them. */
module Leasing {
  import opened Collections
  import opened Tables
  import opened LeaseTable
  import opened ModelPool

  // --- what every client command checks first ------------------------------------------------------------

  function OwnedDevice(g: Grants, userId: string, deviceId: string, product: Product): Option<Error> {
    if Trim(deviceId) == "" then Some(DeviceBindingRequired)
    else if deviceId !in g.devices || g.devices[deviceId].owner != Some(userId) then Some(DeviceNotFound)
    else None
  }

  function Gate(s: State, userId: string, deviceId: string, product: Product): Option<Error> {
    if userId !in s.people.users then Some(UserNotFound)
    else if s.people.users[userId].status != UserActive then Some(UserIsDisabled)
    else
      var missing := OwnedDevice(s.grants, userId, deviceId, product);
      if missing.Some? then missing
      else if s.grants.devices[deviceId].status != DeviceActive then Some(DeviceIsDisabled)
      else if s.grants.devices[deviceId].product != product then Some(Forbidden)
      else None
  }

  // --- creating ------------------------------------------------------------------------------------------

  function LeaseDefaults(input: LeaseInput): LeaseInput {
    LeaseInput(Trim(input.provider), Trim(input.model), input.purpose,
               if input.maxDurationSeconds == 0 then 300 else input.maxDurationSeconds)
  }

  predicate ValidLeaseInput(input: LeaseInput) {
    1 <= |input.provider| <= 64 && 1 <= |input.model| <= 128 && 30 <= input.maxDurationSeconds <= 3600
  }

  ghost function PolicyRefusal(s: State, now: int, product: Product, userId: string, input: LeaseInput): Option<Error> {
    if userId !in s.people.policies then None
    else
      var policy := s.people.policies[userId];
      if policy.allowedModels != [] && input.provider + "/" + input.model !in policy.allowedModels
          then Some(UserModelNotAuthorized)
      else if policy.dailyTokenLimit > 0
          && UserDayTotal(s.pool.usage, s.pool.leases, userId, Day(now), product) >= policy.dailyTokenLimit
      then Some(UserRecordedQuotaExceeded)
      else None
  }

  function NewLease(
    a: Account, accountId: string, now: int, product: Product, userId: string, deviceId: string, input: LeaseInput)
    : Lease {
    Lease(product, userId, deviceId, accountId, input.purpose, a.provider, a.model, LeaseActive,
          now, now + input.maxDurationSeconds, None, a.baseUrl, a.concurrencyLimit)
  }

  /** `secretFound` is the secret store's answer for the chosen account. */
  ghost function CreateLease(
    s: State, now: int, product: Product, key: string, userId: string, deviceId: string, raw: LeaseInput,
    order: seq<string>, secretFound: bool): (State, Reply)
  {
    var input := LeaseDefaults(raw);
    if !ValidKey(key) then (s, Failed(IdempotencyKeyRequired))
    else if !ValidLeaseInput(input) then (s, Failed(InvalidRequest))
    else
      match Gate(s, userId, deviceId, product)
      case Some(error) => (s, Failed(error))
      case None =>
        var t := s.(pool := SweptPool(s.pool, now, Some(product)));
        match Lookup(s.ledger, CreateLeaseScope(userId, deviceId, key, product),
            LeasePrint(userId, deviceId, product, input))
        case Reject(error) => (t, Failed(error))
        case Repeat(id) => (t, if id in t.pool.leases then LeaseReply(id, t.pool.leases[id])
          else Failed(ModelLeaseNotFound))
        case Proceed =>
          match PolicyRefusal(t, now, product, userId, input)
          case Some(error) => (t, Failed(error))
          case None => Allocate(t, now, product, key, userId, deviceId, input, order, secretFound)
  }

  ghost function Allocate(
    t: State, now: int, product: Product, key: string, userId: string, deviceId: string, input: LeaseInput,
    order: seq<string>, secretFound: bool): (State, Reply)
  {
    var pool := t.pool.(accounts := RefreshedAccounts(t.pool, order, now));
    SelectedIsBest(pool, product, input.provider, input.model, now);
    match SelectAccount(pool, product, input.provider, input.model, now)
    case None => (t.(pool := pool), Failed(ModelPoolUnavailable))
    case Some(accountId) =>
      if !secretFound then (t.(pool := pool), Failed(ModelPoolUnavailable))
      else
        var id := NextId(t.ledger, "lease");
        var lease := NewLease(pool.accounts[accountId], accountId, now, product, userId, deviceId, input);
        (t.(pool := pool.(leases := pool.leases[id := lease]),
            ledger := Remember(Bumped(t.ledger, "lease"), CreateLeaseScope(userId, deviceId, key, product),
                               LeasePrint(userId, deviceId, product, input), id)),
         LeaseReply(id, lease))
  }

  // --- renewing and ending -------------------------------------------------------------------------------

  function ExtensionOf(raw: int): int { if raw == 0 then 300 else raw }

  /** The lease must exist and be this user's, on this device, for this product. */
  function LeaseRefusal(
    pool: Pool, leaseId: string, userId: string, deviceId: string, product: Product): Option<Error> {
    if leaseId !in pool.leases then Some(ModelLeaseNotFound)
    else if pool.leases[leaseId].userId != userId || pool.leases[leaseId].deviceId != deviceId then Some(Forbidden)
    else if pool.leases[leaseId].product != product then Some(Forbidden)
    else None
  }

  function RenewRefusal(pool: Pool, leaseId: string): Option<Error>
    requires leaseId in pool.leases
  {
    var lease := pool.leases[leaseId];
    if lease.status != LeaseActive then Some(ModelLeaseStateConflict)
    else if lease.accountId !in pool.accounts || pool.accounts[lease.accountId].status != AccountActive
        then Some(ModelPoolUnavailable)
    else None
  }

  function RenewLease(
    s: State, now: int, product: Product, key: string, userId: string, deviceId: string, leaseId: string,
    rawExtend: int): (State, Reply)
  {
    var extend := ExtensionOf(rawExtend);
    if !ValidKey(key) then (s, Failed(IdempotencyKeyRequired))
    else if !(30 <= extend <= 3600) then (s, Failed(InvalidRequest))
    else
      match Gate(s, userId, deviceId, product)
      case Some(error) => (s, Failed(error))
      case None =>
        var pool := SweptPool(s.pool, now, Some(product));
        match LeaseRefusal(pool, leaseId, userId, deviceId, product)
        case Some(error) => (s.(pool := pool), Failed(error))
        case None =>
          var scope, digest := RenewScope(leaseId, key, product),
              RenewPrint(userId, deviceId, product, leaseId, extend);
          match Lookup(s.ledger, scope, digest)
          case Reject(error) => (s.(pool := pool), Failed(error))
          case Repeat(_) => (s.(pool := pool), LeaseReply(leaseId, pool.leases[leaseId]))
          case Proceed =>
            match RenewRefusal(pool, leaseId)
            case Some(error) => (s.(pool := pool), Failed(error))
            case None =>
              var lease := pool.leases[leaseId].(expiresAt := pool.leases[leaseId].expiresAt + extend);
              (s.(pool := pool.(leases := pool.leases[leaseId := lease]),
                  ledger := Remember(s.ledger, scope, digest, leaseId)),
               LeaseReply(leaseId, lease))
  }

  function Closed(leases: map<string, Lease>, leaseId: string, now: int): map<string, Lease> {
    if leaseId in leases && leases[leaseId].status == LeaseActive
    then leases[leaseId := ReleasedAt(leases[leaseId], now)] else leases
  }

  function ReleaseLease(
    s: State, now: int, product: Product, key: string, userId: string, deviceId: string, leaseId: string,
    rawReason: string): (State, Reply)
  {
    var reason := Trim(rawReason);
    if !ValidKey(key) then (s, Failed(IdempotencyKeyRequired))
    else if |reason| > 255 then (s, Failed(InvalidRequest))
    else
      match Gate(s, userId, deviceId, product)
      case Some(error) => (s, Failed(error))
      case None =>
        var pool := SweptPool(s.pool, now, Some(product));
        match LeaseRefusal(pool, leaseId, userId, deviceId, product)
        case Some(error) => (s.(pool := pool), Failed(error))
        case None =>
          var scope, digest := ReleaseScope(leaseId, key, product),
              ReleasePrint(userId, deviceId, product, leaseId, reason);
          match Lookup(s.ledger, scope, digest)
          case Reject(error) => (s.(pool := pool), Failed(error))
          case Repeat(_) => (s.(pool := pool), ReleasedReply(leaseId))
          case Proceed =>
            (s.(pool := pool.(leases := Closed(pool.leases, leaseId, now)),
                ledger := Remember(s.ledger, scope, digest, leaseId)),
             ReleasedReply(leaseId))
  }

  function Reclaimed(leases: map<string, Lease>, leaseId: string, now: int): map<string, Lease>
    requires leaseId in leases
  {
    var swept := Sweep(leases, now, None);
    if leases[leaseId].status == LeaseActive then swept[leaseId := ReleasedAt(leases[leaseId], now)] else swept
  }

  /**
   * The administrator's release reads the lease before the sweep: a lease that was active until this very sweep
   * expired it ends up released rather than expired.
   */
  function ReclaimLease(
    s: State, now: int, product: Product, key: string, leaseId: string, rawReason: string): (State, Reply) {
    var reason := Trim(rawReason);
    if !ValidKey(key) then (s, Failed(IdempotencyKeyRequired))
    else if leaseId == "" || |reason| > 255 then (s, Failed(InvalidRequest))
    else if leaseId !in s.pool.leases then (s, Failed(ModelLeaseNotFound))
    else if s.pool.leases[leaseId].product != product then (s, Failed(Forbidden))
    else
      var pool := SweptPool(s.pool, now, None);
      var scope, digest := ReclaimScope(leaseId, key, product), ReclaimPrint(leaseId, product, reason);
      match Lookup(s.ledger, scope, digest)
      case Reject(error) => (s.(pool := pool), Failed(error))
      case Repeat(_) => (s.(pool := pool), ReleasedReply(leaseId))
      case Proceed =>
        (s.(pool := pool.(leases := Reclaimed(s.pool.leases, leaseId, now)),
            ledger := Remember(s.ledger, scope, digest, leaseId)), ReleasedReply(leaseId))
  }

  // --- recording a call ----------------------------------------------------------------------------------

  predicate ValidCall(input: CallInput) {
    && ValidId(input.clientCallId) && ValidId(input.leaseId)
    && 1 <= |input.provider| <= 64 && 1 <= |input.model| <= 128
    && 0 <= input.inputTokens && 0 <= input.outputTokens && 0 <= input.totalTokens && 0 <= input.latencyMs
    && |input.errorCode| <= 128
  }

  function WithTotal(input: CallInput): CallInput {
    if input.totalTokens == 0 then input.(totalTokens := input.inputTokens + input.outputTokens) else input
  }

  function CallOf(input: CallInput): Call
    requires 0 <= input.inputTokens && 0 <= input.outputTokens && 0 <= input.totalTokens && 0 <= input.latencyMs
  {
    Call(input.provider, input.model, input.inputTokens, input.outputTokens, input.totalTokens, input.latencyMs,
         input.status, input.errorCode)
  }

  function UsageRefusal(s: State, product: Product, userId: string, deviceId: string, input: CallInput): Option<Error> {
    var missing := OwnedDevice(s.grants, userId, deviceId, product);
    if missing.Some? then missing
    else if s.grants.devices[deviceId].product != product then Some(Forbidden)
    else
      var refusal := LeaseRefusal(s.pool, input.leaseId, userId, deviceId, product);
      if refusal.Some? then refusal
      else if s.pool.leases[input.leaseId].provider != input.provider
          || s.pool.leases[input.leaseId].model != input.model
      then Some(InvalidRequest)
      else None
  }

  predicate SameCall(u: Usage, leaseId: string, clientCallId: string) {
    u.leaseId == leaseId && u.clientCallId == clientCallId
  }

  ghost predicate Recorded(usage: map<string, Usage>, leaseId: string, clientCallId: string) {
    exists id :: id in usage && SameCall(usage[id], leaseId, clientCallId)
  }

  ghost predicate OverQuota(s: State, now: int, product: Product, userId: string) {
    && userId in s.people.policies && s.people.policies[userId].dailyTokenLimit > 0
    && UserDayTotal(s.pool.usage, s.pool.leases, userId, Day(now), product) >= s.people.policies[userId].dailyTokenLimit
  }

  /** The accounts after a call: the lease's account is marked exhausted once its day total reaches its limit. */
  ghost function Charged(pool: Pool, accountId: string, now: int, product: Product): map<string, Account> {
    if accountId in pool.accounts
       && OverLimit(pool.accounts[accountId],
           AccountDayTotal(pool.usage, pool.leases, accountId, Day(now), Some(product)))
    then pool.accounts[accountId := pool.accounts[accountId].(status := Exhausted)] else pool.accounts
  }

  ghost function RecordUsage(
    s: State, now: int, product: Product, key: string, userId: string, deviceId: string, requestId: string,
    raw: CallInput): (State, Reply)
  {
    if !ValidKey(key) then (s, Failed(IdempotencyKeyRequired))
    else if !ValidCall(raw) then (s, Failed(InvalidRequest))
    else
      var input := WithTotal(raw);
      if input.totalTokens < input.inputTokens + input.outputTokens then (s, Failed(InvalidRequest))
      else
        match UsageRefusal(s, product, userId, deviceId, input)
        case Some(error) => (s, Failed(error))
        case None => Charge(s, now, product, key, userId, deviceId, requestId, input)
  }

  ghost function Charge(
    s: State, now: int, product: Product, key: string, userId: string, deviceId: string, requestId: string,
    input: CallInput): (State, Reply)
    requires ValidCall(input) && input.leaseId in s.pool.leases
  {
    var scope, digest := UsageScope(userId, deviceId, key, product), UsagePrint(userId, deviceId, product, input);
    match Lookup(s.ledger, scope, digest)
    case Reject(error) => (s, Failed(error))
    case Repeat(id) => (s, if id in s.pool.usage then UsageReply(s.pool.usage[id]) else Failed(ModelLeaseNotFound))
    case Proceed =>
      if Recorded(s.pool.usage, input.leaseId, input.clientCallId) then
        var id :| id in s.pool.usage && SameCall(s.pool.usage[id], input.leaseId, input.clientCallId);
        if s.pool.usage[id].call != CallOf(input) then (s, Failed(IdempotencyConflict))
        else (s.(ledger := Remember(s.ledger, scope, digest, id)), UsageReply(s.pool.usage[id]))
      else if OverQuota(s, now, product, userId) then (s, Failed(UserRecordedQuotaExceeded))
      else
        var id := NextId(s.ledger, "usage");
        var u := Usage(product, input.leaseId, input.clientCallId, Trim(requestId), CallOf(input), now);
        var pool := s.pool.(usage := s.pool.usage[id := u]);
        (s.(pool := pool.(accounts := Charged(pool, s.pool.leases[input.leaseId].accountId, now, product)),
            ledger := Remember(Bumped(s.ledger, "usage"), scope, digest, id)),
         UsageReply(u))
  }
}
