/**
 * The control plane's shared tables. Times are whole seconds; identifiers, references and idempotency keys are
 * text. A fingerprint stands for the request it digests, and an idempotency scope for the parts it is built from.
 */
module Tables {
  import opened Collections
  import Decimal

  datatype Product = AutoLive | DouyinDesktop

  datatype UserStatus = UserActive | UserDisabled
  datatype User = User(status: UserStatus)
  datatype Membership = Membership(userId: string, product: Product, active: bool)
  datatype Policy = Policy(allowedModels: seq<string>, dailyTokenLimit: nat)

  datatype DeviceStatus = PendingActivation | DeviceActive | DeviceDisabled
  datatype Profile = Profile(name: string, platform: string, appVersion: string)
  datatype Device = Device(
    owner: Option<string>, product: Product, profile: Profile, status: DeviceStatus,
    lastSeenAt: int, activationExpiresAt: int)

  datatype CodeStatus = CodeActive | CodeUsed | CodeExpired | CodeRevoked
  datatype FirstUse = FirstUse(userId: string, deviceId: string, at: int)
  datatype Code = Code(
    userId: string, product: Product, status: CodeStatus, expiresAt: int,
    maxDevices: nat, boundDevices: nat, plain: Option<string>, firstUse: Option<FirstUse>)

  datatype AccountStatus = AccountActive | Cooldown | Exhausted | AccountDisabled
  datatype Account = Account(
    product: Product, provider: string, model: string, baseUrl: string, status: AccountStatus, priority: int,
    dailyLimit: nat, concurrencyLimit: nat, secretRef: string, cooldownUntil: Option<int>)

  datatype LeaseStatus = LeaseActive | LeaseReleased | LeaseExpired
  datatype Purpose = RealtimeScript | Chat | Validation
  datatype Lease = Lease(
    product: Product, userId: string, deviceId: string, accountId: string, purpose: Purpose, provider: string,
    model: string, status: LeaseStatus, createdAt: int, expiresAt: int, releasedAt: Option<int>,
    baseUrl: string, concurrencyLimit: nat)

  datatype CallStatus = CallSucceeded | CallFailed | CallTimeout | CallCancelled | CallUnknown
  datatype Call = Call(
    provider: string, model: string, inputTokens: nat, outputTokens: nat, totalTokens: nat, latencyMs: nat,
    status: CallStatus, errorCode: string)
  datatype Usage = Usage(
    product: Product, leaseId: string, clientCallId: string, requestId: string, call: Call, createdAt: int)

  datatype ProbeStatus = ProbeSucceeded | ProbeFailed | ProbeTimeout
  datatype TestResult = TestResult(accountId: string, status: ProbeStatus, testedAt: int)

  datatype ActivateInput = ActivateInput(deviceId: string, product: Product, profile: Profile, osVersion: string)
  datatype CodeInput = CodeInput(userId: string, expiresAt: int, maxDevices: int)
  datatype AccountInput = AccountInput(
    provider: string, model: string, baseUrl: string, apiKey: string, status: AccountStatus, priority: int,
    dailyLimit: int, concurrencyLimit: int)
  datatype AccountEdit = AccountEdit(
    baseUrl: Option<string>, priority: Option<int>, dailyLimit: Option<int>, concurrencyLimit: Option<int>,
    status: Option<AccountStatus>)
  datatype LeaseInput = LeaseInput(provider: string, model: string, purpose: Purpose, maxDurationSeconds: int)
  datatype CallInput = CallInput(
    leaseId: string, clientCallId: string, provider: string, model: string, inputTokens: int, outputTokens: int,
    totalTokens: int, latencyMs: int, status: CallStatus, errorCode: string)

  datatype Scope =
    | ActivateScope(userId: string, key: string)
    | DisableDeviceScope(deviceId: string, key: string, product: Product)
    | UnbindScope(deviceId: string, key: string, product: Product)
    | CreateCodeScope(key: string, strict: Option<Product>)
    | RevokeCodeScope(key: string, strict: Option<Product>)
    | CreateAccountScope(key: string)
    | UpdateAccountScope(key: string)
    | DisableAccountScope(key: string)
    | TestScope(accountId: string, key: string)
    | CreateLeaseScope(userId: string, deviceId: string, key: string, product: Product)
    | RenewScope(leaseId: string, key: string, product: Product)
    | ReleaseScope(leaseId: string, key: string, product: Product)
    | ReclaimScope(leaseId: string, key: string, product: Product)
    | UsageScope(userId: string, deviceId: string, key: string, product: Product)

  datatype Fingerprint =
    | ActivatePrint(userId: string, activation: ActivateInput)
    | DevicePrint(deviceId: string, product: Product)
    | CodePrint(product: Product, code: CodeInput)
    | RevokePrint(codeId: string, product: Product)
    | AccountPrint(product: Product, account: AccountInput)
    | EditPrint(accountId: string, product: Product, edit: AccountEdit)
    | DisableAccountPrint(accountId: string, product: Product)
    | TestPrint(accountId: string, product: Product, timeoutSeconds: int)
    | LeasePrint(userId: string, deviceId: string, product: Product, lease: LeaseInput)
    | RenewPrint(userId: string, deviceId: string, product: Product, leaseId: string, extendSeconds: int)
    | ReleasePrint(userId: string, deviceId: string, product: Product, leaseId: string, reason: string)
    | ReclaimPrint(leaseId: string, product: Product, reason: string)
    | UsagePrint(userId: string, deviceId: string, product: Product, usage: CallInput)

  datatype IdempotencyRecord = IdempotencyRecord(fingerprint: Fingerprint, resourceId: string)

  /** The tables, in the four groups that commands read and write together. */
  datatype People = People(
    users: map<string, User>, memberships: map<string, Membership>, policies: map<string, Policy>)
  datatype Grants = Grants(
    devices: map<string, Device>, codes: map<string, Code>, bindings: map<string, string>)
  datatype Pool = Pool(
    accounts: map<string, Account>, leases: map<string, Lease>, usage: map<string, Usage>, tests: map<string,
    TestResult>)
  /** `recordedAt` says since when a request has been remembered. */
  datatype Ledger = Ledger(
    records: map<Scope, IdempotencyRecord>, sequences: map<string, nat>, recordedAt: map<Scope, int>)

  datatype State = State(people: People, grants: Grants, pool: Pool, ledger: Ledger)

  datatype Error =
    | InvalidRequest | IdempotencyKeyRequired | IdempotencyConflict | Forbidden
    | UserNotFound | UserIsDisabled | UserModelNotAuthorized | UserRecordedQuotaExceeded
    | DeviceNotFound | DeviceIsDisabled | DeviceBindingConflict | DeviceBindingRequired | DeviceLimitExceeded
    | AccountActivationRequired | AccountActivationExpired
    | ActivationCodeNotFound | ActivationCodeStateConflict | RandomGenerationFailed
    | ModelPoolAccountNotFound | ModelPoolAccountInUse | ModelPoolConcurrencyConflict | ModelPoolUnavailable
    | ModelLeaseNotFound | ModelLeaseStateConflict | SecretStoreUnavailable

  datatype Reply =
    | DeviceReply(device: Device)
    | CodeReply(code: Code)
    | AccountReply(account: Account)
    | LeaseReply(leaseId: string, lease: Lease)
    | ReleasedReply(releasedId: string)
    | UsageReply(usage: Usage)
    | TestReply(result: TestResult)
    | Done
    | Failed(error: Error)

  // --- idempotency -----------------------------------------------------------------------------------------

  /** What a command decides before it writes: refuse, answer a repeated request, or go ahead. */
  datatype Verdict = Reject(error: Error) | Repeat(resourceId: string) | Proceed

  function Lookup(ledger: Ledger, scope: Scope, fingerprint: Fingerprint): Verdict {
    if scope !in ledger.records then Proceed
    else if ledger.records[scope].fingerprint != fingerprint then Reject(IdempotencyConflict)
    else Repeat(ledger.records[scope].resourceId)
  }

  function Remember(ledger: Ledger, scope: Scope, fingerprint: Fingerprint, resourceId: string): Ledger {
    ledger.(records := ledger.records[scope := IdempotencyRecord(fingerprint, resourceId)])
  }

  /** What every transaction ends with: new records are dated, and dates of records that are gone are dropped. */
  function Synced(ledger: Ledger, now: int): Ledger {
    ledger.(recordedAt := map scope | scope in ledger.records ::
      if scope in ledger.recordedAt then ledger.recordedAt[scope] else now)
  }

  /** The records of requests that a retention pass may drop. */
  function OldRecords(ledger: Ledger, cutoff: int): set<Scope> {
    set scope | scope in ledger.records && scope in ledger.recordedAt && ledger.recordedAt[scope] < cutoff
  }

  /** White space as Unicode defines it. */
  predicate IsSpace(c: char) {
    var n := c as int;
    || 9 <= n <= 13 || n == 0x20 || n == 0x85 || n == 0xA0 || n == 0x1680 || 0x2000 <= n <= 0x200A
    || n == 0x2028 || n == 0x2029 || n == 0x202F || n == 0x205F || n == 0x3000
  }

  function Trim(s: string): string {
    if s == "" then ""
    else if IsSpace(s[0]) then Trim(s[1..])
    else if IsSpace(s[|s| - 1]) then Trim(s[..|s| - 1])
    else s
  }

  predicate ValidKey(key: string) {
    Trim(key) == key && 8 <= |key| <= 128
  }

  predicate IsAlphanumeric(c: char) {
    'A' <= c <= 'Z' || 'a' <= c <= 'z' || '0' <= c <= '9'
  }

  /** One alphanumeric character, then seven to 63 of those, underscores or hyphens. */
  predicate ValidId(id: string) {
    && 8 <= |id| <= 64 && IsAlphanumeric(id[0])
    && forall i :: 0 <= i < |id| ==> IsAlphanumeric(id[i]) || id[i] == '_' || id[i] == '-'
  }

  // --- identifiers -----------------------------------------------------------------------------------------

  function Counter(ledger: Ledger, prefix: string): nat {
    if prefix in ledger.sequences then ledger.sequences[prefix] else 0
  }

  function Identifier(prefix: string, n: nat): string {
    prefix + "_" + Decimal.Padded(n, 8)
  }

  function NextId(ledger: Ledger, prefix: string): string {
    Identifier(prefix, Counter(ledger, prefix) + 1)
  }

  function Bumped(ledger: Ledger, prefix: string): Ledger {
    ledger.(sequences := ledger.sequences[prefix := Counter(ledger, prefix) + 1])
  }

  /** Every identifier in the table came from one of the first `upto` draws of the prefix's counter. */
  ghost predicate Issued(ids: set<string>, prefix: string, upto: nat) {
    forall id :: id in ids ==> DrawnBy(id, prefix, upto)
  }

  ghost predicate DrawnBy(id: string, prefix: string, upto: nat) {
    exists n: nat :: 1 <= n <= upto && id == Identifier(prefix, n)
  }

  lemma IdentifierInjective(prefix: string, a: nat, b: nat)
    requires Identifier(prefix, a) == Identifier(prefix, b)
    ensures a == b
  {
    assert Identifier(prefix, a)[|prefix| + 1..] == Decimal.Padded(a, 8);
    assert Identifier(prefix, b)[|prefix| + 1..] == Decimal.Padded(b, 8);
    Decimal.PaddedValue(a, 8);
    Decimal.PaddedValue(b, 8);
  }

  /** The next identifier is never one the table already holds. */
  lemma NextIdFresh(ids: set<string>, prefix: string, upto: nat)
    requires Issued(ids, prefix, upto)
    ensures Identifier(prefix, upto + 1) !in ids
  {
    var next := Identifier(prefix, upto + 1);
    if next in ids {
      assert DrawnBy(next, prefix, upto);
      var n: nat :| 1 <= n <= upto && next == Identifier(prefix, n);
      IdentifierInjective(prefix, n, upto + 1);
    }
  }

  lemma IssuedGrows(ids: set<string>, prefix: string, upto: nat)
    requires Issued(ids, prefix, upto)
    ensures Issued(ids, prefix, upto + 1)
    ensures Issued(ids + {Identifier(prefix, upto + 1)}, prefix, upto + 1)
  {
    forall id | id in ids ensures DrawnBy(id, prefix, upto + 1) {
      assert DrawnBy(id, prefix, upto);
    }
    assert DrawnBy(Identifier(prefix, upto + 1), prefix, upto + 1);
  }

  lemma IssuedFewer(ids: set<string>, fewer: set<string>, prefix: string, upto: nat)
    requires Issued(ids, prefix, upto) && fewer <= ids
    ensures Issued(fewer, prefix, upto)
  {
  }

  // --- counting --------------------------------------------------------------------------------------------

  ghost function BoundTo(codeId: string): (string, string) -> nat {
    (deviceId: string, boundCode: string) => if boundCode == codeId then 1 else 0
  }

  /** How many devices the binding table gives to a code. */
  ghost function BoundCount(bindings: map<string, string>, codeId: string): nat {
    Sum(bindings, BoundTo(codeId))
  }

  ghost function ActiveOn(accountId: string): (string, Lease) -> nat {
    (id: string, lease: Lease) => if lease.accountId == accountId && lease.status == LeaseActive then 1 else 0
  }

  ghost function ActiveCount(leases: map<string, Lease>, accountId: string): nat {
    Sum(leases, ActiveOn(accountId))
  }

  function Day(time: int): int { time / 86400 }

  predicate CountsForAccount(
    u: Usage, leases: map<string, Lease>, accountId: string, day: int, product: Option<Product>) {
    && u.leaseId in leases && leases[u.leaseId].accountId == accountId
    && (product.None? || u.product == product.value)
    && Day(u.createdAt) == day
  }

  ghost function AccountTokens(
    leases: map<string, Lease>, accountId: string, day: int, product: Option<Product>): (string, Usage) -> nat {
    (id: string, u: Usage) => if CountsForAccount(u, leases, accountId, day, product) then u.call.totalTokens else 0
  }

  ghost function AccountDayTotal(
    usage: map<string, Usage>, leases: map<string, Lease>, accountId: string, day: int, product: Option<Product>): nat {
    Sum(usage, AccountTokens(leases, accountId, day, product))
  }

  predicate CountsForUser(u: Usage, leases: map<string, Lease>, userId: string, day: int, product: Product) {
    && u.leaseId in leases && leases[u.leaseId].userId == userId
    && (u.product == product || leases[u.leaseId].product == product)
    && Day(u.createdAt) == day
  }

  ghost function UserTokens(
    leases: map<string, Lease>, userId: string, day: int, product: Product): (string, Usage) -> nat {
    (id: string, u: Usage) => if CountsForUser(u, leases, userId, day, product) then u.call.totalTokens else 0
  }

  ghost function UserDayTotal(
    usage: map<string, Usage>, leases: map<string, Lease>, userId: string, day: int, product: Product): nat {
    Sum(usage, UserTokens(leases, userId, day, product))
  }

  // --- what the sums count ---------------------------------------------------------------------------------

  lemma BoundCountIsSize(bindings: map<string, string>, codeId: string)
    ensures BoundCount(bindings, codeId) == |set d | d in bindings && bindings[d] == codeId|
  {
    SumCounts(bindings, BoundTo(codeId), set d | d in bindings && bindings[d] == codeId);
  }

  lemma ActiveCountIsSize(leases: map<string, Lease>, accountId: string)
    ensures ActiveCount(leases, accountId)
         == |set id | id in leases && leases[id].accountId == accountId && leases[id].status == LeaseActive|
  {
    SumCounts(leases, ActiveOn(accountId),
        set id | id in leases && leases[id].accountId == accountId && leases[id].status == LeaseActive);
  }

  /** One more record adds its tokens to the totals it belongs to: those of its lease's user and account on its day. */
  lemma TotalsAddUp(
    usage: map<string, Usage>, leases: map<string, Lease>, id: string, u: Usage, who: string, day: int,
    product: Product)
    requires id !in usage && u.leaseId in leases
    ensures var lease, tokens := leases[u.leaseId], u.call.totalTokens;
            var today := day * 86400 <= u.createdAt < day * 86400 + 86400;
            && UserDayTotal(usage[id := u], leases, who, day, product) - UserDayTotal(usage, leases, who, day, product)
               == (if lease.userId == who && today && (u.product == product || lease.product == product)
                   then tokens else 0)
            && AccountDayTotal(usage[id := u], leases, who, day, None) - AccountDayTotal(usage, leases, who, day, None)
               == (if lease.accountId == who && today then tokens else 0)
            && AccountDayTotal(usage[id := u], leases, who, day, Some(product))
               - AccountDayTotal(usage, leases, who, day, Some(product))
               == (if lease.accountId == who && today && u.product == product then tokens else 0)
    ensures UserDayTotal(map[], leases, who, day, product) == 0 && AccountDayTotal(map[], leases, who, day, None) == 0
    ensures AccountDayTotal(map[], leases, who, day, Some(product)) == 0
  {
    SumUpdate(usage, UserTokens(leases, who, day, product), id, u);
    SumUpdate(usage, AccountTokens(leases, who, day, None), id, u);
    SumUpdate(usage, AccountTokens(leases, who, day, Some(product)), id, u);
  }

  /**
   * The n-th identifier drawn is the prefix, an underscore and the number n with as many zeros as make eight digits.
   */
  lemma IdentifiersCountDraws(ledger: Ledger, prefix: string)
    ensures var id := NextId(ledger, prefix);
            var n := if prefix in ledger.sequences then ledger.sequences[prefix] + 1 else 1;
            && |id| >= |prefix| + 9 && id[..|prefix|] == prefix && id[|prefix|] == '_'
            && Decimal.AllDigits(id[|prefix| + 1..]) && Decimal.Value(id[|prefix| + 1..]) == n
            && (n < 100000000 ==> |id| == |prefix| + 9)
  {
    var n := Counter(ledger, prefix) + 1;
    assert NextId(ledger, prefix)[|prefix| + 1..] == Decimal.Padded(n, 8);
    Decimal.PaddedValue(n, 8);
    if n < 100000000 {
      assert Decimal.Ten(2) == 100 && Decimal.Ten(4) == 10000 && Decimal.Ten(6) == 1000000;
      assert Decimal.Ten(8) == 100000000;
      Decimal.PrintLength(n, 8);
    }
  }
}
