/** What one delivery of a request leaves behind: when it fails, when it repeats an earlier one, and when it is new. */
module Delivery {
  import opened Collections
  import opened Tables
  import opened LeaseTable
  import opened Activation
  import opened ModelPool
  import opened Leasing

  /** Leases that ended did so because their time was up. */
  ghost predicate OnlyExpires(before: map<string, Lease>, after: map<string, Lease>, now: int) {
    && before.Keys == after.Keys
    && forall id :: id in before && after[id] != before[id] ==>
        before[id].expiresAt <= now && after[id] == Swept(before[id], now, None)
  }

  /** Accounts keep everything an administrator stored; the derived status may move, but not in or out of `disabled`. */
  predicate OnlyStatus(before: Account, after: Account) {
    && after == before.(status := after.status, cooldownUntil := after.cooldownUntil)
    && (after.status == AccountDisabled <==> before.status == AccountDisabled)
  }

  ghost predicate OnlyStatuses(before: map<string, Account>, after: map<string, Account>) {
    && before.Keys == after.Keys
    && forall id :: id in before ==> OnlyStatus(before[id], after[id])
  }

  ghost predicate OnlyCounts(before: Ledger, after: Ledger) {
    && after.records == before.records
    && (after.sequences == before.sequences || exists prefix :: after.sequences == Bumped(before, prefix).sequences)
  }

  /** All that a failed request can leave behind, although nothing is rolled back. */
  ghost predicate Untouched(s: State, t: State, now: int) {
    && t.people == s.people
    && t.grants == s.grants
    && t.pool.usage == s.pool.usage && t.pool.tests == s.pool.tests
    && OnlyExpires(s.pool.leases, t.pool.leases, now)
    && OnlyStatuses(s.pool.accounts, t.pool.accounts)
    && OnlyCounts(s.ledger, t.ledger)
  }

  /** All that a repeated request can leave behind; a record that had no date yet may get one. */
  ghost predicate Repeated(s: State, t: State) {
    && t == s.(pool := s.pool.(leases := t.pool.leases), ledger := s.ledger.(recordedAt := t.ledger.recordedAt))
    && OnlyEnds(s.pool.leases, t.pool.leases)
  }

  /**
   * A request either fails, or is answered from the ledger, or enters the ledger under its own scope and fingerprint.
   */
  ghost predicate Accounted(s: State, t: State, now: int, scope: Scope, digest: Fingerprint, reply: Reply) {
    if reply.Failed? then Untouched(s, t, now)
    else if scope in s.ledger.records then s.ledger.records[scope].fingerprint == digest && Repeated(s, t)
    else
      && scope in t.ledger.records
      && t.ledger.records == s.ledger.records[scope := IdempotencyRecord(digest, t.ledger.records[scope].resourceId)]
  }

  // --- building blocks -------------------------------------------------------------------------------------

  lemma NothingTouched(s: State, now: int)
    ensures Untouched(s, s, now) && Repeated(s, s)
  {
  }

  lemma SweepTouches(s: State, now: int, product: Option<Product>)
    ensures var t := s.(pool := SweptPool(s.pool, now, product)); Untouched(s, t, now) && Repeated(s, t)
  {
    SweepOnlyEnds(s.pool.leases, now, product);
  }

  lemma DrawTouches(s: State, now: int, prefix: string)
    ensures Untouched(s, s.(ledger := Bumped(s.ledger, prefix)), now)
  {
  }

  lemma FreeingRepeats(s: State, now: int, deviceId: string, product: Product)
    ensures Repeated(s, s.(pool := Freed(s.pool, deviceId, now, product)))
  {
    ReleaseOnlyEnds(s.pool.leases, deviceId, now, product);
  }

  lemma RefreshTouches(s: State, now: int, product: Option<Product>, order: seq<string>)
    ensures var swept := SweptPool(s.pool, now, product);
            Untouched(s, s.(pool := swept.(accounts := RefreshedAccounts(swept, order, now))), now)
  {
    hide AccountDayTotal, LatestAlong;
    SweepTouches(s, now, product);
  }

  // --- the activation commands -----------------------------------------------------------------------------

  lemma CreateCodeAccounted(
    s: State, now: int, product: Product, strict: bool, key: string, input: CodeInput, token: Option<string>)
    ensures var (t, reply) := CreateCode(s, now, product, strict, key, input, token);
            Accounted(s, t, now, CreateCodeScope(key, StrictScope(strict, product)), CodePrint(product, input), reply)
  {
    hide Untouched, Repeated, HasProduct, ValidKey, Counter;
    NothingTouched(s, now);
    DrawTouches(s, now, "ac");
  }

  lemma RevokeAccounted(s: State, now: int, product: Product, strict: bool, key: string, codeId: string)
    ensures var (t, reply) := RevokeCode(s, product, strict, key, codeId);
            Accounted(s, t, now, RevokeCodeScope(key, StrictScope(strict, product)), RevokePrint(codeId, product),
                reply)
  {
    hide Untouched, Repeated, ValidKey;
    NothingTouched(s, now);
  }

  lemma ActivateAccounted(s: State, now: int, key: string, userId: string, input: ActivateInput)
    ensures var (t, reply) := Activate(s, now, key, userId, input);
            Accounted(s, t, now, ActivateScope(userId, key), ActivatePrint(userId, input), reply)
  {
    hide Untouched, Repeated, HasProduct, ValidKey, ValidActivation, Covered, BindTo, SelectCode, Refusal;
    NothingTouched(s, now);
    ChoiceIsEarliest(s.grants.codes, userId, input.product, now);
  }

  lemma DisableDeviceAccounted(s: State, now: int, product: Product, key: string, deviceId: string)
    ensures var (t, reply) := DisableDevice(s, now, product, key, deviceId);
            Accounted(s, t, now, DisableDeviceScope(deviceId, key, product), DevicePrint(deviceId, product), reply)
  {
    hide Untouched, Repeated, ValidKey, Freed;
    NothingTouched(s, now);
    FreeingRepeats(s, now, deviceId, product);
  }

  lemma UnbindAccounted(s: State, now: int, product: Product, key: string, deviceId: string)
    ensures var (t, reply) := UnbindDevice(s, now, product, key, deviceId);
            Accounted(s, t, now, UnbindScope(deviceId, key, product), DevicePrint(deviceId, product), reply)
  {
    hide Untouched, Repeated, ValidKey, Freed, Detached;
    NothingTouched(s, now);
    FreeingRepeats(s, now, deviceId, product);
  }

  // --- the account commands --------------------------------------------------------------------------------

  lemma CreateAccountAccounted(
    s: State, now: int, product: Product, key: string, input: AccountInput, urlAccepted: bool, stored: bool)
    ensures var (t, reply) := CreateAccount(s, product, key, input, urlAccepted, stored);
            Accounted(s, t, now, CreateAccountScope(key), AccountPrint(product, input), reply)
  {
    hide Untouched, Repeated, ValidKey, Counter;
    NothingTouched(s, now);
    DrawTouches(s, now, "mpa");
  }

  lemma UpdateAccountAccounted(
    s: State, now: int, product: Product, key: string, accountId: string, edit: AccountEdit, urlAccepted: bool)
    ensures var (t, reply) := UpdateAccount(s, now, product, key, accountId, edit, urlAccepted);
            Accounted(s, t, now, UpdateAccountScope(key), EditPrint(accountId, product, edit), reply)
  {
    hide Untouched, Repeated, ValidKey, EditRefusal, Edited, Sweep;
    NothingTouched(s, now);
    SweepTouches(s, now, Some(product));
  }

  lemma DisableAccountAccounted(s: State, now: int, product: Product, key: string, accountId: string)
    ensures var (t, reply) := DisableAccount(s, now, product, key, accountId);
            Accounted(s, t, now, DisableAccountScope(key), DisableAccountPrint(accountId, product), reply)
  {
    hide Untouched, Repeated, ValidKey, Sweep, ActiveCount;
    NothingTouched(s, now);
    SweepTouches(s, now, Some(product));
  }

  lemma RecordTestAccounted(
    s: State, now: int, product: Product, key: string, accountId: string, timeoutSeconds: int, result: TestResult)
    ensures var (t, reply) := RecordTest(s, product, key, accountId, timeoutSeconds, result);
            Accounted(s, t, now, TestScope(accountId, key), TestPrint(accountId, product, timeoutSeconds), reply)
  {
    hide Untouched, Repeated, NextId, Counter;
    NothingTouched(s, now);
  }

  // --- the lease commands ----------------------------------------------------------------------------------

  lemma CreateLeaseAccounted(
    s: State, now: int, product: Product, key: string, userId: string, deviceId: string, raw: LeaseInput,
    order: seq<string>, secretFound: bool)
    ensures var (t, reply) := CreateLease(s, now, product, key, userId, deviceId, raw, order, secretFound);
            Accounted(s, t, now, CreateLeaseScope(userId, deviceId, key, product),
                LeasePrint(userId, deviceId, product, LeaseDefaults(raw)), reply)
  {
    hide Untouched, Repeated, ValidKey, ValidLeaseInput, Gate, PolicyRefusal, Sweep, RefreshedAccounts,
        SelectAccount, NextId, NewLease, Counter;
    NothingTouched(s, now);
    SweepTouches(s, now, Some(product));
    RefreshTouches(s, now, Some(product), order);
  }

  lemma RenewAccounted(
    s: State, now: int, product: Product, key: string, userId: string, deviceId: string, leaseId: string,
    rawExtend: int)
    ensures var (t, reply) := RenewLease(s, now, product, key, userId, deviceId, leaseId, rawExtend);
            Accounted(s, t, now, RenewScope(leaseId, key, product),
                RenewPrint(userId, deviceId, product, leaseId, ExtensionOf(rawExtend)), reply)
  {
    hide Untouched, Repeated, ValidKey, Gate, Sweep, LeaseRefusal, RenewRefusal;
    NothingTouched(s, now);
    SweepTouches(s, now, Some(product));
  }

  lemma ReleaseAccounted(
    s: State, now: int, product: Product, key: string, userId: string, deviceId: string, leaseId: string,
    rawReason: string)
    ensures var (t, reply) := ReleaseLease(s, now, product, key, userId, deviceId, leaseId, rawReason);
            Accounted(s, t, now, ReleaseScope(leaseId, key, product),
                ReleasePrint(userId, deviceId, product, leaseId, Trim(rawReason)), reply)
  {
    hide Untouched, Repeated, ValidKey, Gate, Sweep, LeaseRefusal, Closed, Trim;
    NothingTouched(s, now);
    SweepTouches(s, now, Some(product));
  }

  lemma ReclaimAccounted(s: State, now: int, product: Product, key: string, leaseId: string, rawReason: string)
    ensures var (t, reply) := ReclaimLease(s, now, product, key, leaseId, rawReason);
            Accounted(s, t, now, ReclaimScope(leaseId, key, product),
                ReclaimPrint(leaseId, product, Trim(rawReason)), reply)
  {
    hide Untouched, Repeated, ValidKey, Sweep, Reclaimed, Trim;
    NothingTouched(s, now);
    SweepTouches(s, now, None);
  }

  lemma RecordUsageAccounted(
    s: State, now: int, product: Product, key: string, userId: string, deviceId: string, requestId: string,
    raw: CallInput)
    ensures var (t, reply) := RecordUsage(s, now, product, key, userId, deviceId, requestId, raw);
            Accounted(s, t, now, UsageScope(userId, deviceId, key, product),
                UsagePrint(userId, deviceId, product, WithTotal(raw)), reply)
  {
    hide Untouched, Repeated, ValidKey, UsageRefusal, Recorded, OverQuota, Charged, Trim, NextId, Counter;
    NothingTouched(s, now);
    var input := WithTotal(raw);
    if ValidCall(raw) && UsageRefusal(s, product, userId, deviceId, input).None? {
      RefusedUsage(s, product, userId, deviceId, input);
      ChargeAccounted(s, now, product, key, userId, deviceId, requestId, input);
    }
  }

  lemma RefusedUsage(s: State, product: Product, userId: string, deviceId: string, input: CallInput)
    requires UsageRefusal(s, product, userId, deviceId, input).None?
    ensures input.leaseId in s.pool.leases
  {
  }

  lemma ChargeAccounted(
    s: State, now: int, product: Product, key: string, userId: string, deviceId: string, requestId: string,
    input: CallInput)
    requires ValidCall(input) && input.leaseId in s.pool.leases
    ensures var (t, reply) := Charge(s, now, product, key, userId, deviceId, requestId, input);
            Accounted(s, t, now, UsageScope(userId, deviceId, key, product),
                UsagePrint(userId, deviceId, product, input), reply)
  {
    hide Untouched, Repeated, OverQuota, Charged, Trim, NextId, Counter;
    NothingTouched(s, now);
  }
}
