/**
 * What becomes of a request about leases and recorded calls: which check turns it away, what it changes, and what it
 * leaves alone, in terms of the tables before and after.
 */
module LeaseOutcomes {
  import opened Collections
  import opened Tables
  import opened LeaseTable
  import opened ModelPool
  import opened Leasing
  import opened LeaseSafety
  import opened ControlPlane
  import opened Requests
  import opened GrantOutcomes
  import opened PoolOutcomes
  import Ordering
  import Quota

  // --- who asks, from which device -------------------------------------------------------------------------

  predicate OwnDevice(s: State, userId: string, deviceId: string) {
    deviceId in s.grants.devices && s.grants.devices[deviceId].owner == Some(userId)
  }

  /** An active user asks from an active device of their own, of the product. */
  function ClientChecks(s: State, userId: string, deviceId: string, product: Product): seq<Check> {
    var own := OwnDevice(s, userId, deviceId);
    [Check(userId !in s.people.users, UserNotFound),
     Check(!ActiveUser(s, userId), UserIsDisabled),
     Check(!NonBlank(deviceId), DeviceBindingRequired),
     Check(!own, DeviceNotFound),
     Check(own && s.grants.devices[deviceId].status != DeviceActive, DeviceIsDisabled),
     Check(own && s.grants.devices[deviceId].product != product, Forbidden)]
  }

  /** The lease is there, and it is this user's, on this device, of this product. */
  function HolderChecks(s: State, leaseId: string, userId: string, deviceId: string, product: Product): seq<Check> {
    var there := leaseId in s.pool.leases;
    var held := there && s.pool.leases[leaseId].userId == userId && s.pool.leases[leaseId].deviceId == deviceId;
    [Check(!there, ModelLeaseNotFound),
     Check(there && !held, Forbidden),
     Check(there && s.pool.leases[leaseId].product != product, Forbidden)]
  }

  // --- creating a lease ------------------------------------------------------------------------------------

  /** The request with blanks removed and the duration it gets if it names none. */
  function Wanted(raw: LeaseInput): LeaseInput {
    raw.(provider := Trim(raw.provider), model := Trim(raw.model),
         maxDurationSeconds := if raw.maxDurationSeconds == 0 then 300 else raw.maxDurationSeconds)
  }

  /** The user's policy allows the model: there is none, or its list is empty, or the list has the model. */
  predicate Authorised(s: State, userId: string, w: LeaseInput) {
    userId in s.people.policies ==>
      s.people.policies[userId].allowedModels == []
      || exists i :: 0 <= i < |s.people.policies[userId].allowedModels|
           && s.people.policies[userId].allowedModels[i] == w.provider + "/" + w.model
  }

  /** The user's policy has a positive limit, and the tokens of the day reach it. */
  ghost predicate AtLimit(s: State, now: int, userId: string, product: Product) {
    && userId in s.people.policies && s.people.policies[userId].dailyTokenLimit > 0
    && s.people.policies[userId].dailyTokenLimit
       <= UserDayTotal(s.pool.usage, s.pool.leases, userId, now / 86400, product)
  }

  /** The account serves the model, is active once its status is brought up to date, and has room for one more lease. */
  ghost predicate CanServe(s: State, now: int, product: Product, w: LeaseInput, order: seq<string>, id: string) {
    && id in s.pool.accounts
    && var a, latest := s.pool.accounts[id], LatestAlong(order, s.pool.tests, id);
      && a.product == product && a.provider == w.provider && a.model == w.model && NonBlank(a.secretRef)
      && (a.status == AccountActive || (a.status == Exhausted && a.dailyLimit > 0)
          || (a.status == Cooldown && CooldownOver(a, latest, now)))
      && !Spent(a, AccountDayTotal(s.pool.usage, s.pool.leases, id, now / 86400, None))
      && |Busy(s, now, product, id)| < a.concurrencyLimit
  }

  ghost function LeaseChecks(s: State, now: int, c: Command): seq<Check>
    requires c.CreateLeaseCommand?
  {
    var w, user := Wanted(c.lease), c.userId;
    var scope := CreateLeaseScope(user, c.deviceId, c.key, c.product);
    var good := 1 <= |w.provider| <= 64 && 1 <= |w.model| <= 128 && 30 <= w.maxDurationSeconds <= 3600;
    var known := Known(s, scope);
    var served := c.secretFound && exists id :: CanServe(s, now, c.product, w, c.order, id);
    [Check(!GoodKey(c.key), IdempotencyKeyRequired),
     Check(!good, InvalidRequest)]
    + ClientChecks(s, user, c.deviceId, c.product)
    + [Check(Clashes(s, scope, LeasePrint(user, c.deviceId, c.product, w)), IdempotencyConflict),
       Check(known && Resource(s, scope) !in s.pool.leases, ModelLeaseNotFound),
       Check(!known && !Authorised(s, user, w), UserModelNotAuthorized),
       Check(!known && AtLimit(s, now, user, c.product), UserRecordedQuotaExceeded),
       Check(!known && !served, ModelPoolUnavailable)]
  }

  lemma SweptTotals(s: State, now: int, who: string, product: Product)
    ensures var swept := Sweep(s.pool.leases, now, Some(product));
            && UserDayTotal(s.pool.usage, swept, who, Day(now), product)
               == UserDayTotal(s.pool.usage, s.pool.leases, who, now / 86400, product)
            && AccountDayTotal(s.pool.usage, swept, who, Day(now), None)
               == AccountDayTotal(s.pool.usage, s.pool.leases, who, now / 86400, None)
  {
    var swept := Sweep(s.pool.leases, now, Some(product));
    SumSame(s.pool.usage, UserTokens(swept, who, Day(now), product),
        s.pool.usage, UserTokens(s.pool.leases, who, Day(now), product));
    SumSame(s.pool.usage, AccountTokens(swept, who, Day(now), None),
        s.pool.usage, AccountTokens(s.pool.leases, who, Day(now), None));
  }

  lemma PolicyAuthorises(s: State, now: int, userId: string, product: Product, raw: LeaseInput)
    ensures var t := s.(pool := SweptPool(s.pool, now, Some(product)));
            PolicyRefusal(t, now, product, userId, Wanted(raw))
            == if !Authorised(s, userId, Wanted(raw)) then Some(UserModelNotAuthorized)
               else if AtLimit(s, now, userId, product) then Some(UserRecordedQuotaExceeded) else None
  {
    SweptTotals(s, now, userId, product);
    hide UserDayTotal, Sweep, Trim;
  }

  /** The pool a lease request chooses from. */
  ghost function Refreshed(s: State, now: int, product: Product, order: seq<string>): Pool {
    var swept := SweptPool(s.pool, now, Some(product));
    swept.(accounts := RefreshedAccounts(swept, order, now))
  }

  lemma ServesWhenRefreshed(s: State, now: int, product: Product, w: LeaseInput, order: seq<string>, id: string)
    ensures var pool := Refreshed(s, now, product, order);
            CanServe(s, now, product, w, order, id) <==>
              Eligible(pool, id, product, w.provider, w.model, now) && HasRoom(pool, id)
  {
    if id in s.pool.accounts {
      var pool, a := Refreshed(s, now, product, order), s.pool.accounts[id];
      SweptTotals(s, now, id, product);
      BusyIsCounted(s, now, product, id);
      TrimIsBlank(a.secretRef);
      RefreshGives(a, AccountDayTotal(s.pool.usage, s.pool.leases, id, now / 86400, None),
          LatestAlong(order, s.pool.tests, id), now);
      hide AccountDayTotal, ActiveCount, Sweep, Trim, LatestAlong, RefreshedAccount, Busy, NonBlank, CooldownOver;
    }
  }

  lemma ChoosesAmongServing(s: State, now: int, product: Product, w: LeaseInput, order: seq<string>)
    ensures var choice := SelectAccount(Refreshed(s, now, product, order), product, w.provider, w.model, now);
            && (choice.Some? <==> exists id :: CanServe(s, now, product, w, order, id))
            && (choice.Some? ==>
                  && CanServe(s, now, product, w, order, choice.value)
                  && forall id :: CanServe(s, now, product, w, order, id) ==>
                       Ordering.AtMost(Ordering.Key(-s.pool.accounts[choice.value].priority, choice.value),
                                       Ordering.Key(-s.pool.accounts[id].priority, id)))
  {
    hide CanServe, Eligible, HasRoom, SelectAccount, Refreshed;
    var pool := Refreshed(s, now, product, order);
    SelectedIsBest(pool, product, w.provider, w.model, now);
    RefreshKeepsPriorities(s, now, product, order);
    forall id
      ensures CanServe(s, now, product, w, order, id) ==> id in s.pool.accounts
      ensures CanServe(s, now, product, w, order, id) <==>
                id in pool.accounts && Eligible(pool, id, product, w.provider, w.model, now) && HasRoom(pool, id)
    {
      ServesWhenRefreshed(s, now, product, w, order, id);
      ServingIsThere(s, now, product, w, order, id);
    }
  }

  lemma ServingIsThere(s: State, now: int, product: Product, w: LeaseInput, order: seq<string>, id: string)
    ensures CanServe(s, now, product, w, order, id) ==> id in s.pool.accounts
  {
  }

  lemma RefreshKeepsPriorities(s: State, now: int, product: Product, order: seq<string>)
    ensures var pool := Refreshed(s, now, product, order);
            && pool.accounts.Keys == s.pool.accounts.Keys
            && forall id :: id in s.pool.accounts ==> pool.accounts[id].priority == s.pool.accounts[id].priority
  {
    hide AccountDayTotal, LatestAlong, Sweep;
  }

  /** Behind every other check a lease request fails exactly if no account can serve it or its secret is not found. */
  lemma AllocationDecided(s: State, now: int, c: Command)
    requires c.CreateLeaseCommand?
    ensures var (t, w) := (s.(pool := SweptPool(s.pool, now, Some(c.product))), Wanted(c.lease));
            var reply := Allocate(t, now, c.product, c.key, c.userId, c.deviceId, w, c.order, c.secretFound).1;
            && (reply.Failed? <==>
                  !(c.secretFound && exists id :: CanServe(s, now, c.product, w, c.order, id)))
            && (reply.Failed? ==> reply.error == ModelPoolUnavailable)
  {
    hide SelectAccount, CanServe, Sweep, NextId, Trim;
    ChoosesAmongServing(s, now, c.product, Wanted(c.lease), c.order);
  }

  lemma LeaseCreationDecided(s: State, now: int, c: Command)
    requires c.CreateLeaseCommand?
    ensures DecidedBy(LeaseChecks(s, now, c), Serve(s, now, c).1)
  {
    hide ValidKey, GoodKey, Trim, NonBlank, PolicyRefusal, SelectAccount, CanServe, Authorised, AtLimit, Allocate,
        RefreshedAccounts, Sweep;
    var checks := LeaseChecks(s, now, c);
    KeysAreGood(c.key);
    TrimIsBlank(c.deviceId);
    PolicyAuthorises(s, now, c.userId, c.product, c.lease);
    AllocationDecided(s, now, c);
    Unfolds(checks);
    Decides(checks, 0, Serve(s, now, c).1);
  }

  /** The lease is the request's on the account, active from now on for as long as asked. */
  predicate GrantsLease(c: Command, lease: Lease, now: int, accountId: string, a: Account)
    requires c.CreateLeaseCommand?
  {
    var w := Wanted(c.lease);
    && lease.product == c.product && lease.userId == c.userId && lease.deviceId == c.deviceId
    && lease.accountId == accountId && lease.purpose == w.purpose && lease.provider == w.provider
    && lease.model == w.model && lease.status == LeaseActive && lease.createdAt == now
    && lease.expiresAt == now + w.maxDurationSeconds && lease.releasedAt.None?
    && lease.baseUrl == a.baseUrl && lease.concurrencyLimit == a.concurrencyLimit
  }

  /** Every account's status has been brought up to date with the tokens of the day and the latest test. */
  ghost predicate BringsUpToDate(s: State, t: State, now: int, order: seq<string>) {
    && t.pool.accounts.Keys == s.pool.accounts.Keys
    && forall id :: id in s.pool.accounts ==>
         t.pool.accounts[id] == RefreshedAccount(
           s.pool.accounts[id], AccountDayTotal(s.pool.usage, s.pool.leases, id, now / 86400, None),
           LatestAlong(order, s.pool.tests, id), now)
  }

  lemma RefreshBringsUpToDate(s: State, t: State, now: int, product: Product, order: seq<string>)
    requires t.pool.accounts == Refreshed(s, now, product, order).accounts
    ensures BringsUpToDate(s, t, now, order)
  {
    forall id | id in s.pool.accounts
      ensures t.pool.accounts[id] == RefreshedAccount(
                s.pool.accounts[id], AccountDayTotal(s.pool.usage, s.pool.leases, id, now / 86400, None),
                LatestAlong(order, s.pool.tests, id), now)
    {
      SweptTotals(s, now, id, product);
    }
    hide AccountDayTotal, LatestAlong, Sweep, RefreshedAccount;
  }

  /** A repetition answers with the lease it created, as it is once expired leases have been noticed. */
  lemma LeaseIsConfirmed(s: State, now: int, c: Command)
    requires c.CreateLeaseCommand? && !Serve(s, now, c).1.Failed?
    requires Known(s, CreateLeaseScope(c.userId, c.deviceId, c.key, c.product))
    ensures var ((t, reply), id) :=
              (Serve(s, now, c), Resource(s, CreateLeaseScope(c.userId, c.deviceId, c.key, c.product)));
            OnlyExpiry(s, t, now, Some(c.product)) && reply == LeaseReply(id, t.pool.leases[id])
  {
    SweepExpires(s, Serve(s, now, c).0, now, Some(c.product));
    hide ValidKey, Trim, PolicyRefusal, Allocate, Sweep, Expires;
  }

  /**
   * A new lease goes to the account of highest priority that can serve it; besides, leases of the product expire and
   * accounts are brought up to date.
   */
  lemma LeaseIsCreated(s: State, now: int, c: Command)
    requires c.CreateLeaseCommand? && !Serve(s, now, c).1.Failed?
    requires !Known(s, CreateLeaseScope(c.userId, c.deviceId, c.key, c.product))
    requires NextId(s.ledger, "lease") !in s.pool.leases
    ensures var ((t, reply), w, id) := (Serve(s, now, c), Wanted(c.lease), NextId(s.ledger, "lease"));
            && OnlyPool(s, t) && t.pool == s.pool.(accounts := t.pool.accounts, leases := t.pool.leases)
            && t.pool.leases.Keys == s.pool.leases.Keys + {id}
            && ExpiresIn(s.pool.leases, t.pool.leases, now, Some(c.product)) && BringsUpToDate(s, t, now, c.order)
            && Draws(s, t, "lease", 1)
            && Remembers(s, t, CreateLeaseScope(c.userId, c.deviceId, c.key, c.product),
                         LeasePrint(c.userId, c.deviceId, c.product, w), id)
            && var lease := t.pool.leases[id];
              && CanServe(s, now, c.product, w, c.order, lease.accountId)
              && GrantsLease(c, lease, now, lease.accountId, s.pool.accounts[lease.accountId])
              && reply == LeaseReply(id, lease)
              && forall k :: CanServe(s, now, c.product, w, c.order, k) ==>
                   Ordering.AtMost(Ordering.Key(-s.pool.accounts[lease.accountId].priority, lease.accountId),
                                   Ordering.Key(-s.pool.accounts[k].priority, k))
  {
    hide Serve, CanServe, SelectAccount, Refreshed, Sweep, ExpiresIn, BringsUpToDate, NextId, GrantsLease, Wanted,
        Remembers, Draws;
    var t, w, id := Serve(s, now, c).0, Wanted(c.lease), NextId(s.ledger, "lease");
    var choice := SelectAccount(Refreshed(s, now, c.product, c.order), c.product, w.provider, w.model, now);
    AllocationHappens(s, now, c);
    ChoosesAmongServing(s, now, c.product, w, c.order);
    AllocationGrants(s, now, c, choice.value);
    RefreshBringsUpToDate(s, t, now, c.product, c.order);
    RefreshSweeps(s, now, c.product, c.order);
    RestExpires(s, t, now, c.product, id);
    DrawnAndRemembered(s, t, "lease", CreateLeaseScope(c.userId, c.deviceId, c.key, c.product),
        LeasePrint(c.userId, c.deviceId, c.product, w), id);
  }

  lemma RefreshSweeps(s: State, now: int, product: Product, order: seq<string>)
    ensures var pool := Refreshed(s, now, product, order);
            pool == s.pool.(accounts := pool.accounts, leases := Sweep(s.pool.leases, now, Some(product)))
  {
    hide RefreshedAccounts, Sweep;
  }

  lemma DrawnAndRemembered(s: State, t: State, prefix: string, scope: Scope, digest: Fingerprint, id: string)
    requires t.ledger == Remember(Bumped(s.ledger, prefix), scope, digest, id)
    ensures Draws(s, t, prefix, 1) && Remembers(s, t, scope, digest, id)
  {
  }

  lemma RestExpires(s: State, t: State, now: int, product: Product, id: string)
    requires id !in s.pool.leases && id in t.pool.leases
    requires t.pool.leases == Sweep(s.pool.leases, now, Some(product))[id := t.pool.leases[id]]
    ensures ExpiresIn(s.pool.leases, t.pool.leases, now, Some(product))
    ensures t.pool.leases.Keys == s.pool.leases.Keys + {id}
  {
  }

  lemma AllocationHappens(s: State, now: int, c: Command)
    requires c.CreateLeaseCommand? && !Serve(s, now, c).1.Failed?
    requires !Known(s, CreateLeaseScope(c.userId, c.deviceId, c.key, c.product))
    ensures var (t, w, id) := (Serve(s, now, c).0, Wanted(c.lease), NextId(s.ledger, "lease"));
            var pool := Refreshed(s, now, c.product, c.order);
            var choice := SelectAccount(pool, c.product, w.provider, w.model, now);
            && choice.Some? && choice.value in pool.accounts && w.maxDurationSeconds >= 30
            && var a := pool.accounts[choice.value];
               var lease := NewLease(a, choice.value, now, c.product, c.userId, c.deviceId, w);
              && t == s.(pool := pool.(leases := pool.leases[id := lease]), ledger := t.ledger)
              && Serve(s, now, c).1 == LeaseReply(id, lease)
              && t.ledger == Remember(Bumped(s.ledger, "lease"),
                                      CreateLeaseScope(c.userId, c.deviceId, c.key, c.product),
                                      LeasePrint(c.userId, c.deviceId, c.product, w), id)
  {
    var w, pool := Wanted(c.lease), Refreshed(s, now, c.product, c.order);
    SelectedIsBest(pool, c.product, w.provider, w.model, now);
    hide ValidKey, Trim, PolicyRefusal, SelectAccount, Sweep, RefreshedAccounts, NextId, Counter, Eligible, HasRoom,
        NewLease;
  }

  lemma AllocationGrants(s: State, now: int, c: Command, accountId: string)
    requires c.CreateLeaseCommand? && CanServe(s, now, c.product, Wanted(c.lease), c.order, accountId)
    ensures var pool, w := Refreshed(s, now, c.product, c.order), Wanted(c.lease);
            accountId in pool.accounts
            && GrantsLease(c, NewLease(pool.accounts[accountId], accountId, now, c.product, c.userId, c.deviceId, w),
                           now, accountId, s.pool.accounts[accountId])
  {
    hide Trim, AccountDayTotal, Sweep, LatestAlong;
  }

  /** A lease request that fails changes nothing before the gate; behind it expired leases are noticed, at most. */
  lemma RefusedLeaseLeaves(s: State, now: int, c: Command)
    requires c.CreateLeaseCommand? && Serve(s, now, c).1.Failed?
    ensures var (t, error) := (Serve(s, now, c).0, Serve(s, now, c).1.error);
            && (error in {IdempotencyConflict, ModelLeaseNotFound, UserModelNotAuthorized,
                          UserRecordedQuotaExceeded} ==>
                  OnlyExpiry(s, t, now, Some(c.product)))
            && (error == ModelPoolUnavailable ==>
                  t == s.(pool := s.pool.(accounts := t.pool.accounts, leases := t.pool.leases))
                  && Expires(s, t, now, Some(c.product)) && BringsUpToDate(s, t, now, c.order))
            && (error !in {IdempotencyConflict, ModelLeaseNotFound, UserModelNotAuthorized, UserRecordedQuotaExceeded,
                           ModelPoolUnavailable} ==>
                  t == s)
  {
    hide Serve, Expires, BringsUpToDate, Refreshed, Sweep;
    var t := Serve(s, now, c).0;
    WhereItFails(s, now, c);
    RefreshSweeps(s, now, c.product, c.order);
    if t.pool.leases == Sweep(s.pool.leases, now, Some(c.product)) {
      SweepExpires(s, t, now, Some(c.product));
    }
    if t.pool.accounts == Refreshed(s, now, c.product, c.order).accounts {
      RefreshBringsUpToDate(s, t, now, c.product, c.order);
    }
  }

  lemma WhereItFails(s: State, now: int, c: Command)
    requires c.CreateLeaseCommand? && Serve(s, now, c).1.Failed?
    ensures var (t, error) := (Serve(s, now, c).0, Serve(s, now, c).1.error);
            if error == ModelPoolUnavailable then t == s.(pool := Refreshed(s, now, c.product, c.order))
            else if error in {IdempotencyConflict, ModelLeaseNotFound, UserModelNotAuthorized,
                              UserRecordedQuotaExceeded}
            then t == s.(pool := s.pool.(leases := Sweep(s.pool.leases, now, Some(c.product)))) else t == s
  {
    hide ValidKey, Trim, SelectAccount, Sweep, RefreshedAccounts, NextId, UserDayTotal, ValidLeaseInput;
  }

  // --- renewing and ending a lease -------------------------------------------------------------------------

  /** The lease is active and its time is not up. */
  predicate Running(s: State, now: int, leaseId: string) {
    leaseId in s.pool.leases && s.pool.leases[leaseId].status == LeaseActive && now < s.pool.leases[leaseId].expiresAt
  }

  function Extension(c: Command): int
    requires c.RenewCommand?
  {
    if c.extendSeconds == 0 then 300 else c.extendSeconds
  }

  function RenewalChecks(s: State, now: int, c: Command): seq<Check>
    requires c.RenewCommand?
  {
    var id, scope := c.leaseId, RenewScope(c.leaseId, c.key, c.product);
    var anew := !Known(s, scope) && id in s.pool.leases;
    var served := && id in s.pool.leases && s.pool.leases[id].accountId in s.pool.accounts
                  && s.pool.accounts[s.pool.leases[id].accountId].status == AccountActive;
    [Check(!GoodKey(c.key), IdempotencyKeyRequired),
     Check(Extension(c) < 30 || Extension(c) > 3600, InvalidRequest)]
    + ClientChecks(s, c.userId, c.deviceId, c.product)
    + HolderChecks(s, id, c.userId, c.deviceId, c.product)
    + [Check(Clashes(s, scope, RenewPrint(c.userId, c.deviceId, c.product, id, Extension(c))), IdempotencyConflict),
       Check(anew && !Running(s, now, id), ModelLeaseStateConflict),
       Check(anew && !served, ModelPoolUnavailable)]
  }

  lemma RenewalDecided(s: State, now: int, c: Command)
    requires c.RenewCommand?
    ensures DecidedBy(RenewalChecks(s, now, c), Serve(s, now, c).1)
  {
    var checks := RenewalChecks(s, now, c);
    KeysAreGood(c.key);
    TrimIsBlank(c.deviceId);
    Unfolds(checks);
    hide ValidKey, GoodKey, Trim, NonBlank;
    Decides(checks, 0, Serve(s, now, c).1);
  }

  /** The sweep leaves a lease's terms; in a product it sweeps, the leases left active are those still running. */
  lemma SweptRow(s: State, now: int, within: Option<Product>, id: string)
    requires id in s.pool.leases
    ensures var (before, swept) := (s.pool.leases[id], Sweep(s.pool.leases, now, within)[id]);
            && ExpiresRow(before, swept, now, within)
            && swept == before.(status := swept.status, releasedAt := swept.releasedAt)
            && (within in {None, Some(before.product)} ==> (swept.status == LeaseActive <==> Running(s, now, id)))
            && (swept.status == LeaseActive ==> swept == before)
  {
  }

  lemma OthersExpire(s: State, t: State, now: int, within: Option<Product>, id: string)
    requires id in s.pool.leases && id in t.pool.leases
    requires t.pool.leases.Keys == s.pool.leases.Keys
    requires forall k :: k in s.pool.leases && k != id ==>
               t.pool.leases[k] == Sweep(s.pool.leases, now, within)[k]
    ensures ExpiresIn(s.pool.leases - {id}, t.pool.leases, now, within)
  {
  }

  /** A renewal moves the end of its lease, and of no other one, by the extension asked for. */
  lemma LeaseIsRenewed(s: State, now: int, c: Command)
    requires c.RenewCommand? && !Serve(s, now, c).1.Failed?
    ensures var ((t, reply), id, scope) := (Serve(s, now, c), c.leaseId, RenewScope(c.leaseId, c.key, c.product));
            && reply == LeaseReply(id, t.pool.leases[id])
            && if Known(s, scope) then OnlyExpiry(s, t, now, Some(c.product))
               else
                 && OnlyPool(s, t) && t.pool == s.pool.(leases := t.pool.leases)
                 && t.pool.leases.Keys == s.pool.leases.Keys
                 && ExpiresIn(s.pool.leases - {id}, t.pool.leases, now, Some(c.product))
                 && t.pool.leases[id].expiresAt == s.pool.leases[id].expiresAt + Extension(c)
                 && t.pool.leases[id] == s.pool.leases[id].(expiresAt := t.pool.leases[id].expiresAt)
                 && Remembers(s, t, scope, RenewPrint(c.userId, c.deviceId, c.product, id, Extension(c)), id)
                 && t.ledger.sequences == s.ledger.sequences
  {
    hide ValidKey, Trim, Sweep, Expires, ExpiresIn, Gate;
    var t := Serve(s, now, c).0;
    if Known(s, RenewScope(c.leaseId, c.key, c.product)) {
      SweepExpires(s, t, now, Some(c.product));
    } else {
      SweptRow(s, now, Some(c.product), c.leaseId);
      OthersExpire(s, t, now, Some(c.product), c.leaseId);
    }
  }

  function ReleaseChecks(s: State, c: Command): seq<Check>
    requires c.ReleaseCommand?
  {
    var id, scope := c.leaseId, ReleaseScope(c.leaseId, c.key, c.product);
    var digest := ReleasePrint(c.userId, c.deviceId, c.product, id, Trim(c.reason));
    [Check(!GoodKey(c.key), IdempotencyKeyRequired),
     Check(|Trim(c.reason)| > 255, InvalidRequest)]
    + ClientChecks(s, c.userId, c.deviceId, c.product)
    + HolderChecks(s, id, c.userId, c.deviceId, c.product)
    + [Check(Clashes(s, scope, digest), IdempotencyConflict)]
  }

  lemma ReleaseDecided(s: State, now: int, c: Command)
    requires c.ReleaseCommand?
    ensures DecidedBy(ReleaseChecks(s, c), Serve(s, now, c).1)
  {
    var checks := ReleaseChecks(s, c);
    KeysAreGood(c.key);
    TrimIsBlank(c.deviceId);
    Unfolds(checks);
    hide ValidKey, GoodKey, Trim, NonBlank;
    Decides(checks, 0, Serve(s, now, c).1);
  }

  /** A lease still running is released now; any other one is only noticed to have expired, as all others are. */
  lemma LeaseIsReleased(s: State, now: int, c: Command)
    requires c.ReleaseCommand? && !Serve(s, now, c).1.Failed?
    ensures var ((t, reply), id, scope) := (Serve(s, now, c), c.leaseId, ReleaseScope(c.leaseId, c.key, c.product));
            && reply == ReleasedReply(id)
            && if Known(s, scope) then OnlyExpiry(s, t, now, Some(c.product))
               else
                 && OnlyPool(s, t) && t.pool == s.pool.(leases := t.pool.leases)
                 && t.pool.leases.Keys == s.pool.leases.Keys
                 && ExpiresIn(s.pool.leases - {id}, t.pool.leases, now, Some(c.product))
                 && (if Running(s, now, id)
                     then t.pool.leases[id] == s.pool.leases[id].(status := LeaseReleased, releasedAt := Some(now))
                     else ExpiresRow(s.pool.leases[id], t.pool.leases[id], now, Some(c.product)))
                 && Remembers(s, t, scope, ReleasePrint(c.userId, c.deviceId, c.product, id, Trim(c.reason)), id)
                 && t.ledger.sequences == s.ledger.sequences
  {
    hide ValidKey, Trim, Sweep, Expires, ExpiresIn, Gate;
    var t := Serve(s, now, c).0;
    if Known(s, ReleaseScope(c.leaseId, c.key, c.product)) {
      SweepExpires(s, t, now, Some(c.product));
    } else {
      SweptRow(s, now, Some(c.product), c.leaseId);
      OthersExpire(s, t, now, Some(c.product), c.leaseId);
    }
  }

  function ReclaimChecks(s: State, c: Command): seq<Check>
    requires c.ReclaimCommand?
  {
    var id, there := c.leaseId, c.leaseId in s.pool.leases;
    [Check(!GoodKey(c.key), IdempotencyKeyRequired),
     Check(id == "" || |Trim(c.reason)| > 255, InvalidRequest),
     Check(!there, ModelLeaseNotFound),
     Check(there && s.pool.leases[id].product != c.product, Forbidden),
     Check(Clashes(s, ReclaimScope(id, c.key, c.product), ReclaimPrint(id, c.product, Trim(c.reason))),
           IdempotencyConflict)]
  }

  lemma ReclaimDecided(s: State, now: int, c: Command)
    requires c.ReclaimCommand?
    ensures DecidedBy(ReclaimChecks(s, c), Serve(s, now, c).1)
  {
    var checks := ReclaimChecks(s, c);
    KeysAreGood(c.key);
    Unfolds(checks);
    hide ValidKey, GoodKey, Trim;
    Decides(checks, 0, Serve(s, now, c).1);
  }

  /** An administrator's release releases an active lease even if its time is up; leases of all products expire. */
  lemma LeaseIsReclaimed(s: State, now: int, c: Command)
    requires c.ReclaimCommand? && !Serve(s, now, c).1.Failed?
    ensures var ((t, reply), id, scope) := (Serve(s, now, c), c.leaseId, ReclaimScope(c.leaseId, c.key, c.product));
            && reply == ReleasedReply(id)
            && if Known(s, scope) then OnlyExpiry(s, t, now, None)
               else
                 && OnlyPool(s, t) && t.pool == s.pool.(leases := t.pool.leases)
                 && t.pool.leases.Keys == s.pool.leases.Keys
                 && ExpiresIn(s.pool.leases - {id}, t.pool.leases, now, None)
                 && t.pool.leases[id] == (if s.pool.leases[id].status == LeaseActive
                      then s.pool.leases[id].(status := LeaseReleased, releasedAt := Some(now)) else s.pool.leases[id])
                 && Remembers(s, t, scope, ReclaimPrint(id, c.product, Trim(c.reason)), id)
                 && t.ledger.sequences == s.ledger.sequences
  {
    var t := Serve(s, now, c).0;
    if Known(s, ReclaimScope(c.leaseId, c.key, c.product)) {
      SweepExpires(s, t, now, None);
      hide ValidKey, Trim, Sweep, Expires;
    } else {
      hide ValidKey, Trim;
    }
  }

  /** A request about a lease that fails changes nothing, but that leases are noticed to have expired once it looks. */
  lemma RefusedChangeLeaves(s: State, now: int, c: Command)
    requires (c.RenewCommand? || c.ReleaseCommand? || c.ReclaimCommand?) && Serve(s, now, c).1.Failed?
    ensures var (t, error) := (Serve(s, now, c).0, Serve(s, now, c).1.error);
            var within := if c.ReclaimCommand? then None else Some(c.product);
            && (t == s || OnlyExpiry(s, t, now, within))
            && (error in {IdempotencyConflict, ModelLeaseStateConflict, ModelPoolUnavailable}
                || (error == ModelLeaseNotFound && !c.ReclaimCommand?) ==>
                  OnlyExpiry(s, t, now, within))
  {
    hide Serve, Sweep, Expires;
    var t, within := Serve(s, now, c).0, if c.ReclaimCommand? then None else Some(c.product);
    if c.RenewCommand? {
      RenewalFails(s, now, c);
    } else if c.ReleaseCommand? {
      ReleaseFails(s, now, c);
    } else {
      ReclaimFails(s, now, c);
    }
    if t.pool.leases == Sweep(s.pool.leases, now, within) {
      SweepExpires(s, t, now, within);
    }
  }

  /** The request stops before it looks for the lease, or after the sweep. */
  predicate FailsAt(s: State, t: State, now: int, within: Option<Product>, error: Error, looks: bool) {
    && (t == s || t == s.(pool := SweptPool(s.pool, now, within)))
    && (error in {IdempotencyConflict, ModelLeaseStateConflict, ModelPoolUnavailable}
        || (error == ModelLeaseNotFound && looks) ==>
          t == s.(pool := SweptPool(s.pool, now, within)))
  }

  lemma RenewalFails(s: State, now: int, c: Command)
    requires c.RenewCommand? && Serve(s, now, c).1.Failed?
    ensures FailsAt(s, Serve(s, now, c).0, now, Some(c.product), Serve(s, now, c).1.error, true)
  {
    hide ValidKey, Trim, Sweep;
  }

  lemma ReleaseFails(s: State, now: int, c: Command)
    requires c.ReleaseCommand? && Serve(s, now, c).1.Failed?
    ensures FailsAt(s, Serve(s, now, c).0, now, Some(c.product), Serve(s, now, c).1.error, true)
  {
    hide ValidKey, Trim, Sweep;
  }

  lemma ReclaimFails(s: State, now: int, c: Command)
    requires c.ReclaimCommand? && Serve(s, now, c).1.Failed?
    ensures FailsAt(s, Serve(s, now, c).0, now, None, Serve(s, now, c).1.error, false)
  {
    hide ValidKey, Trim, Sweep;
  }
}
