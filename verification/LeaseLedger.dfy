/** A lease's expiry is fully explained by the requests the ledger remembers. */
module LeaseLedger {
  import opened Collections
  import opened Tables
  import opened LeaseTable
  import opened Activation
  import opened ModelPool
  import opened Leasing
  import opened Progress
  import opened Delivery
  import opened ControlPlane
  import opened Runs

  /** The seconds a remembered renewal added to a lease. */
  ghost function ExtensionFor(leaseId: string): (Scope, IdempotencyRecord) -> nat {
    (scope: Scope, record: IdempotencyRecord) =>
      if scope.RenewScope? && scope.leaseId == leaseId && record.fingerprint.RenewPrint?
          && record.fingerprint.extendSeconds >= 0
      then record.fingerprint.extendSeconds else 0
  }

  ghost function Extensions(records: map<Scope, IdempotencyRecord>, leaseId: string): nat {
    Sum(records, ExtensionFor(leaseId))
  }

  predicate Creates(records: map<Scope, IdempotencyRecord>, scope: Scope, leaseId: string) {
    && scope in records && scope.CreateLeaseScope?
    && records[scope].fingerprint.LeasePrint? && records[scope].resourceId == leaseId
  }

  /** A creation is remembered, and creation time, duration and remembered extensions add up to the expiry. */
  ghost predicate Explained(leases: map<string, Lease>, records: map<Scope, IdempotencyRecord>, id: string)
    requires id in leases
  {
    && (exists scope :: Creates(records, scope, id))
    && forall scope :: Creates(records, scope, id) ==>
         leases[id].expiresAt
         == leases[id].createdAt + records[scope].fingerprint.lease.maxDurationSeconds + Extensions(records, id)
  }

  /** The lease runs longer than whatever is remembered of it accounts for. */
  ghost predicate Overrun(leases: map<string, Lease>, records: map<Scope, IdempotencyRecord>, id: string)
    requires id in leases
  {
    forall scope :: Creates(records, scope, id) ==>
      leases[id].expiresAt
      > leases[id].createdAt + records[scope].fingerprint.lease.maxDurationSeconds + Extensions(records, id)
  }

  /** Only existing leases have been created, once each, or renewed, and a renewal adds at least half a minute. */
  ghost predicate Known(leases: map<string, Lease>, records: map<Scope, IdempotencyRecord>) {
    && (forall scope, id :: Creates(records, scope, id) ==> id in leases)
    && (forall scope, other, id :: Creates(records, scope, id) && Creates(records, other, id) ==> scope == other)
    && (forall scope :: scope in records && scope.RenewScope? ==>
          && scope.leaseId in leases
          && records[scope].fingerprint.RenewPrint? && records[scope].fingerprint.extendSeconds >= 30)
  }

  /** What is not accounted for stays the same. */
  ghost predicate SameBalance(
    leases: map<string, Lease>, records: map<Scope, IdempotencyRecord>, leases': map<string, Lease>,
    records': map<Scope, IdempotencyRecord>, id: string)
    requires id in leases
  {
    && id in leases' && leases'[id].createdAt == leases[id].createdAt
    && leases'[id].expiresAt - Extensions(records', id) == leases[id].expiresAt - Extensions(records, id)
    && (forall scope :: Creates(records', scope, id) <==> Creates(records, scope, id))
    && (forall scope :: Creates(records, scope, id) ==> records'[scope] == records[scope])
  }

  ghost predicate Carried(
    leases: map<string, Lease>, records: map<Scope, IdempotencyRecord>, leases': map<string, Lease>,
    records': map<Scope, IdempotencyRecord>)
  {
    && Known(leases', records')
    && (forall id :: id in leases ==> SameBalance(leases, records, leases', records', id))
    && (forall id :: id in leases' && id !in leases ==> Explained(leases', records', id))
  }

  lemma CarriesOn(
    leases: map<string, Lease>, records: map<Scope, IdempotencyRecord>, leases': map<string, Lease>,
    records': map<Scope, IdempotencyRecord>, id: string)
    requires id in leases && SameBalance(leases, records, leases', records', id)
    ensures Explained(leases, records, id) ==> Explained(leases', records', id)
    ensures Overrun(leases, records, id) ==> Overrun(leases', records', id)
  {
    hide Extensions, Creates;
    assert forall scope :: Creates(records', scope, id) ==> Creates(records, scope, id);
    if scope :| Creates(records, scope, id) {
      assert Creates(records', scope, id);
    }
  }

  lemma CarriedFromEnded(
    leases: map<string, Lease>, ended: map<string, Lease>, records: map<Scope, IdempotencyRecord>,
    leases': map<string, Lease>, records': map<Scope, IdempotencyRecord>)
    requires OnlyEnds(leases, ended) && Carried(ended, records, leases', records')
    ensures Carried(leases, records, leases', records')
  {
    hide Extensions, Creates, Known, Explained;
    forall id | id in leases ensures SameBalance(leases, records, leases', records', id) {
      assert Ended(leases[id], ended[id]) && SameBalance(ended, records, leases', records', id);
    }
  }

  // --- commands that leave terms alone ---------------------------------------------------------------------

  lemma EndsCompose(a: map<string, Lease>, b: map<string, Lease>, c: map<string, Lease>)
    requires OnlyEnds(a, b) && OnlyEnds(b, c)
    ensures OnlyEnds(a, c)
  {
    forall id | id in a ensures Ended(a[id], c[id]) {
      assert Ended(a[id], b[id]) && Ended(b[id], c[id]);
    }
  }

  lemma NothingEnds(leases: map<string, Lease>)
    ensures OnlyEnds(leases, leases)
  {
  }

  /** Apart from creating and renewing, a command changes leases at most by ending some. */
  lemma OthersOnlyEnd(s: State, now: int, c: Command)
    requires !c.CreateLeaseCommand? && !c.RenewCommand?
    ensures OnlyEnds(s.pool.leases, Step(s, now, c).0.pool.leases)
  {
    hide Serve, Step;
    ServeOnlyEnds(s, now, c);
    StepServes(s, now, c);
  }

  lemma ServeOnlyEnds(s: State, now: int, c: Command)
    requires !c.CreateLeaseCommand? && !c.RenewCommand?
    ensures OnlyEnds(s.pool.leases, Serve(s, now, c).0.pool.leases)
  {
    hide OnlyEnds, ValidKey, Trim, Sweep, Closed, Reclaimed, Gate, LeaseRefusal, NextId, Lookup, UsageRefusal,
        Charged, Recorded, RefreshedAccounts;
    hide ReleaseForDevice, EditRefusal, ActiveCount, ActivateVerdict, CreateCodeVerdict, DeviceVerdict,
        UpdateAccountVerdict, DisableAccountVerdict, CreateAccountVerdict, OldRecords, OldTests;
    NothingEnds(s.pool.leases);
    match c
    case ReleaseCommand(_, _, _, _, _, _) => ServeReleaseEnds(s, now, c);
    case ReclaimCommand(_, _, _, _) => ServeReleaseEnds(s, now, c);
    case DisableDeviceCommand(product, key, deviceId) => ReleaseOnlyEnds(s.pool.leases, deviceId, now, product);
    case UnbindCommand(product, key, deviceId) => ReleaseOnlyEnds(s.pool.leases, deviceId, now, product);
    case UpdateAccountCommand(product, _, _, _, _) => SweepOnlyEnds(s.pool.leases, now, Some(product));
    case DisableAccountCommand(product, _, _) => SweepOnlyEnds(s.pool.leases, now, Some(product));
    case ListAccountsCommand(_) => SweepOnlyEnds(s.pool.leases, now, None);
    case _ =>
  }

  lemma ServeReleaseEnds(s: State, now: int, c: Command)
    requires c.ReleaseCommand? || c.ReclaimCommand?
    ensures OnlyEnds(s.pool.leases, Serve(s, now, c).0.pool.leases)
  {
    hide OnlyEnds, ValidKey, Trim, Sweep, Closed, Reclaimed, Gate, LeaseRefusal, Lookup;
    NothingEnds(s.pool.leases);
    match c
    case ReleaseCommand(product, _, _, _, leaseId, _) =>
      SweepOnlyEnds(s.pool.leases, now, Some(product));
      ClosingOnlyEnds(Sweep(s.pool.leases, now, Some(product)), leaseId, now);
      EndsCompose(s.pool.leases, Sweep(s.pool.leases, now, Some(product)),
          Closed(Sweep(s.pool.leases, now, Some(product)), leaseId, now));
    case ReclaimCommand(_, _, leaseId, _) =>
      SweepOnlyEnds(s.pool.leases, now, None);
      if leaseId in s.pool.leases { ReclaimOnlyEnds(s.pool.leases, leaseId, now); }
  }

  /** Ending leases, and remembering a request that neither creates nor renews one. */
  lemma OtherRecordCarries(
    leases: map<string, Lease>, leases': map<string, Lease>, records: map<Scope, IdempotencyRecord>, scope: Scope,
    record: IdempotencyRecord)
    requires Known(leases, records) && OnlyEnds(leases, leases')
    requires !scope.CreateLeaseScope? && !scope.RenewScope? && scope !in records
    ensures Carried(leases, records, leases', records[scope := record])
  {
    var records' := records[scope := record];
    assert forall other, id :: Creates(records', other, id) <==> Creates(records, other, id);
    forall id | id in leases ensures SameBalance(leases, records, leases', records', id) {
      SumUpdate(records, ExtensionFor(id), scope, record);
    }
  }

  lemma EndingCarries(leases: map<string, Lease>, leases': map<string, Lease>, records: map<Scope, IdempotencyRecord>)
    requires Known(leases, records) && OnlyEnds(leases, leases')
    ensures Carried(leases, records, leases', records) && Known(leases', records)
  {
  }

  // --- creating and renewing -------------------------------------------------------------------------------

  lemma CreationCarries(
    leases: map<string, Lease>, records: map<Scope, IdempotencyRecord>, id: string, lease: Lease, scope: Scope,
    digest: Fingerprint)
    requires Known(leases, records) && id !in leases
    requires scope.CreateLeaseScope? && scope !in records && digest.LeasePrint?
    requires lease.expiresAt == lease.createdAt + digest.lease.maxDurationSeconds
    ensures Carried(leases, records, leases[id := lease], records[scope := IdempotencyRecord(digest, id)])
  {
    var leases', records' := leases[id := lease], records[scope := IdempotencyRecord(digest, id)];
    forall x ensures Extensions(records', x) == Extensions(records, x) {
      SumUpdate(records, ExtensionFor(x), scope, records'[scope]);
    }
    SumZero(records, ExtensionFor(id));
    assert Creates(records', scope, id);
    assert forall other, x :: other != scope ==> (Creates(records', other, x) <==> Creates(records, other, x));
    assert forall x :: Creates(records', scope, x) ==> x == id;
  }

  lemma RenewalCarries(
    leases: map<string, Lease>, records: map<Scope, IdempotencyRecord>, id: string, scope: Scope, digest: Fingerprint)
    requires Known(leases, records) && id in leases
    requires scope.RenewScope? && scope.leaseId == id && scope !in records
    requires digest.RenewPrint? && digest.extendSeconds >= 30
    ensures Carried(leases, records,
              leases[id := leases[id].(expiresAt := leases[id].expiresAt + digest.extendSeconds)],
                    records[scope := IdempotencyRecord(digest, id)])
  {
    var record := IdempotencyRecord(digest, id);
    var leases', records' := leases[id := leases[id].(expiresAt := leases[id].expiresAt + digest.extendSeconds)],
        records[scope := record];
    forall x ensures Extensions(records', x) == Extensions(records, x) + (if x == id then digest.extendSeconds else 0) {
      SumUpdate(records, ExtensionFor(x), scope, record);
    }
    assert forall other, x :: Creates(records', other, x) <==> Creates(records, other, x);
  }

  // --- runs ------------------------------------------------------------------------------------------------

  lemma CreateCarries(
    s: State, now: int, product: Product, key: string, userId: string, deviceId: string, raw: LeaseInput,
    order: seq<string>, secretFound: bool)
    requires Numbered(s) && Known(s.pool.leases, s.ledger.records)
    ensures var t := CreateLease(s, now, product, key, userId, deviceId, raw, order, secretFound).0;
            Carried(s.pool.leases, s.ledger.records, t.pool.leases, t.ledger.records)
  {
    hide Known, Carried, Gate, ValidKey, ValidLeaseInput, PolicyRefusal, Identifier, RefreshedAccounts, SelectAccount,
        Sweep, NextId, Issued, OnlyEnds, Allocate;
    NothingEnds(s.pool.leases);
    EndingCarries(s.pool.leases, s.pool.leases, s.ledger.records);
    SweepOnlyEnds(s.pool.leases, now, Some(product));
    var swept := Sweep(s.pool.leases, now, Some(product));
    EndingCarries(s.pool.leases, swept, s.ledger.records);
    NumberedAfterDraw(s.pool.leases.Keys, "lease", s.ledger);
    var t := s.(pool := SweptPool(s.pool, now, Some(product)));
    AllocateCarries(t, now, product, key, userId, deviceId, LeaseDefaults(raw), order, secretFound);
    var u := Allocate(t, now, product, key, userId, deviceId, LeaseDefaults(raw), order, secretFound).0;
    if CreateLeaseScope(userId, deviceId, key, product) !in s.ledger.records {
      CarriedFromEnded(s.pool.leases, swept, s.ledger.records, u.pool.leases, u.ledger.records);
    }
  }

  lemma AllocateCarries(
    t: State, now: int, product: Product, key: string, userId: string, deviceId: string, input: LeaseInput,
    order: seq<string>, secretFound: bool)
    requires Known(t.pool.leases, t.ledger.records)
    requires NextId(t.ledger, "lease") !in t.pool.leases
    ensures var u := Allocate(t, now, product, key, userId, deviceId, input, order, secretFound).0;
            CreateLeaseScope(userId, deviceId, key, product) !in t.ledger.records ==>
                Carried(t.pool.leases, t.ledger.records, u.pool.leases, u.ledger.records)
  {
    hide Known, Carried, RefreshedAccounts, NextId, Eligible, HasRoom, OnlyEnds;
    NothingEnds(t.pool.leases);
    EndingCarries(t.pool.leases, t.pool.leases, t.ledger.records);
    var pool := t.pool.(accounts := RefreshedAccounts(t.pool, order, now));
    SelectedIsBest(pool, product, input.provider, input.model, now);
    var choice := SelectAccount(pool, product, input.provider, input.model, now);
    var scope := CreateLeaseScope(userId, deviceId, key, product);
    if scope !in t.ledger.records && choice.Some? && choice.value in pool.accounts {
      var lease := NewLease(pool.accounts[choice.value], choice.value, now, product, userId, deviceId, input);
      CreationCarries(pool.leases, t.ledger.records, NextId(t.ledger, "lease"), lease, scope,
          LeasePrint(userId, deviceId, product, input));
    }
  }

  lemma RenewCarries(
    s: State, now: int, product: Product, key: string, userId: string, deviceId: string, leaseId: string,
    rawExtend: int)
    requires Known(s.pool.leases, s.ledger.records)
    ensures var t := RenewLease(s, now, product, key, userId, deviceId, leaseId, rawExtend).0;
            Carried(s.pool.leases, s.ledger.records, t.pool.leases, t.ledger.records)
  {
    hide Known, Carried, Gate, ValidKey, Sweep, OnlyEnds;
    NothingEnds(s.pool.leases);
    EndingCarries(s.pool.leases, s.pool.leases, s.ledger.records);
    SweepOnlyEnds(s.pool.leases, now, Some(product));
    var swept := Sweep(s.pool.leases, now, Some(product));
    EndingCarries(s.pool.leases, swept, s.ledger.records);
    var scope, extend := RenewScope(leaseId, key, product), ExtensionOf(rawExtend);
    if leaseId in swept && scope !in s.ledger.records && extend >= 30 {
      var digest := RenewPrint(userId, deviceId, product, leaseId, extend);
      RenewalCarries(swept, s.ledger.records, leaseId, scope, digest);
      CarriedFromEnded(s.pool.leases, swept, s.ledger.records,
          swept[leaseId := swept[leaseId].(expiresAt := swept[leaseId].expiresAt + extend)],
          s.ledger.records[scope := IdempotencyRecord(digest, leaseId)]);
    }
  }

  /** Whatever a command other than a retention pass does, nothing that was accounted for stops being so. */
  lemma StepCarries(s: State, now: int, c: Command)
    requires Numbered(s) && !c.Forget? && Known(s.pool.leases, s.ledger.records)
    ensures var t := Step(s, now, c).0; Carried(s.pool.leases, s.ledger.records, t.pool.leases, t.ledger.records)
  {
    hide Known, Carried, Numbered, Step;
    StepServes(s, now, c);
    match c
    case CreateLeaseCommand(product, key, userId, deviceId, lease, order, secretFound) =>
      CreateCarries(s, now, product, key, userId, deviceId, lease, order, secretFound);
    case RenewCommand(product, key, userId, deviceId, leaseId, extendSeconds) =>
      RenewCarries(s, now, product, key, userId, deviceId, leaseId, extendSeconds);
    case _ => OtherStepCarries(s, now, c);
  }

  lemma OtherStepCarries(s: State, now: int, c: Command)
    requires !c.Forget? && !c.CreateLeaseCommand? && !c.RenewCommand?
    requires Known(s.pool.leases, s.ledger.records)
    ensures var t := Step(s, now, c).0; Carried(s.pool.leases, s.ledger.records, t.pool.leases, t.ledger.records)
  {
    var t := Step(s, now, c).0;
    hide Known, Carried, Step, OnlyEnds, Untouched, Repeated, PrintOf;
    OthersOnlyEnd(s, now, c);
    EndingCarries(s.pool.leases, t.pool.leases, s.ledger.records);
    if ScopeOf(c).Some? {
      StepAccounted(s, now, c);
      LittleChanges(s, t, now);
      if t.ledger.records != s.ledger.records {
        OtherRecordCarries(s.pool.leases, t.pool.leases, s.ledger.records, ScopeOf(c).value,
            t.ledger.records[ScopeOf(c).value]);
      }
    } else {
      UnscopedKeepRecords(s, now, c);
    }
  }

  lemma UnscopedKeepRecords(s: State, now: int, c: Command)
    requires ScopeOf(c).None? && !c.Forget?
    ensures Step(s, now, c).0.ledger.records == s.ledger.records
  {
  }

  // --- what retention passes drop --------------------------------------------------------------------------

  /** A record that belongs to the history of a lease: its creation or one of its renewals. */
  predicate Concerns(records: map<Scope, IdempotencyRecord>, scope: Scope, id: string) {
    Creates(records, scope, id) || (scope in records && scope.RenewScope? && scope.leaseId == id)
  }

  /** The step is a retention pass that drops such a record. */
  ghost predicate DropsHistory(s: State, now: int, c: Command, id: string) {
    && c.Forget? && c.recordLife > 0 && c.testLife > 0
    && exists scope ::
         Concerns(s.ledger.records, scope, id) && scope in c.scopes * OldRecords(s.ledger, now - c.recordLife)
  }

  /** Leaving out records that add nothing to a lease changes nothing, leaving out one that does lowers the sum. */
  lemma DroppedExtensions(records: map<Scope, IdempotencyRecord>, dropped: set<Scope>, id: string)
    requires forall scope :: scope in records && scope.RenewScope? ==>
               records[scope].fingerprint.RenewPrint? && records[scope].fingerprint.extendSeconds >= 30
    ensures Extensions(records - dropped, id) <= Extensions(records, id)
    ensures Extensions(records - dropped, id) == Extensions(records, id)
            <==> forall scope :: scope in records && scope.RenewScope? && scope.leaseId == id ==> scope !in dropped
  {
    SumSplit(records, dropped, ExtensionFor(id));
    var gone := map scope | scope in records && scope in dropped :: records[scope];
    if scope :| scope in records && scope.RenewScope? && scope.leaseId == id && scope in dropped {
      SumRemove(gone, ExtensionFor(id), scope);
    } else {
      SumZero(gone, ExtensionFor(id));
    }
  }

  lemma {:induction false} SumSplit(
    records: map<Scope, IdempotencyRecord>, dropped: set<Scope>, w: (Scope, IdempotencyRecord) -> nat)
    ensures Sum(records, w)
         == Sum(records - dropped, w) + Sum(map scope | scope in records && scope in dropped :: records[scope], w)
    decreases |dropped|
  {
    if dropped == {} {
      assert records - dropped == records;
      assert (map scope | scope in records && scope in dropped :: records[scope]) == map[];
    } else {
      var scope :| scope in dropped;
      var rest := dropped - {scope};
      SumSplit(records, rest, w);
      var less, more := map x | x in records && x in rest :: records[x],
          map x | x in records && x in dropped :: records[x];
      if scope in records {
        SumRemove(records - rest, w, scope);
        assert (records - rest) - {scope} == records - dropped;
        SumRemove(more, w, scope);
        assert more - {scope} == less;
      } else {
        assert records - rest == records - dropped;
        assert less == more;
      }
    }
  }

  /** A retention pass leaves a lease accounted for exactly if it drops nothing of its history. */
  lemma ForgetBalance(s: State, now: int, c: Command, id: string)
    requires c.Forget? && Known(s.pool.leases, s.ledger.records) && id in s.pool.leases
    ensures var t := Step(s, now, c).0;
            && t.pool.leases == s.pool.leases && Known(t.pool.leases, t.ledger.records)
            && (Overrun(s.pool.leases, s.ledger.records, id) ==> Overrun(t.pool.leases, t.ledger.records, id))
            && (Explained(s.pool.leases, s.ledger.records, id) ==>
                if DropsHistory(s, now, c, id) then Overrun(t.pool.leases, t.ledger.records, id)
                else Explained(t.pool.leases, t.ledger.records, id))
  {
    var t := Step(s, now, c).0;
    var dropped := c.scopes * OldRecords(s.ledger, now - c.recordLife);
    var records, records' := s.ledger.records, t.ledger.records;
    if c.recordLife <= 0 || c.testLife <= 0 {
      assert records' == records;
    } else {
      assert records' == records - dropped;
      ForgottenBalance(s.pool.leases, records, dropped, id);
      hide Explained, Overrun, Known, Extensions;
      assert forall scope :: Concerns(records, scope, id) ==> (scope in dropped <==> scope !in records');
    }
  }

  lemma ForgottenBalance(
    leases: map<string, Lease>, records: map<Scope, IdempotencyRecord>, dropped: set<Scope>, id: string)
    requires Known(leases, records) && id in leases
    ensures Known(leases, records - dropped)
    ensures Overrun(leases, records, id) ==> Overrun(leases, records - dropped, id)
    ensures Explained(leases, records, id) ==>
              if exists scope :: Concerns(records, scope, id) && scope in dropped
              then Overrun(leases, records - dropped, id) else Explained(leases, records - dropped, id)
  {
    var records' := records - dropped;
    DroppedExtensions(records, dropped, id);
    hide Extensions;
    assert forall scope, x :: Creates(records', scope, x) <==> Creates(records, scope, x) && scope !in dropped;
    if Explained(leases, records, id) {
      var scope :| Creates(records, scope, id);
      assert Creates(records', scope, id) <==> scope !in dropped;
    }
  }

  // --- runs ------------------------------------------------------------------------------------------------

  /** No retention pass along the run drops a record of the lease's history. */
  ghost predicate HistoryKept(s: State, events: seq<Event>, id: string)
    decreases |events|
  {
    events == []
    || (!DropsHistory(s, events[0].now, events[0].command, id)
        && HistoryKept(Step(s, events[0].now, events[0].command).0, events[1..], id))
  }

  lemma StepKnown(s: State, now: int, c: Command)
    requires Numbered(s) && Known(s.pool.leases, s.ledger.records)
    ensures var t := Step(s, now, c).0;
            Known(t.pool.leases, t.ledger.records) && s.pool.leases.Keys <= t.pool.leases.Keys
  {
    hide Known, Step, Numbered, Explained;
    StepAdvances(s, now, c);
    if c.Forget? {
      ForgetKnown(s, now, c);
    } else {
      StepCarries(s, now, c);
    }
  }

  lemma ForgetKnown(s: State, now: int, c: Command)
    requires c.Forget? && Known(s.pool.leases, s.ledger.records)
    ensures var t := Step(s, now, c).0; t.pool.leases == s.pool.leases && Known(t.pool.leases, t.ledger.records)
  {
    var records, records' := s.ledger.records, Step(s, now, c).0.ledger.records;
    assert forall scope, x :: Creates(records', scope, x) ==> Creates(records, scope, x);
  }

  lemma {:induction false} OverrunStays(s: State, events: seq<Event>, id: string)
    requires Numbered(s) && Known(s.pool.leases, s.ledger.records)
    requires id in s.pool.leases && Overrun(s.pool.leases, s.ledger.records, id)
    ensures var t := Run(s, events); id in t.pool.leases && Overrun(t.pool.leases, t.ledger.records, id)
    decreases |events|
  {
    hide Numbered, Step, Known, Overrun, Explained, SameBalance;
    if events != [] {
      var now, c := events[0].now, events[0].command;
      StepAdvances(s, now, c);
      StepKnown(s, now, c);
      var t := Step(s, now, c).0;
      if c.Forget? {
        ForgetBalance(s, now, c, id);
      } else {
        StepCarries(s, now, c);
        CarriesOn(s.pool.leases, s.ledger.records, t.pool.leases, t.ledger.records, id);
      }
      OverrunStays(t, events[1..], id);
    }
  }

  lemma {:induction false} ExplainedExactly(s: State, events: seq<Event>, id: string)
    requires Numbered(s) && Known(s.pool.leases, s.ledger.records)
    requires id in s.pool.leases ==> Explained(s.pool.leases, s.ledger.records, id)
    requires id in Run(s, events).pool.leases
    ensures var t := Run(s, events); Explained(t.pool.leases, t.ledger.records, id) <==> HistoryKept(s, events, id)
    decreases |events|
  {
    hide Numbered, Step, Known, Explained, Overrun, SameBalance, DropsHistory;
    if events != [] {
      var now, c := events[0].now, events[0].command;
      StepAdvances(s, now, c);
      StepKnown(s, now, c);
      var t := Step(s, now, c).0;
      StepExplains(s, now, c, id);
      if DropsHistory(s, now, c, id) {
        OverrunStays(t, events[1..], id);
        OverrunIsUnexplained(Run(t, events[1..]), id);
      } else {
        ExplainedExactly(t, events[1..], id);
      }
    }
  }

  lemma OverrunIsUnexplained(s: State, id: string)
    requires id in s.pool.leases && Overrun(s.pool.leases, s.ledger.records, id)
    ensures !Explained(s.pool.leases, s.ledger.records, id)
  {
    hide Creates, Extensions;
  }

  lemma StepExplains(s: State, now: int, c: Command, id: string)
    requires Numbered(s) && Known(s.pool.leases, s.ledger.records)
    requires id in s.pool.leases ==> Explained(s.pool.leases, s.ledger.records, id)
    ensures var t := Step(s, now, c).0;
            if DropsHistory(s, now, c, id)
            then id in t.pool.leases && Overrun(t.pool.leases, t.ledger.records, id)
            else id in t.pool.leases ==> Explained(t.pool.leases, t.ledger.records, id)
  {
    hide Numbered, Step, Explained, Overrun, SameBalance;
    var t := Step(s, now, c).0;
    if c.Forget? {
      ForgetKnown(s, now, c);
      if id in s.pool.leases {
        ForgetBalance(s, now, c, id);
      }
    } else {
      StepCarries(s, now, c);
      if id in s.pool.leases {
        CarriesOn(s.pool.leases, s.ledger.records, t.pool.leases, t.ledger.records, id);
      }
    }
  }

  /**
   * Exactly-once renewal. Along any run, however often each request is delivered, a lease's expiry is its creation time
   * plus its remembered duration plus one extension for each distinct renewal remembered, if and only if no retention
   * pass has dropped its creation or one of its renewals.
   */
  lemma ExpiryIsExplained(people: People, events: seq<Event>, id: string)
    requires id in Reached(people, events).pool.leases
    ensures var s := Reached(people, events);
            (exists scope :: Creates(s.ledger.records, scope, id)
                && s.pool.leases[id].expiresAt == s.pool.leases[id].createdAt
                    + s.ledger.records[scope].fingerprint.lease.maxDurationSeconds + Extensions(s.ledger.records, id))
            <==> HistoryKept(Empty(people), events, id)
  {
    hide Run, HistoryKept;
    ExplainedExactly(Empty(people), events, id);
    ReachedKnown(people, events);
    OneEquation(Reached(people, events), id);
  }

  lemma OneEquation(s: State, id: string)
    requires Known(s.pool.leases, s.ledger.records) && id in s.pool.leases
    ensures (exists scope :: Creates(s.ledger.records, scope, id)
                && s.pool.leases[id].expiresAt == s.pool.leases[id].createdAt
                    + s.ledger.records[scope].fingerprint.lease.maxDurationSeconds + Extensions(s.ledger.records, id))
            <==> Explained(s.pool.leases, s.ledger.records, id)
  {
    hide Extensions;
  }

  lemma {:induction false} RunKnown(s: State, events: seq<Event>)
    requires Numbered(s) && Known(s.pool.leases, s.ledger.records)
    ensures Known(Run(s, events).pool.leases, Run(s, events).ledger.records)
    decreases |events|
  {
    hide Numbered, Step, Known;
    if events != [] {
      StepAdvances(s, events[0].now, events[0].command);
      StepKnown(s, events[0].now, events[0].command);
      RunKnown(Step(s, events[0].now, events[0].command).0, events[1..]);
    }
  }

  lemma ReachedKnown(people: People, events: seq<Event>)
    ensures Known(Reached(people, events).pool.leases, Reached(people, events).ledger.records)
  {
    hide Run;
    RunKnown(Empty(people), events);
  }
}
