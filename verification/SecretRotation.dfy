/**
 * Rotating an account's secret and cleaning up after it, as any number of rotations and cleanup passes interleave and
 * crash between any two steps. A rotation whose commit outcome is unknown is one that crashes before or after `Commit`.
 */
module SecretRotation {

  /** How long a staged candidate is left alone, in seconds. */
  const GRACE := 3600

  /** An account's first reference, or a rotation candidate: the reference it replaces with a random token appended. */
  datatype Ref = Original(account: string) | Rotated(base: Ref, token: nat)

  /** What one running rotation still has to do. */
  datatype Rotation =
    | Probing(account: string, key: string, digest: string, prior: Ref)
    | Staged(account: string, key: string, digest: string, prior: Ref, candidate: Ref, stagedAt: int)
    | Aborting(candidate: Ref)
    | Retiring(prior: Ref)
    | Dequeuing(prior: Ref)

  /** What one running cleanup pass has done so far. */
  datatype Pass =
    | Opened(cutoff: int)
    | Guarded(cutoff: int, guarded: set<Ref>)
    | Swept(cutoff: int, guarded: set<Ref>)
    | Picked(cutoff: int, guarded: set<Ref>, picked: set<Ref>)
    | Resolving(cutoff: int, picked: set<Ref>, resolved: set<Ref>)

  /**
   * `active` is each account's reference, `secrets` when each stored secret was written, `queue` when each reference
   * was queued for cleanup. `tokens` and `served` are history: the tokens drawn and the references ever active.
   */
  datatype State = State(
    now: int, active: map<string, Ref>, secrets: map<Ref, int>, queue: map<Ref, int>,
    records: map<(string, string), string>, rotations: map<nat, Rotation>, passes: map<nat, Pass>,
    tokens: set<nat>, served: set<Ref>)

  datatype Action =
    | Tick(to: int)
    | CreateAccount(id: string)
    | Begin(r: nat, account: string, key: string, digest: string)
    | Stage(r: nat, token: nat)
    | Commit(r: nat)
    | DeleteCandidate(r: nat)
    | DeleteOld(r: nat)
    | Dequeue(r: nat)
    | CrashRotation(r: nat)
    | Open(p: nat)
    | Guard(p: nat)
    | Sweep(p: nat, doomed: set<Ref>)
    | Pick(p: nat, chosen: set<Ref>)
    | Clean(p: nat, doomed: set<Ref>)
    | Observe(p: nat, ref: Ref)
    | Clear(p: nat)
    | CrashPass(p: nat)
    | ForgetRecords(scopes: set<(string, string)>)

  /** Candidates a sweep may delete: old enough, not seen active when the pass looked. */
  function Sweepable(s: State, cutoff: int, guarded: set<Ref>): set<Ref> {
    set ref | ref in s.secrets && ref.Rotated? && s.secrets[ref] < cutoff && ref !in guarded
  }

  /** Queued references a pass may pick. */
  function Pickable(s: State, cutoff: int, guarded: set<Ref>): set<Ref> {
    set ref | ref in s.queue && s.queue[ref] < cutoff && ref !in guarded
  }

  /** When a step can be taken, given that no rotation commits more than `delay` seconds after staging its candidate. */
  predicate Enabled(s: State, action: Action, delay: int) {
    match action
    case Tick(to) => s.now <= to
    case CreateAccount(id) => id !in s.active && Original(id) !in s.served
    case Begin(r, account, key, _) => r !in s.rotations && account in s.active && (account, key) !in s.records
    case Stage(r, token) => r in s.rotations && s.rotations[r].Probing? && token !in s.tokens
    case Commit(r) => r in s.rotations && s.rotations[r].Staged? && s.now <= s.rotations[r].stagedAt + delay
    case DeleteCandidate(r) => r in s.rotations && s.rotations[r].Aborting?
    case DeleteOld(r) => r in s.rotations && s.rotations[r].Retiring?
    case Dequeue(r) => r in s.rotations && s.rotations[r].Dequeuing?
    case CrashRotation(r) => r in s.rotations
    case Open(p) => p !in s.passes
    case Guard(p) => p in s.passes && s.passes[p].Opened?
    case Sweep(p, doomed) => p in s.passes && s.passes[p].Guarded?
      && doomed <= Sweepable(s, s.passes[p].cutoff, s.passes[p].guarded)
    case Pick(p, chosen) => p in s.passes && s.passes[p].Swept?
      && chosen <= Pickable(s, s.passes[p].cutoff, s.passes[p].guarded)
    case Clean(p, doomed) => p in s.passes && s.passes[p].Picked?
      && doomed <= s.passes[p].picked - s.passes[p].guarded && doomed <= s.secrets.Keys
    case Observe(p, ref) => p in s.passes && s.passes[p].Resolving? && ref in s.passes[p].picked && ref !in s.secrets
    case Clear(p) => p in s.passes && s.passes[p].Resolving?
    case CrashPass(p) => p in s.passes
    case ForgetRecords(_) => true
  }

  /** What a commit writes: the candidate serves in place of the prior reference, which is queued. */
  function Switched(s: State, r: nat): State
    requires r in s.rotations && s.rotations[r].Staged?
  {
    var x := s.rotations[r];
    s.(active := s.active[x.account := x.candidate],
       queue := if x.prior in s.queue then s.queue else s.queue[x.prior := s.now],
       records := s.records[(x.account, x.key) := x.digest],
       served := s.served + {x.candidate},
       rotations := s.rotations[r := Retiring(x.prior)])
  }

  /** The commit transaction switches only if the request is new and nobody else has rotated since it began. */
  function Committed(s: State, r: nat): State
    requires r in s.rotations && s.rotations[r].Staged?
  {
    var x := s.rotations[r];
    if x.account !in s.active || (x.account, x.key) in s.records || s.active[x.account] != x.prior
    then s.(rotations := s.rotations[r := Aborting(x.candidate)])
    else Switched(s, r)
  }

  /** Closing transaction of a pass: what is resolved leaves the queue, unless it was queued again since. */
  function Cleared(queue: map<Ref, int>, cutoff: int, resolved: set<Ref>): map<Ref, int> {
    queue - set ref | ref in resolved && ref in queue && queue[ref] < cutoff
  }

  function Apply(s: State, action: Action, delay: int): State
    requires Enabled(s, action, delay)
  {
    match action
    case Tick(to) => s.(now := to)
    case CreateAccount(id) =>
      s.(active := s.active[id := Original(id)], secrets := s.secrets[Original(id) := s.now],
          served := s.served + {Original(id)})
    case Begin(r, account, key, digest) =>
      s.(rotations := s.rotations[r := Probing(account, key, digest, s.active[account])])
    case Stage(r, token) =>
      var x := s.rotations[r];
      var candidate := Rotated(x.prior, token);
      s.(secrets := s.secrets[candidate := s.now], tokens := s.tokens + {token},
         rotations := s.rotations[r := Staged(x.account, x.key, x.digest, x.prior, candidate, s.now)])
    case Commit(r) => Committed(s, r)
    case DeleteCandidate(r) => s.(secrets := s.secrets - {s.rotations[r].candidate}, rotations := s.rotations - {r})
    case DeleteOld(r) =>
      s.(secrets := s.secrets - {s.rotations[r].prior}, rotations := s.rotations[r := Dequeuing(s.rotations[r].prior)])
    case Dequeue(r) => s.(queue := s.queue - {s.rotations[r].prior}, rotations := s.rotations - {r})
    case CrashRotation(r) => s.(rotations := s.rotations - {r})
    case Open(p) => s.(passes := s.passes[p := Opened(s.now - GRACE)])
    case Guard(p) => s.(passes := s.passes[p := Guarded(s.passes[p].cutoff, s.active.Values)])
    case Sweep(p, doomed) =>
      s.(secrets := s.secrets - doomed, passes := s.passes[p := Swept(s.passes[p].cutoff, s.passes[p].guarded)])
    case Pick(p, chosen) => s.(passes := s.passes[p := Picked(s.passes[p].cutoff, s.passes[p].guarded, chosen)])
    case Clean(p, doomed) =>
      s.(secrets := s.secrets - doomed,
          passes := s.passes[p := Resolving(s.passes[p].cutoff, s.passes[p].picked, doomed)])
    case Observe(p, ref) =>
      s.(passes := s.passes[p := s.passes[p].(resolved := s.passes[p].resolved + {ref})])
    case Clear(p) => s.(queue := Cleared(s.queue, s.passes[p].cutoff, s.passes[p].resolved), passes := s.passes - {p})
    case CrashPass(p) => s.(passes := s.passes - {p})
    case ForgetRecords(scopes) => s.(records := s.records - scopes)
  }

  function Initial(now: int): State {
    State(now, map[], map[], map[], map[], map[], map[], {}, {})
  }

  /** `actions` is a run from `s` whose every step is enabled. */
  ghost predicate Possible(s: State, actions: seq<Action>, delay: int)
    decreases |actions|
  {
    actions == [] || (Enabled(s, actions[0], delay) && Possible(Apply(s, actions[0], delay), actions[1..], delay))
  }

  ghost function Run(s: State, actions: seq<Action>, delay: int): State
    requires Possible(s, actions, delay)
    decreases |actions|
  {
    if actions == [] then s else Run(Apply(s, actions[0], delay), actions[1..], delay)
  }

  // --- the invariant ---------------------------------------------------------------------------------------

  /** Every account's secret resolves. */
  ghost predicate Available(s: State) {
    forall a :: a in s.active ==> s.active[a] in s.secrets
  }

  ghost predicate Serving(active: map<string, Ref>, ref: Ref) {
    exists a :: a in active && active[a] == ref
  }

  /**
   * A secret that ever served is still serving or queued; any other stored secret is a candidate. Nothing queued
   * serves.
   */
  ghost predicate NothingLost(s: State) {
    && (forall ref :: ref in s.secrets ==>
          if ref in s.served then Serving(s.active, ref) || ref in s.queue else ref.Rotated?)
    && (forall ref :: ref in s.queue ==> ref in s.served && !Serving(s.active, ref))
  }

  ghost predicate References(s: State) {
    && (forall a :: a in s.active ==> s.active[a] in s.served)
    && (forall a, b :: a in s.active && b in s.active && s.active[a] == s.active[b] ==> a == b)
    && (forall ref :: (ref in s.served || ref in s.secrets) && ref.Rotated? ==> ref.token in s.tokens)
    && (forall ref :: ref in s.secrets ==> s.secrets[ref] <= s.now)
  }

  /** What a running rotation can rely on. */
  ghost predicate RotationSound(s: State, x: Rotation) {
    match x
    case Probing(_, _, _, _) => true
    case Staged(_, _, _, _, candidate, stagedAt) =>
      && candidate.Rotated? && candidate !in s.served && candidate.token in s.tokens
      && (candidate in s.secrets ==> s.secrets[candidate] == stagedAt)
    case Aborting(candidate) => candidate.Rotated? && candidate !in s.served && candidate.token in s.tokens
    case Retiring(prior) => prior in s.served && !Serving(s.active, prior)
    case Dequeuing(prior) => prior in s.served && !Serving(s.active, prior) && prior !in s.secrets
  }

  ghost predicate HasCandidate(x: Rotation, ref: Ref) {
    (x.Staged? && x.candidate == ref) || (x.Aborting? && x.candidate == ref)
  }

  ghost predicate Rotations(s: State) {
    && (forall r :: r in s.rotations ==> RotationSound(s, s.rotations[r]))
    && (forall q, r, ref ::
          q in s.rotations && r in s.rotations
          && HasCandidate(s.rotations[q], ref) && HasCandidate(s.rotations[r], ref) ==>
            q == r)
  }

  /** What a running pass can rely on. */
  ghost predicate PassSound(s: State, x: Pass) {
    && x.cutoff <= s.now - GRACE
    && (x.Picked? || x.Resolving? ==> forall ref :: ref in x.picked ==> ref in s.served && !Serving(s.active, ref))
    && (x.Resolving? ==> forall ref :: ref in x.resolved ==> ref in s.served && ref !in s.secrets)
  }

  ghost predicate Passes(s: State) {
    forall p :: p in s.passes ==> PassSound(s, s.passes[p])
  }

  /** What holds however late commits come. */
  ghost predicate Invariant(s: State) {
    NothingLost(s) && References(s) && Rotations(s) && Passes(s)
  }

  /** A staged candidate that may still be committed is stored. */
  ghost predicate StagedStored(s: State, delay: int) {
    forall r :: r in s.rotations && s.rotations[r].Staged? && s.now <= s.rotations[r].stagedAt + delay ==>
      s.rotations[r].candidate in s.secrets
  }

  /** A reference that serves without being guarded by a pass is too young for it. */
  ghost predicate TooYoung(s: State, x: Pass) {
    x.Guarded? || x.Swept? || x.Picked? ==>
      forall ref :: Serving(s.active, ref) && ref !in x.guarded && ref in s.secrets ==> x.cutoff <= s.secrets[ref]
  }

  ghost predicate UnguardedAreYoung(s: State) {
    forall p :: p in s.passes ==> TooYoung(s, s.passes[p])
  }

  /** What keeps every secret available, as long as no commit comes later than the grace period allows. */
  ghost predicate Safe(s: State, delay: int) {
    Available(s) && StagedStored(s, delay) && UnguardedAreYoung(s)
  }

  lemma InitialIsSound(now: int, delay: int)
    ensures Invariant(Initial(now)) && Safe(Initial(now), delay)
  {
  }

  // --- steps of a rotation ---------------------------------------------------------------------------------

  lemma TickKeeps(s: State, to: int, delay: int)
    requires Invariant(s) && s.now <= to
    ensures Invariant(s.(now := to))
    ensures Safe(s, delay) ==> Safe(s.(now := to), delay)
  {
  }

  lemma CreateKeeps(s: State, id: string, delay: int)
    requires Invariant(s) && Enabled(s, CreateAccount(id), delay)
    ensures Invariant(Apply(s, CreateAccount(id), delay))
    ensures Safe(s, delay) ==> Safe(Apply(s, CreateAccount(id), delay), delay)
  {
    CreateKeepsReferences(s, id, delay);
    CreateKeepsRunning(s, id, delay);
    if Safe(s, delay) {
      CreateKeepsSafe(s, id, delay);
    }
    hide Safe, NothingLost, References, Rotations, Passes;
  }

  lemma ServingAfterCreate(s: State, id: string, delay: int)
    requires Invariant(s) && Enabled(s, CreateAccount(id), delay)
    ensures forall ref :: Serving(Apply(s, CreateAccount(id), delay).active, ref)
              <==> Serving(s.active, ref) || ref == Original(id)
    ensures Original(id) !in s.secrets && Original(id) !in s.queue
  {
    hide Rotations, Passes, Serving;
    forall ref
      ensures Serving(Apply(s, CreateAccount(id), delay).active, ref) <==> Serving(s.active, ref) || ref == Original(id)
    {
      ServingAfterSwitch(s.active, id, Original(id), ref);
    }
  }

  lemma CreateKeepsReferences(s: State, id: string, delay: int)
    requires Invariant(s) && Enabled(s, CreateAccount(id), delay)
    ensures var t := Apply(s, CreateAccount(id), delay); NothingLost(t) && References(t)
  {
    ServingAfterCreate(s, id, delay);
    hide Rotations, Passes, Serving;
  }

  lemma CreateKeepsRunning(s: State, id: string, delay: int)
    requires Invariant(s) && Enabled(s, CreateAccount(id), delay)
    ensures var t := Apply(s, CreateAccount(id), delay); Rotations(t) && Passes(t)
  {
    ServingAfterCreate(s, id, delay);
    hide NothingLost, References, Serving;
    var t := Apply(s, CreateAccount(id), delay);
    forall r | r in t.rotations ensures RotationSound(t, t.rotations[r]) {
      assert RotationSound(s, s.rotations[r]);
    }
    forall p | p in t.passes ensures PassSound(t, t.passes[p]) {
      assert PassSound(s, s.passes[p]);
    }
  }

  lemma CreateKeepsSafe(s: State, id: string, delay: int)
    requires Invariant(s) && Safe(s, delay) && Enabled(s, CreateAccount(id), delay)
    ensures Safe(Apply(s, CreateAccount(id), delay), delay)
  {
    ServingAfterCreate(s, id, delay);
    hide NothingLost, References, Rotations, Serving;
    var t := Apply(s, CreateAccount(id), delay);
    forall p | p in t.passes ensures TooYoung(t, t.passes[p]) {
      assert PassSound(s, s.passes[p]) && TooYoung(s, s.passes[p]);
    }
  }

  /** Giving one account another reference changes what serves by exactly the two references. */
  lemma ServingAfterSwitch(active: map<string, Ref>, a: string, candidate: Ref, ref: Ref)
    requires forall a, b :: a in active && b in active && active[a] == active[b] ==> a == b
    ensures Serving(active[a := candidate], ref) <==>
              (Serving(active, ref) && !(a in active && active[a] == ref)) || ref == candidate
  {
    var active' := active[a := candidate];
    if Serving(active', ref) {
      var b :| b in active' && active'[b] == ref;
      assert b != a ==> b in active && active[b] == ref;
    }
    if Serving(active, ref) && !(a in active && active[a] == ref) {
      var b :| b in active && active[b] == ref;
      assert b in active' && active'[b] == ref;
    }
    assert a in active' && active'[a] == candidate;
  }

  lemma BeginKeeps(s: State, r: nat, account: string, key: string, digest: string, delay: int)
    requires Invariant(s) && Enabled(s, Begin(r, account, key, digest), delay)
    ensures Invariant(Apply(s, Begin(r, account, key, digest), delay))
    ensures Safe(s, delay) ==> Safe(Apply(s, Begin(r, account, key, digest), delay), delay)
  {
  }

  lemma StageKeeps(s: State, r: nat, token: nat, delay: int)
    requires Invariant(s) && Enabled(s, Stage(r, token), delay)
    ensures Invariant(Apply(s, Stage(r, token), delay))
  {
  }

  lemma StageKeepsSafe(s: State, r: nat, token: nat, delay: int)
    requires Invariant(s) && Safe(s, delay) && Enabled(s, Stage(r, token), delay)
    ensures Safe(Apply(s, Stage(r, token), delay), delay)
  {
    hide NothingLost;
    var t := Apply(s, Stage(r, token), delay);
    var candidate := Rotated(s.rotations[r].prior, token);
    assert candidate !in s.served && candidate !in s.secrets;
    forall p | p in t.passes ensures TooYoung(t, t.passes[p]) {
      assert TooYoung(s, s.passes[p]);
    }
  }

  /** A commit that is refused, because the request was answered already or somebody else rotated first. */
  lemma RefusedCommitKeeps(s: State, r: nat, delay: int)
    requires Invariant(s) && r in s.rotations && s.rotations[r].Staged?
    ensures var t := s.(rotations := s.rotations[r := Aborting(s.rotations[r].candidate)]);
            Invariant(t) && (Safe(s, delay) ==> Safe(t, delay))
  {
    assert HasCandidate(s.rotations[r], s.rotations[r].candidate);
  }

  predicate CanSwitch(s: State, r: nat) {
    && r in s.rotations && s.rotations[r].Staged?
    && var x := s.rotations[r]; x.account in s.active && s.active[x.account] == x.prior
  }

  lemma ServingAfterCommit(s: State, r: nat)
    requires Invariant(s) && CanSwitch(s, r)
    ensures var x := s.rotations[r];
            forall ref :: Serving(Switched(s, r).active, ref)
                <==> (Serving(s.active, ref) && ref != x.prior) || ref == x.candidate
    ensures var x := s.rotations[r];
            && x.prior in s.served && Serving(s.active, x.prior) && x.candidate !in s.served && x.candidate.Rotated?
            && (x.candidate in s.secrets ==> s.secrets[x.candidate] == x.stagedAt)
  {
    var x := s.rotations[r];
    RotationIsSound(s, r);
    hide Rotations, Passes, NothingLost;
    assert Serving(s.active, x.prior);
    hide Serving;
    forall ref
      ensures Serving(Switched(s, r).active, ref) <==> (Serving(s.active, ref) && ref != x.prior) || ref == x.candidate
    {
      ServingAfterSwitch(s.active, x.account, x.candidate, ref);
    }
  }

  lemma SwitchKeepsReferences(s: State, r: nat)
    requires Invariant(s) && CanSwitch(s, r)
    ensures NothingLost(Switched(s, r)) && References(Switched(s, r))
  {
    hide Rotations, Passes;
    ServingAfterCommit(s, r);
    assert RotationSound(s, s.rotations[r]) by { RotationIsSound(s, r); }
  }

  lemma RotationIsSound(s: State, r: nat)
    requires Rotations(s) && r in s.rotations
    ensures RotationSound(s, s.rotations[r])
  {
  }

  lemma SwitchKeepsRotations(s: State, r: nat)
    requires Invariant(s) && CanSwitch(s, r)
    ensures Rotations(Switched(s, r))
  {
    hide Passes, NothingLost, Serving;
    ServingAfterCommit(s, r);
    var x, t := s.rotations[r], Switched(s, r);
    assert HasCandidate(x, x.candidate);
    forall q | q in t.rotations ensures RotationSound(t, t.rotations[q]) {
      if q != r {
        assert RotationSound(s, s.rotations[q]);
        assert HasCandidate(s.rotations[q], x.candidate) ==> q == r;
      }
    }
  }

  lemma SwitchKeepsPasses(s: State, r: nat)
    requires Invariant(s) && CanSwitch(s, r)
    ensures Passes(Switched(s, r))
  {
    hide Rotations, NothingLost, References, Serving;
    ServingAfterCommit(s, r);
    var t := Switched(s, r);
    forall p | p in t.passes ensures PassSound(t, t.passes[p]) {
      assert PassSound(s, s.passes[p]);
    }
  }

  /** The one step that needs the grace period: a candidate that comes to serve is too young for every running pass. */
  lemma SwitchKeepsSafe(s: State, r: nat, delay: int)
    requires Invariant(s) && Safe(s, delay) && CanSwitch(s, r) && delay <= GRACE
    requires s.now <= s.rotations[r].stagedAt + delay
    ensures Safe(Switched(s, r), delay)
  {
    hide Rotations, NothingLost, References, Serving;
    ServingAfterCommit(s, r);
    var t := Switched(s, r);
    forall p | p in t.passes ensures TooYoung(t, t.passes[p]) {
      assert PassSound(s, s.passes[p]) && TooYoung(s, s.passes[p]);
    }
  }

  /**
   * The compare-and-swap commit, however late, loses nothing; within the grace period it keeps every secret available.
   */
  lemma CommitKeeps(s: State, r: nat, delay: int)
    requires Invariant(s) && Enabled(s, Commit(r), delay)
    ensures Invariant(Apply(s, Commit(r), delay))
    ensures Safe(s, delay) && delay <= GRACE ==> Safe(Apply(s, Commit(r), delay), delay)
  {
    var x := s.rotations[r];
    if x.account !in s.active || (x.account, x.key) in s.records || s.active[x.account] != x.prior {
      RefusedCommitKeeps(s, r, delay);
    } else {
      SwitchKeepsReferences(s, r);
      SwitchKeepsRotations(s, r);
      SwitchKeepsPasses(s, r);
      if Safe(s, delay) && delay <= GRACE {
        SwitchKeepsSafe(s, r, delay);
      }
    }
    hide Safe, NothingLost, References, Rotations, Passes;
  }

  lemma DeleteCandidateKeeps(s: State, r: nat, delay: int)
    requires Invariant(s) && Enabled(s, DeleteCandidate(r), delay)
    ensures Invariant(Apply(s, DeleteCandidate(r), delay))
  {
    assert HasCandidate(s.rotations[r], s.rotations[r].candidate);
  }

  lemma DeleteCandidateKeepsSafe(s: State, r: nat, delay: int)
    requires Invariant(s) && Safe(s, delay) && Enabled(s, DeleteCandidate(r), delay)
    ensures Safe(Apply(s, DeleteCandidate(r), delay), delay)
  {
    hide NothingLost, Passes;
    RotationIsSound(s, r);
    assert HasCandidate(s.rotations[r], s.rotations[r].candidate);
    forall q | q in s.rotations && s.rotations[q].Staged? && q != r
      ensures s.rotations[q].candidate != s.rotations[r].candidate
    {
      assert HasCandidate(s.rotations[q], s.rotations[q].candidate);
    }
  }

  lemma DeleteOldKeeps(s: State, r: nat, delay: int)
    requires Invariant(s) && Enabled(s, DeleteOld(r), delay)
    ensures Invariant(Apply(s, DeleteOld(r), delay))
  {
  }

  lemma DeleteOldKeepsSafe(s: State, r: nat, delay: int)
    requires Invariant(s) && Safe(s, delay) && Enabled(s, DeleteOld(r), delay)
    ensures Safe(Apply(s, DeleteOld(r), delay), delay)
  {
    hide NothingLost, References, Passes;
    RotationIsSound(s, r);
    assert forall a :: a in s.active ==> Serving(s.active, s.active[a]);
    forall q | q in s.rotations && s.rotations[q].Staged? ensures s.rotations[q].candidate != s.rotations[r].prior {
      RotationIsSound(s, q);
    }
  }

  lemma DequeueKeeps(s: State, r: nat, delay: int)
    requires Invariant(s) && Enabled(s, Dequeue(r), delay)
    ensures Invariant(Apply(s, Dequeue(r), delay))
    ensures Safe(s, delay) ==> Safe(Apply(s, Dequeue(r), delay), delay)
  {
  }

  lemma CrashKeeps(s: State, r: nat, p: nat, delay: int)
    requires Invariant(s)
    ensures Invariant(s.(rotations := s.rotations - {r})) && Invariant(s.(passes := s.passes - {p}))
    ensures Safe(s, delay) ==>
              Safe(s.(rotations := s.rotations - {r}), delay) && Safe(s.(passes := s.passes - {p}), delay)
  {
  }

  // --- steps of a cleanup pass -----------------------------------------------------------------------------

  lemma GuardKeeps(s: State, p: nat, delay: int)
    requires Invariant(s) && Enabled(s, Guard(p), delay)
    ensures Invariant(Apply(s, Guard(p), delay))
    ensures Safe(s, delay) ==> Safe(Apply(s, Guard(p), delay), delay)
  {
    assert forall ref :: Serving(s.active, ref) <==> ref in s.active.Values;
  }

  /** Deleting candidates loses nothing; it hits none that serves if all that serve unguarded are too young. */
  lemma SweepKeeps(s: State, p: nat, doomed: set<Ref>, delay: int)
    requires Invariant(s) && Enabled(s, Sweep(p, doomed), delay)
    ensures Invariant(Apply(s, Sweep(p, doomed), delay))
    ensures Safe(s, delay) && delay <= GRACE ==> Safe(Apply(s, Sweep(p, doomed), delay), delay)
  {
    if Safe(s, delay) && delay <= GRACE {
      SweepKeepsSafe(s, p, doomed, delay);
    }
    hide Safe;
  }

  lemma SweepKeepsSafe(s: State, p: nat, doomed: set<Ref>, delay: int)
    requires Invariant(s) && Safe(s, delay) && Enabled(s, Sweep(p, doomed), delay) && delay <= GRACE
    ensures Safe(Apply(s, Sweep(p, doomed), delay), delay)
  {
    hide NothingLost, References;
    assert TooYoung(s, s.passes[p]) && PassSound(s, s.passes[p]);
    assert forall a :: a in s.active ==> Serving(s.active, s.active[a]);
    forall r | r in s.rotations && s.rotations[r].Staged? && s.now <= s.rotations[r].stagedAt + delay
      ensures s.rotations[r].candidate !in doomed
    {
      RotationIsSound(s, r);
    }
  }

  lemma PickKeeps(s: State, p: nat, chosen: set<Ref>, delay: int)
    requires Invariant(s) && Enabled(s, Pick(p, chosen), delay)
    ensures Invariant(Apply(s, Pick(p, chosen), delay))
    ensures Safe(s, delay) ==> Safe(Apply(s, Pick(p, chosen), delay), delay)
  {
  }

  lemma CleanKeeps(s: State, p: nat, doomed: set<Ref>, delay: int)
    requires Invariant(s) && Enabled(s, Clean(p, doomed), delay)
    ensures Invariant(Apply(s, Clean(p, doomed), delay))
  {
  }

  lemma CleanKeepsSafe(s: State, p: nat, doomed: set<Ref>, delay: int)
    requires Invariant(s) && Safe(s, delay) && Enabled(s, Clean(p, doomed), delay)
    ensures Safe(Apply(s, Clean(p, doomed), delay), delay)
  {
    hide NothingLost, References;
    assert PassSound(s, s.passes[p]);
    assert forall a :: a in s.active ==> Serving(s.active, s.active[a]);
    forall r | r in s.rotations && s.rotations[r].Staged? ensures s.rotations[r].candidate !in doomed {
      RotationIsSound(s, r);
    }
  }

  lemma ObserveKeeps(s: State, p: nat, ref: Ref, delay: int)
    requires Invariant(s) && Enabled(s, Observe(p, ref), delay)
    ensures Invariant(Apply(s, Observe(p, ref), delay))
    ensures Safe(s, delay) ==> Safe(Apply(s, Observe(p, ref), delay), delay)
  {
  }

  lemma ClearKeeps(s: State, p: nat, delay: int)
    requires Invariant(s) && Enabled(s, Clear(p), delay)
    ensures Invariant(Apply(s, Clear(p), delay))
    ensures Safe(s, delay) ==> Safe(Apply(s, Clear(p), delay), delay)
  {
  }

  // --- runs ------------------------------------------------------------------------------------------------

  lemma OpenKeeps(s: State, p: nat, delay: int)
    requires Invariant(s) && p !in s.passes
    ensures Invariant(Apply(s, Open(p), delay))
    ensures Safe(s, delay) ==> Safe(Apply(s, Open(p), delay), delay)
  {
  }

  lemma ForgettingKeeps(s: State, scopes: set<(string, string)>, delay: int)
    requires Invariant(s)
    ensures Invariant(Apply(s, ForgetRecords(scopes), delay))
    ensures Safe(s, delay) ==> Safe(Apply(s, ForgetRecords(scopes), delay), delay)
  {
  }

  lemma ApplyKeeps(s: State, action: Action, delay: int)
    requires Invariant(s) && Enabled(s, action, delay)
    ensures Invariant(Apply(s, action, delay))
    ensures Safe(s, delay) && delay <= GRACE ==> Safe(Apply(s, action, delay), delay)
  {
    hide Invariant, Safe;
    match action
    case Tick(to) => TickKeeps(s, to, delay);
    case CreateAccount(id) => CreateKeeps(s, id, delay);
    case Begin(r, account, key, digest) => BeginKeeps(s, r, account, key, digest, delay);
    case Stage(r, token) =>
      StageKeeps(s, r, token, delay);
      if Safe(s, delay) { StageKeepsSafe(s, r, token, delay); }
    case Commit(r) => CommitKeeps(s, r, delay);
    case DeleteCandidate(r) =>
      DeleteCandidateKeeps(s, r, delay);
      if Safe(s, delay) { DeleteCandidateKeepsSafe(s, r, delay); }
    case DeleteOld(r) =>
      DeleteOldKeeps(s, r, delay);
      if Safe(s, delay) { DeleteOldKeepsSafe(s, r, delay); }
    case Dequeue(r) => DequeueKeeps(s, r, delay);
    case CrashRotation(r) => CrashKeeps(s, r, 0, delay);
    case Open(p) => OpenKeeps(s, p, delay);
    case Guard(p) => GuardKeeps(s, p, delay);
    case Sweep(p, doomed) => SweepKeeps(s, p, doomed, delay);
    case Pick(p, chosen) => PickKeeps(s, p, chosen, delay);
    case Clean(p, doomed) =>
      CleanKeeps(s, p, doomed, delay);
      if Safe(s, delay) { CleanKeepsSafe(s, p, doomed, delay); }
    case Observe(p, ref) => ObserveKeeps(s, p, ref, delay);
    case Clear(p) => ClearKeeps(s, p, delay);
    case CrashPass(p) => CrashKeeps(s, 0, p, delay);
    case ForgetRecords(scopes) => ForgettingKeeps(s, scopes, delay);
  }

  lemma {:induction false} RunKeeps(s: State, actions: seq<Action>, delay: int)
    requires Invariant(s) && Possible(s, actions, delay)
    ensures Invariant(Run(s, actions, delay))
    ensures Safe(s, delay) && delay <= GRACE ==> Safe(Run(s, actions, delay), delay)
    decreases |actions|
  {
    hide Invariant, Safe, Apply, Enabled;
    if actions != [] {
      ApplyKeeps(s, actions[0], delay);
      RunKeeps(Apply(s, actions[0], delay), actions[1..], delay);
    }
  }

  /**
   * Every run from an empty store in which no commit trails its staging by more than `delay` keeps all secrets
   * available.
   */
  ghost predicate AlwaysAvailable(delay: int) {
    forall now, actions :: Possible(Initial(now), actions, delay) ==> Available(Run(Initial(now), actions, delay))
  }

  /**
   * Availability: however rotations and cleanup interleave and crash, every account's reference resolves as long as
   * commits follow their staging within the grace period, and this is the exact bound.
   */
  lemma AvailableExactlyWithinGrace(delay: int)
    ensures AlwaysAvailable(delay) <==> delay <= GRACE
  {
    if delay <= GRACE {
      hide Run, Possible;
      forall now, actions | Possible(Initial(now), actions, delay)
        ensures Available(Run(Initial(now), actions, delay))
      {
        InitialIsSound(now, delay);
        RunKeeps(Initial(now), actions, delay);
      }
    } else {
      LateCommitLosesSecret(delay);
    }
  }

  /** The run that shows it: the pass looks before the late commit and deletes after it. */
  function LateCommit(): seq<Action> {
    [CreateAccount("a"), Begin(0, "a", "k", "d"), Stage(0, 0), Tick(GRACE + 1), Open(0), Guard(0), Commit(0),
     Sweep(0, {Rotated(Original("a"), 0)})]
  }

  lemma OneStep(s: State, actions: seq<Action>, delay: int)
    requires actions != [] && Enabled(s, actions[0], delay)
              && Possible(Apply(s, actions[0], delay), actions[1..], delay)
    ensures Possible(s, actions, delay)
              && Run(s, actions, delay) == Run(Apply(s, actions[0], delay), actions[1..], delay)
  {
  }

  /** The state before the last step of that run. */
  function BeforeSweep(): State {
    var first, candidate := Original("a"), Rotated(Original("a"), 0);
    State(GRACE + 1, map["a" := candidate], map[first := 0, candidate := 0], map[first := GRACE + 1],
        map[("a", "k") := "d"],
          map[0 := Retiring(first)], map[0 := Guarded(1, {first})], {0}, {first, candidate})
  }

  lemma LateCommitReaches(delay: int)
    requires delay > GRACE
    ensures Possible(Initial(0), LateCommit()[..7], delay) && Run(Initial(0), LateCommit()[..7], delay) == BeforeSweep()
  {
    var s0, steps := Initial(0), LateCommit()[..7];
    var first, candidate := Original("a"), Rotated(Original("a"), 0);
    var s1 := State(0, map["a" := first], map[first := 0], map[], map[], map[], map[], {}, {first});
    var s2 := s1.(rotations := map[0 := Probing("a", "k", "d", first)]);
    var s3 := s2.(secrets := map[first := 0, candidate := 0], tokens := {0},
        rotations := map[0 := Staged("a", "k", "d", first, candidate, 0)]);
    var s4 := s3.(now := GRACE + 1);
    var s5 := s4.(passes := map[0 := Opened(1)]);
    var s6 := s5.(passes := map[0 := Guarded(1, {first})]);
    assert s1 == Apply(s0, steps[0], delay);
    assert s2 == Apply(s1, steps[1], delay);
    assert s3 == Apply(s2, steps[2], delay);
    assert s4 == Apply(s3, steps[3], delay);
    assert s5 == Apply(s4, steps[4], delay);
    assert s5.active.Values == {first} by {
      assert s5.active["a"] == first;
    }
    assert s6 == Apply(s5, steps[5], delay);
    assert BeforeSweep() == Apply(s6, steps[6], delay);
    hide Apply, Enabled;
    var end: seq<Action> := [];
    assert steps[7..] == end && Possible(BeforeSweep(), end, delay) && Run(BeforeSweep(), end, delay) == BeforeSweep();
    assert forall i :: 0 <= i < 7 ==> steps[i..][1..] == steps[i + 1..];
    OneStep(s6, steps[6..], delay);
    OneStep(s5, steps[5..], delay);
    OneStep(s4, steps[4..], delay);
    OneStep(s3, steps[3..], delay);
    OneStep(s2, steps[2..], delay);
    OneStep(s1, steps[1..], delay);
    OneStep(s0, steps, delay);
  }

  lemma {:induction false} RunAppends(s: State, actions: seq<Action>, last: Action, delay: int)
    requires Possible(s, actions, delay) && Enabled(Run(s, actions, delay), last, delay)
    ensures Possible(s, actions + [last], delay)
    ensures Run(s, actions + [last], delay) == Apply(Run(s, actions, delay), last, delay)
    decreases |actions|
  {
    hide Apply, Enabled;
    if actions == [] {
      assert actions + [last] == [last];
      var end: seq<Action> := [];
      assert [last][1..] == end;
      OneStep(s, [last], delay);
    } else {
      assert (actions + [last])[1..] == actions[1..] + [last];
      RunAppends(Apply(s, actions[0], delay), actions[1..], last, delay);
      OneStep(s, actions + [last], delay);
    }
  }

  lemma SweepLosesSecret(delay: int)
    ensures var sweep := Sweep(0, {Rotated(Original("a"), 0)});
            Enabled(BeforeSweep(), sweep, delay) && !Available(Apply(BeforeSweep(), sweep, delay))
  {
    var candidate := Rotated(Original("a"), 0);
    assert candidate in Sweepable(BeforeSweep(), 1, {Original("a")});
    assert "a" in BeforeSweep().active;
  }

  lemma LateCommitLosesSecret(delay: int)
    requires delay > GRACE
    ensures Possible(Initial(0), LateCommit(), delay) && !Available(Run(Initial(0), LateCommit(), delay))
  {
    var sweep := Sweep(0, {Rotated(Original("a"), 0)});
    assert |LateCommit()| == 8 && LateCommit()[7] == sweep;
    assert LateCommit() == LateCommit()[..7] + [sweep];
    hide Possible, Run, Enabled, Apply, Available, BeforeSweep, LateCommit;
    LateCommitReaches(delay);
    SweepLosesSecret(delay);
    RunAppends(Initial(0), LateCommit()[..7], sweep, delay);
  }

  // --- nothing is lost -------------------------------------------------------------------------------------

  /**
   * In every reachable state, however late commits come, a stored secret is some account's active one, queued for
   * cleanup, or a candidate that has never served (which the sweep recognises by its name); and nothing queued is
   * active.
   */
  lemma NoSecretLost(now: int, actions: seq<Action>, delay: int, ref: Ref)
    requires Possible(Initial(now), actions, delay)
    ensures var s := Run(Initial(now), actions, delay);
            && (ref in s.secrets ==> Serving(s.active, ref) || ref in s.queue || (ref.Rotated? && ref !in s.served))
            && (ref in s.queue ==> !Serving(s.active, ref))
  {
    hide Run, Possible;
    InitialIsSound(now, delay);
    RunKeeps(Initial(now), actions, delay);
  }

  /** A queue entry leaves the queue only once its secret is gone, again however late commits come. */
  lemma LeavesQueueOnlyWhenGone(now: int, actions: seq<Action>, delay: int, action: Action, ref: Ref)
    requires Possible(Initial(now), actions, delay)
    requires Enabled(Run(Initial(now), actions, delay), action, delay)
    ensures var s := Run(Initial(now), actions, delay);
            ref in s.queue && ref !in Apply(s, action, delay).queue ==> ref !in s.secrets
  {
    InitialIsSound(now, delay);
    RunKeeps(Initial(now), actions, delay);
    var s := Run(Initial(now), actions, delay);
    hide Run, Possible, Safe, NothingLost, References;
    match action
    case Dequeue(r) => RotationIsSound(s, r);
    case Clear(p) => assert PassSound(s, s.passes[p]);
    case _ =>
  }

  /** A request commits at most once while its record is kept. */
  lemma RecordedRequestCannotCommit(s: State, r: nat, delay: int)
    requires Enabled(s, Commit(r), delay) && (s.rotations[r].account, s.rotations[r].key) in s.records
    ensures Apply(s, Commit(r), delay).active == s.active && Apply(s, Commit(r), delay).queue == s.queue
  {
  }

  // --- cleanup converges -----------------------------------------------------------------------------------

  lemma {:induction false} RunConcat(s: State, first: seq<Action>, second: seq<Action>, delay: int)
    requires Possible(s, first, delay) && Possible(Run(s, first, delay), second, delay)
    ensures Possible(s, first + second, delay)
    ensures Run(s, first + second, delay) == Run(Run(s, first, delay), second, delay)
    decreases |first|
  {
    hide Apply, Enabled;
    if first == [] {
      assert first + second == second;
    } else {
      assert (first + second)[1..] == first[1..] + second;
      RunConcat(Apply(s, first[0], delay), first[1..], second, delay);
      OneStep(s, first + second, delay);
    }
  }

  function Observes(p: nat, refs: seq<Ref>): seq<Action> {
    if refs == [] then [] else [Observe(p, refs[0])] + Observes(p, refs[1..])
  }

  /** A pass finds out about picked references whose secrets are gone, in any order. */
  lemma {:induction false} ObservesAll(s: State, p: nat, refs: seq<Ref>, delay: int)
    requires p in s.passes && s.passes[p].Resolving?
    requires forall ref :: ref in refs ==> ref in s.passes[p].picked && ref !in s.secrets
    ensures Possible(s, Observes(p, refs), delay)
    ensures Run(s, Observes(p, refs), delay)
         == s.(passes := s.passes[p := s.passes[p].(resolved := s.passes[p].resolved + set ref | ref in refs)])
    decreases |refs|
  {
    var x := s.passes[p];
    if refs == [] {
      assert x.resolved + (set ref | ref in refs) == x.resolved && s.passes == s.passes[p := x];
    } else {
      var t := Apply(s, Observe(p, refs[0]), delay);
      ObservesAll(t, p, refs[1..], delay);
      assert refs == [refs[0]] + refs[1..];
      assert x.resolved + {refs[0]} + (set ref | ref in refs[1..]) == x.resolved + set ref | ref in refs;
      assert Observes(p, refs)[1..] == Observes(p, refs[1..]);
      OneStep(s, Observes(p, refs), delay);
    }
  }

  /** Opening a pass and looking which references are active. */
  lemma Looks(s: State, p: nat, delay: int)
    requires p !in s.passes
    ensures var t := s.(passes := s.passes[p := Guarded(s.now - GRACE, s.active.Values)]);
            Possible(s, [Open(p), Guard(p)], delay) && Run(s, [Open(p), Guard(p)], delay) == t
  {
    var t := s.(passes := s.passes[p := Guarded(s.now - GRACE, s.active.Values)]);
    var u := Apply(s, Open(p), delay);
    assert u.passes[p := Guarded(s.now - GRACE, s.active.Values)] == t.passes;
    assert Apply(u, Guard(p), delay) == t;
    Steps2(s, Open(p), Guard(p), delay);
  }

  lemma Steps2(s: State, first: Action, second: Action, delay: int)
    requires Enabled(s, first, delay) && Enabled(Apply(s, first, delay), second, delay)
    ensures Possible(s, [first, second], delay)
    ensures Run(s, [first, second], delay) == Apply(Apply(s, first, delay), second, delay)
  {
    hide Enabled, Apply;
    var end: seq<Action> := [];
    assert [second][1..] == end && [first, second][1..] == [second];
    OneStep(Apply(s, first, delay), [second], delay);
    OneStep(s, [first, second], delay);
  }

  /** Sweeping all it may, then picking all it may. */
  lemma SweepsAndPicks(s: State, p: nat, delay: int)
    requires p in s.passes && s.passes[p].Guarded?
    ensures var cutoff, guarded := s.passes[p].cutoff, s.passes[p].guarded;
            var candidates, picked := Sweepable(s, cutoff, guarded), Pickable(s, cutoff, guarded);
            && Possible(s, [Sweep(p, candidates), Pick(p, picked)], delay)
            && Run(s, [Sweep(p, candidates), Pick(p, picked)], delay)
               == s.(secrets := s.secrets - candidates, passes := s.passes[p := Picked(cutoff, guarded, picked)])
  {
    var cutoff, guarded := s.passes[p].cutoff, s.passes[p].guarded;
    var candidates, picked := Sweepable(s, cutoff, guarded), Pickable(s, cutoff, guarded);
    var u := Apply(s, Sweep(p, candidates), delay);
    assert u == s.(secrets := s.secrets - candidates, passes := s.passes[p := Swept(cutoff, guarded)]);
    assert Pickable(u, cutoff, guarded) == picked;
    assert u.passes[p := Picked(cutoff, guarded, picked)] == s.passes[p := Picked(cutoff, guarded, picked)];
    Steps2(s, Sweep(p, candidates), Pick(p, picked), delay);
  }

  /** What a pass does that sweeps, picks and cleans all it may; `observed` is what it also finds to be gone. */
  function ThoroughPass(s: State, p: nat, observed: seq<Ref>): seq<Action> {
    var cutoff, guarded := s.now - GRACE, s.active.Values;
    var candidates, picked := Sweepable(s, cutoff, guarded), Pickable(s, cutoff, guarded);
    [Open(p), Guard(p)] + [Sweep(p, candidates), Pick(p, picked)]
    + [Clean(p, (picked - guarded) * (s.secrets - candidates).Keys)] + Observes(p, observed) + [Clear(p)]
  }

  lemma UpToCleaning(s: State, p: nat, delay: int)
    requires p !in s.passes
    ensures var cutoff, guarded := s.now - GRACE, s.active.Values;
            var candidates, picked := Sweepable(s, cutoff, guarded), Pickable(s, cutoff, guarded);
            var doomed := (picked - guarded) * (s.secrets - candidates).Keys;
            var actions := [Open(p), Guard(p)] + [Sweep(p, candidates), Pick(p, picked)] + [Clean(p, doomed)];
            && Possible(s, actions, delay)
            && Run(s, actions, delay)
               == s.(secrets := s.secrets - candidates - doomed,
                   passes := s.passes[p := Resolving(cutoff, picked, doomed)])
  {
    hide Run, Possible;
    Looks(s, p, delay);
    var s2 := Run(s, [Open(p), Guard(p)], delay);
    SweepsAndPicks(s2, p, delay);
    var x := s2.passes[p];
    assert Sweepable(s2, x.cutoff, x.guarded) == Sweepable(s, x.cutoff, x.guarded);
    assert Pickable(s2, x.cutoff, x.guarded) == Pickable(s, x.cutoff, x.guarded);
    var candidates, picked := Sweepable(s, x.cutoff, x.guarded), Pickable(s, x.cutoff, x.guarded);
    var sweeping := [Sweep(p, candidates), Pick(p, picked)];
    RunConcat(s, [Open(p), Guard(p)], sweeping, delay);
    var s4, steps4 := Run(s2, sweeping, delay), [Open(p), Guard(p)] + sweeping;
    var doomed := (picked - x.guarded) * (s.secrets - candidates).Keys;
    RunAppends(s, steps4, Clean(p, doomed), delay);
    assert s4.passes[p := Resolving(x.cutoff, picked, doomed)] == s.passes[p := Resolving(x.cutoff, picked, doomed)];
  }

  /**
   * Whatever rotations and passes did before, crashed or came late, once everything stored or queued is older than the
   * grace period every pass that sweeps, picks and cleans all it may leaves of what is stored exactly the active
   * secrets; and it leaves an empty queue if and only if it also finds out about every queued reference whose secret
   * was gone before the cleaning.
   */
  lemma PassCollectsAll(now: int, before: seq<Action>, p: nat, observed: seq<Ref>, delay: int)
    requires Possible(Initial(now), before, delay)
    requires var s := Run(Initial(now), before, delay);
             && p !in s.passes
             && (forall ref :: ref in s.secrets ==> s.secrets[ref] < s.now - GRACE)
             && (forall ref :: ref in s.queue ==> s.queue[ref] < s.now - GRACE)
             && (forall ref :: ref in observed ==> ref in s.queue)
    ensures var s := Run(Initial(now), before, delay);
            && Possible(s, ThoroughPass(s, p, observed), delay)
            && var t := Run(s, ThoroughPass(s, p, observed), delay);
              && t.active == s.active && t.secrets.Keys == s.active.Values * s.secrets.Keys
              && (delay <= GRACE ==> t.secrets.Keys == s.active.Values)
              && (t.queue == map[] <==>
                  forall ref :: ref in s.queue && (ref !in s.secrets || ref.Rotated?) ==> ref in observed)
  {
    InitialIsSound(now, delay);
    RunKeeps(Initial(now), before, delay);
    var s := Run(Initial(now), before, delay);
    hide Run, Possible, Invariant, NothingLost;
    ThoroughPassCollects(s, p, observed, delay);
    if delay <= GRACE {
      hide StagedStored, UnguardedAreYoung;
      assert s.active.Values * s.secrets.Keys == s.active.Values;
    }
  }

  lemma ThoroughPassCollects(s: State, p: nat, observed: seq<Ref>, delay: int)
    requires Invariant(s) && p !in s.passes
    requires forall ref :: ref in s.secrets ==> s.secrets[ref] < s.now - GRACE
    requires forall ref :: ref in s.queue ==> s.queue[ref] < s.now - GRACE
    requires forall ref :: ref in observed ==> ref in s.queue
    ensures Possible(s, ThoroughPass(s, p, observed), delay)
    ensures var t := Run(s, ThoroughPass(s, p, observed), delay);
            && t.secrets.Keys == s.active.Values * s.secrets.Keys && t.active == s.active
            && (t.queue == map[] <==> forall ref :: ref in s.queue && (ref !in s.secrets || ref.Rotated?) ==>
                ref in observed)
  {
    hide Run, Possible, Rotations, Passes, References, Invariant;
    var cutoff, guarded := s.now - GRACE, s.active.Values;
    var candidates, picked := Sweepable(s, cutoff, guarded), Pickable(s, cutoff, guarded);
    var doomed := (picked - guarded) * (s.secrets - candidates).Keys;
    UpToCleaning(s, p, delay);
    QueueIsPicked(s, guarded, picked);
    var start := [Open(p), Guard(p)] + [Sweep(p, candidates), Pick(p, picked)] + [Clean(p, doomed)];
    var s5 := Run(s, start, delay);
    ObservesAll(s5, p, observed, delay);
    RunConcat(s, start, Observes(p, observed), delay);
    var s6 := Run(s5, Observes(p, observed), delay);
    RunAppends(s, start + Observes(p, observed), Clear(p), delay);
    var t := Apply(s6, Clear(p), delay);
    assert t.queue == s.queue - set ref | ref in doomed + (set ref | ref in observed) && ref in s.queue;
    LeftInQueue(s, candidates, doomed, observed, t.queue);
    OnlyActiveLeft(s, t.secrets);
  }

  lemma QueueIsPicked(s: State, guarded: set<Ref>, picked: set<Ref>)
    requires Invariant(s) && guarded == s.active.Values && picked == Pickable(s, s.now - GRACE, guarded)
    requires forall ref :: ref in s.queue ==> s.queue[ref] < s.now - GRACE
    ensures picked == s.queue.Keys && picked - guarded == picked
  {
    hide Rotations, Passes, References;
    QueuedAreRetired(s, guarded);
  }

  lemma LeftInQueue(s: State, candidates: set<Ref>, doomed: set<Ref>, observed: seq<Ref>, queue: map<Ref, int>)
    requires forall ref :: ref in s.queue ==> (ref in candidates <==> ref in s.secrets && ref.Rotated?)
    requires doomed == s.queue.Keys * (s.secrets - candidates).Keys
    requires queue == s.queue - set ref | ref in doomed + (set ref | ref in observed) && ref in s.queue
    ensures queue == map[] <==> forall ref :: ref in s.queue && (ref !in s.secrets || ref.Rotated?) ==> ref in observed
  {
    if ref :| ref in s.queue && (ref !in s.secrets || ref.Rotated?) && ref !in observed {
      assert ref in queue;
    } else {
      assert forall ref :: ref !in queue;
    }
  }

  lemma QueuedAreRetired(s: State, guarded: set<Ref>)
    requires NothingLost(s) && guarded == s.active.Values
    ensures forall ref :: ref in s.queue ==> ref !in guarded
  {
    assert forall ref :: Serving(s.active, ref) <==> ref in s.active.Values;
  }

  lemma OnlyActiveLeft(s: State, secrets: map<Ref, int>)
    requires Invariant(s)
    requires forall ref :: ref in secrets
              <==> ref in s.secrets && ref !in s.queue && (ref.Rotated? ==> ref in s.active.Values)
    ensures secrets.Keys == s.active.Values * s.secrets.Keys
  {
    hide Rotations, Passes, References;
    assert forall ref :: Serving(s.active, ref) <==> ref in s.active.Values;
  }
}
