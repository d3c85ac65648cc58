/** What a rotation comes to: when its commit switches, and what a whole rotation leaves behind, done or refused. */
module RotationOutcomes {
  import opened SecretRotation

  // --- the commit ------------------------------------------------------------------------------------------

  /** The account still holds the reference the rotation has read, and the request is not recorded. */
  predicate MaySwitch(s: State, r: nat)
    requires r in s.rotations && s.rotations[r].Staged?
  {
    var x := s.rotations[r];
    x.account in s.active && s.active[x.account] == x.prior && (x.account, x.key) !in s.records
  }

  /** The candidate serves, the reference it replaces waits for cleanup, and the request is recorded. */
  predicate HasSwitched(s: State, t: State, r: nat)
    requires r in s.rotations && s.rotations[r].Staged?
  {
    var x := s.rotations[r];
    && x.account in t.active && t.active[x.account] == x.candidate
    && x.prior in t.queue && (x.account, x.key) in t.records && t.records[(x.account, x.key)] == x.digest
  }

  /**
   * In every reachable state a commit makes its candidate serve, queues the reference it replaces and records the
   * request if and only if the account still holds that reference and the request is not recorded yet. Otherwise no
   * reference, queue entry or record changes; either way the rotation goes on to delete what does not serve.
   */
  lemma CommitSwitchesExactly(now: int, actions: seq<Action>, r: nat, delay: int)
    requires Possible(Initial(now), actions, delay) && Enabled(Run(Initial(now), actions, delay), Commit(r), delay)
    ensures var s := Run(Initial(now), actions, delay);
            var (x, t) := (s.rotations[r], Apply(s, Commit(r), delay));
            && (HasSwitched(s, t, r) <==> MaySwitch(s, r))
            && t.secrets == s.secrets && t.now == s.now && t.passes == s.passes && t.tokens == s.tokens
            && (forall a :: a in s.active && a != x.account ==> a in t.active && t.active[a] == s.active[a])
            && t.active.Keys == s.active.Keys
            && (forall q :: q in s.rotations && q != r ==> q in t.rotations && t.rotations[q] == s.rotations[q])
            && t.rotations.Keys == s.rotations.Keys
            && if MaySwitch(s, r)
               then t.rotations[r] == Retiring(x.prior) && t.queue[x.prior] == s.now
                    && t.queue.Keys == s.queue.Keys + {x.prior}
                    && t.records.Keys == s.records.Keys + {(x.account, x.key)}
               else t.rotations[r] == Aborting(x.candidate) && t.active == s.active && t.queue == s.queue
                    && t.records == s.records
  {
    hide Run, Possible, Passes, Safe;
    InitialIsSound(now, delay);
    RunKeeps(Initial(now), actions, delay);
    var s := Run(Initial(now), actions, delay);
    RotationIsSound(s, r);
    var x := s.rotations[r];
    if x.account in s.active {
      assert Serving(s.active, s.active[x.account]);
    }
  }

  // --- a whole rotation ------------------------------------------------------------------------------------

  /** A rotation from beginning to end with nothing in between. */
  function WholeRotation(r: nat, account: string, key: string, digest: string, token: nat): seq<Action> {
    [Begin(r, account, key, digest), Stage(r, token), Commit(r), DeleteOld(r), Dequeue(r)]
  }

  /**
   * Nothing is under way under the rotation's name, the request is new, and the token and the old reference are too.
   */
  predicate Ready(s: State, r: nat, account: string, key: string, token: nat) {
    && r !in s.rotations && account in s.active && (account, key) !in s.records && token !in s.tokens
    && s.active[account] !in s.queue
  }

  /** The account serves the new reference in place of the old one, whose secret is gone. */
  ghost predicate Replaces(s: State, t: State, account: string, key: string, digest: string, token: nat)
    requires account in s.active
  {
    var old', new' := s.active[account], Rotated(s.active[account], token);
    && t.active.Keys == s.active.Keys && t.active[account] == new'
    && (forall a :: a in s.active && a != account ==> t.active[a] == s.active[a])
    && t.secrets.Keys == (s.secrets.Keys - {old'}) + {new'} && t.secrets[new'] == s.now
    && (forall ref :: ref in s.secrets && ref != old' && ref != new' ==> t.secrets[ref] == s.secrets[ref])
    && t.queue == s.queue && t.tokens == s.tokens + {token} && t.rotations == s.rotations && t.passes == s.passes
    && t.records == s.records[(account, key) := digest] && t.now == s.now
  }

  lemma BothSteps(s: State, first: Action, rest: seq<Action>, delay: int)
    requires Enabled(s, first, delay) && Possible(Apply(s, first, delay), rest, delay)
    ensures Possible(s, [first] + rest, delay)
    ensures Run(s, [first] + rest, delay) == Run(Apply(s, first, delay), rest, delay)
  {
    hide Enabled, Apply;
    assert ([first] + rest)[1..] == rest;
    OneStep(s, [first] + rest, delay);
  }

  lemma NoSteps(s: State, delay: int)
    ensures Possible(s, [], delay) && Run(s, [], delay) == s
  {
  }

  /** The steps of the rotation can be taken in turn, and what they lead to. */
  ghost predicate TakenInTurn(s: State, actions: seq<Action>, t: State, delay: int)
    decreases |actions|
  {
    if actions == [] then s == t
    else Enabled(s, actions[0], delay) && TakenInTurn(Apply(s, actions[0], delay), actions[1..], t, delay)
  }

  lemma {:induction false} TakenIsRun(s: State, actions: seq<Action>, t: State, delay: int)
    requires TakenInTurn(s, actions, t, delay)
    ensures Possible(s, actions, delay) && Run(s, actions, delay) == t
    decreases |actions|
  {
    hide Enabled, Apply;
    if actions != [] {
      TakenIsRun(Apply(s, actions[0], delay), actions[1..], t, delay);
    }
  }

  /** The state in which the rotation has switched and deleted what it replaced. */
  function Ended(s: State, account: string, key: string, digest: string, token: nat): State
    requires account in s.active
  {
    var old', new' := s.active[account], Rotated(s.active[account], token);
    s.(active := s.active[account := new'], secrets := s.secrets[new' := s.now] - {old'},
       records := s.records[(account, key) := digest], tokens := s.tokens + {token}, served := s.served + {new'})
  }

  lemma EndedReplaces(s: State, account: string, key: string, digest: string, token: nat)
    requires account in s.active
    ensures Replaces(s, Ended(s, account, key, digest, token), account, key, digest, token)
  {
    assert s.active[account] != Rotated(s.active[account], token);
  }

  /** A rotation that nothing crosses comes to serve and cleans up after itself. */
  lemma RotationServes(s: State, r: nat, account: string, key: string, digest: string, token: nat, delay: nat)
    requires Ready(s, r, account, key, token)
    ensures Possible(s, WholeRotation(r, account, key, digest, token), delay)
    ensures Replaces(s, Run(s, WholeRotation(r, account, key, digest, token), delay), account, key, digest, token)
  {
    var actions, t := WholeRotation(r, account, key, digest, token), Ended(s, account, key, digest, token);
    var old', new' := s.active[account], Rotated(s.active[account], token);
    hide Possible, Run, Replaces;
    EndedReplaces(s, account, key, digest, token);
    var s1 := s.(rotations := s.rotations[r := Probing(account, key, digest, old')]);
    var s2 := s.(secrets := s.secrets[new' := s.now], tokens := s.tokens + {token},
                 rotations := s.rotations[r := Staged(account, key, digest, old', new', s.now)]);
    assert s1 == Apply(s, actions[0], delay);
    assert s2.rotations == s1.rotations[r := Staged(account, key, digest, old', new', s.now)];
    assert s2 == Apply(s1, actions[1], delay);
    RestIsTaken(s, s2, r, account, key, digest, token, delay);
    assert actions[1..][1..] == [Commit(r), DeleteOld(r), Dequeue(r)];
    hide Apply;
    assert TakenInTurn(s1, actions[1..], t, delay);
    TakenIsRun(s, actions, t, delay);
  }

  lemma RestIsTaken(
    s: State, s2: State, r: nat, account: string, key: string, digest: string, token: nat, delay: nat)
    requires Ready(s, r, account, key, token)
    requires var old', new' := s.active[account], Rotated(s.active[account], token);
             s2 == s.(secrets := s.secrets[new' := s.now], tokens := s.tokens + {token},
                      rotations := s.rotations[r := Staged(account, key, digest, old', new', s.now)])
    ensures TakenInTurn(s2, [Commit(r), DeleteOld(r), Dequeue(r)], Ended(s, account, key, digest, token), delay)
  {
    var old', t := s.active[account], Ended(s, account, key, digest, token);
    var s3 := t.(secrets := s2.secrets, queue := s.queue[old' := s.now], rotations := s.rotations[r := Retiring(old')]);
    assert s3.rotations == s2.rotations[r := Retiring(old')];
    assert s3 == Apply(s2, Commit(r), delay);
    CleansUp(s3, r, old', delay);
    assert s3.queue - {old'} == s.queue && s3.rotations - {r} == s.rotations;
    hide Apply;
    assert [Commit(r), DeleteOld(r), Dequeue(r)][1..] == [DeleteOld(r), Dequeue(r)];
  }

  /** A rotation that has switched deletes what it replaced and takes it off the queue. */
  lemma CleansUp(s: State, r: nat, prior: Ref, delay: nat)
    requires r in s.rotations && s.rotations[r] == Retiring(prior)
    ensures TakenInTurn(s, [DeleteOld(r), Dequeue(r)],
                        s.(secrets := s.secrets - {prior}, queue := s.queue - {prior}, rotations := s.rotations - {r}),
                        delay)
  {
    var u := Apply(s, DeleteOld(r), delay);
    var t := Apply(u, Dequeue(r), delay);
    assert u.rotations - {r} == s.rotations - {r};
    assert t == s.(secrets := s.secrets - {prior}, queue := s.queue - {prior}, rotations := s.rotations - {r});
    hide Apply;
    assert [DeleteOld(r), Dequeue(r)][1..] == [Dequeue(r)] && [Dequeue(r)][1..] == [];
    assert TakenInTurn(t, [], t, delay);
    assert TakenInTurn(u, [Dequeue(r)], t, delay);
  }

  // --- rotating again and again ----------------------------------------------------------------------------

  /** Rotations of one account one after another, each under a key and a token of its own. */
  function RotationsInARow(account: string, keys: seq<string>, tokens: seq<nat>): seq<Action>
    requires |keys| == |tokens|
  {
    if keys == [] then []
    else WholeRotation(0, account, keys[0], "", tokens[0]) + RotationsInARow(account, keys[1..], tokens[1..])
  }

  function RotatedBy(ref: Ref, tokens: seq<nat>): Ref
    decreases |tokens|
  {
    if tokens == [] then ref else RotatedBy(Rotated(ref, tokens[0]), tokens[1..])
  }

  /** The keys and tokens are all different and none has been used. */
  predicate AllNew(s: State, account: string, keys: seq<string>, tokens: seq<nat>)
    requires |keys| == |tokens|
  {
    && (forall i :: 0 <= i < |keys| ==> (account, keys[i]) !in s.records && tokens[i] !in s.tokens)
    && (forall i, j :: 0 <= i < j < |keys| ==> keys[i] != keys[j] && tokens[i] != tokens[j])
  }

  /**
   * However often an account is rotated: in every reachable state any number of rotations under new keys, one after
   * another, come to serve one by one, each in place of the one before, and of all the references they have used only
   * the last is stored.
   */
  lemma EveryRotationServes(
    now: int, before: seq<Action>, account: string, keys: seq<string>, tokens: seq<nat>, delay: nat)
    requires Possible(Initial(now), before, delay) && |keys| == |tokens|
    requires var s := Run(Initial(now), before, delay);
             account in s.active && 0 !in s.rotations && AllNew(s, account, keys, tokens)
    ensures var s := Run(Initial(now), before, delay);
            && Possible(s, RotationsInARow(account, keys, tokens), delay)
            && var t := Run(s, RotationsInARow(account, keys, tokens), delay);
              && account in t.active && t.active[account] == RotatedBy(s.active[account], tokens)
              && (forall a :: a in s.active && a != account ==> a in t.active && t.active[a] == s.active[a])
              && (forall i :: 0 <= i < |tokens| ==> RotatedBy(s.active[account], tokens[..i]) !in t.secrets)
              && (tokens != [] ==> t.active[account] in t.secrets)
  {
    InitialIsSound(now, delay);
    RunKeeps(Initial(now), before, delay);
    hide Run, Possible, Invariant, Safe;
    RotationsServe(Run(Initial(now), before, delay), account, keys, tokens, delay);
  }

  lemma ServesUnqueued(s: State, account: string)
    requires Invariant(s) && account in s.active
    ensures s.active[account] !in s.queue
  {
    assert Serving(s.active, s.active[account]);
  }

  function Depth(ref: Ref): nat {
    match ref
    case Original(_) => 0
    case Rotated(base, _) => Depth(base) + 1
  }

  /** The account serves what the rotations made of its reference, and of what they replaced nothing is stored. */
  ghost predicate Served(s: State, t: State, account: string, tokens: seq<nat>)
    requires account in s.active
  {
    && account in t.active && t.active[account] == RotatedBy(s.active[account], tokens)
    && (forall a :: a in s.active && a != account ==> a in t.active && t.active[a] == s.active[a])
    && (forall i :: 0 <= i < |tokens| ==> RotatedBy(s.active[account], tokens[..i]) !in t.secrets)
    && (if tokens == [] then t == s else t.active[account] in t.secrets)
    && (forall ref :: ref in t.secrets && Depth(ref) <= Depth(s.active[account]) ==>
          ref in s.secrets && (tokens != [] ==> ref != s.active[account]))
  }

  lemma OneMoreServed(s: State, u: State, t: State, account: string, key: string, tokens: seq<nat>)
    requires account in s.active && tokens != [] && Replaces(s, u, account, key, "", tokens[0])
    requires Served(u, t, account, tokens[1..])
    ensures Served(s, t, account, tokens)
  {
    forall i | 0 <= i < |tokens| ensures RotatedBy(s.active[account], tokens[..i]) !in t.secrets {
      if i > 0 {
        assert tokens[..i][0] == tokens[0] && tokens[..i][1..] == tokens[1..][..i - 1];
      } else {
        assert tokens[..0] == [];
      }
    }
  }

  lemma StillNew(s: State, u: State, account: string, keys: seq<string>, tokens: seq<nat>)
    requires |keys| == |tokens| && keys != [] && account in s.active && AllNew(s, account, keys, tokens)
    requires Replaces(s, u, account, keys[0], "", tokens[0])
    ensures AllNew(u, account, keys[1..], tokens[1..])
  {
  }

  lemma {:induction false} RotationsServe(s: State, account: string, keys: seq<string>, tokens: seq<nat>, delay: nat)
    requires Invariant(s) && |keys| == |tokens| && account in s.active && 0 !in s.rotations
    requires AllNew(s, account, keys, tokens)
    ensures Possible(s, RotationsInARow(account, keys, tokens), delay)
    ensures Served(s, Run(s, RotationsInARow(account, keys, tokens), delay), account, tokens)
    decreases |keys|
  {
    hide Invariant, Safe, WholeRotation;
    if keys == [] {
      NoSteps(s, delay);
    } else {
      var first := WholeRotation(0, account, keys[0], "", tokens[0]);
      var rest := RotationsInARow(account, keys[1..], tokens[1..]);
      ServesUnqueued(s, account);
      RotationServes(s, 0, account, keys[0], "", tokens[0], delay);
      hide Served, Run, Possible;
      RunKeeps(s, first, delay);
      var u := Run(s, first, delay);
      StillNew(s, u, account, keys, tokens);
      RotationsServe(u, account, keys[1..], tokens[1..], delay);
      RunConcat(s, first, rest, delay);
      OneMoreServed(s, u, Run(u, rest, delay), account, keys[0], tokens);
    }
  }

  /** In every reachable state a cleanup pass leaves alone what was queued or stored within the last hour. */
  lemma YoungIsLeftAlone(now: int, before: seq<Action>, p: nat, ref: Ref, delay: int)
    requires Possible(Initial(now), before, delay)
    ensures var s := Run(Initial(now), before, delay);
            && (Enabled(s, Sweep(p, {ref}), delay) ==>
                  ref.Rotated? && ref in s.secrets && s.secrets[ref] + 3600 < s.now)
            && (Enabled(s, Pick(p, {ref}), delay) ==> ref in s.queue && s.queue[ref] + 3600 < s.now)
  {
    InitialIsSound(now, delay);
    RunKeeps(Initial(now), before, delay);
    var s := Run(Initial(now), before, delay);
    hide Run, Possible, NothingLost, References, Rotations;
    assert ref in {ref};
    if p in s.passes {
      assert PassSound(s, s.passes[p]);
    }
  }

  /** Closing a pass ends it and takes exactly those references off the queue that it resolved and that are old. */
  lemma PassClosesExactly(s: State, p: nat, delay: int)
    requires Enabled(s, Clear(p), delay)
    ensures var (x, t) := (s.passes[p], Apply(s, Clear(p), delay));
            && t == s.(queue := t.queue, passes := t.passes) && t.passes == s.passes - {p}
            && (forall ref :: ref in t.queue <==>
                  ref in s.queue && (ref !in x.resolved || s.queue[ref] >= x.cutoff))
            && (forall ref :: ref in t.queue ==> t.queue[ref] == s.queue[ref])
  {
  }

  // --- a refused rotation, and a forgotten one -------------------------------------------------------------

  /**
   * In every reachable state a rotation whose commit would find the account changed or the request recorded leaves
   * nothing but the token drawn.
   */
  lemma RefusedRotationLeavesNothing(now: int, before: seq<Action>, r: nat, token: nat, delay: nat)
    requires Possible(Initial(now), before, delay)
    requires var s := Run(Initial(now), before, delay);
             r in s.rotations && s.rotations[r].Probing? && token !in s.tokens
             && var x := s.rotations[r];
               x.account !in s.active || s.active[x.account] != x.prior || (x.account, x.key) in s.records
    ensures var s, actions := Run(Initial(now), before, delay), [Stage(r, token), Commit(r), DeleteCandidate(r)];
            Possible(s, actions, delay)
            && Run(s, actions, delay) == s.(rotations := s.rotations - {r}, tokens := s.tokens + {token})
  {
    InitialIsSound(now, delay);
    RunKeeps(Initial(now), before, delay);
    var s := Run(Initial(now), before, delay);
    hide Run, Possible, Apply, NothingLost, Rotations, Passes, Safe;
    assert Rotated(s.rotations[r].prior, token) !in s.secrets;
    hide References;
    AbortedSteps(s, r, token, delay);
    TakenIsRun(s, [Stage(r, token), Commit(r), DeleteCandidate(r)],
        s.(rotations := s.rotations - {r}, tokens := s.tokens + {token}), delay);
  }

  lemma AbortedSteps(s: State, r: nat, token: nat, delay: nat)
    requires r in s.rotations && s.rotations[r].Probing? && token !in s.tokens
    requires Rotated(s.rotations[r].prior, token) !in s.secrets
    requires var x := s.rotations[r];
             x.account !in s.active || s.active[x.account] != x.prior || (x.account, x.key) in s.records
    ensures TakenInTurn(s, [Stage(r, token), Commit(r), DeleteCandidate(r)],
                        s.(rotations := s.rotations - {r}, tokens := s.tokens + {token}), delay)
  {
    var x, candidate := s.rotations[r], Rotated(s.rotations[r].prior, token);
    var t := s.(rotations := s.rotations - {r}, tokens := s.tokens + {token});
    var s1 := t.(secrets := s.secrets[candidate := s.now],
                 rotations := s.rotations[r := Staged(x.account, x.key, x.digest, x.prior, candidate, s.now)]);
    var s2 := s1.(rotations := s.rotations[r := Aborting(candidate)]);
    assert s1 == Apply(s, Stage(r, token), delay);
    assert s2.rotations == s1.rotations[r := Aborting(candidate)];
    assert s2 == Apply(s1, Commit(r), delay);
    assert s2.secrets - {candidate} == s.secrets && s2.rotations - {r} == t.rotations;
    assert t == Apply(s2, DeleteCandidate(r), delay);
    hide Apply;
    assert [Stage(r, token), Commit(r), DeleteCandidate(r)][1..] == [Commit(r), DeleteCandidate(r)];
    assert [Commit(r), DeleteCandidate(r)][1..] == [DeleteCandidate(r)] && [DeleteCandidate(r)][1..] == [];
    assert TakenInTurn(t, [], t, delay);
    assert TakenInTurn(s2, [DeleteCandidate(r)], t, delay);
    assert TakenInTurn(s1, [Commit(r), DeleteCandidate(r)], t, delay);
  }

  /** A rotation request that a retention pass has forgotten rotates once more when it is delivered again. */
  lemma ForgottenRotationRotatesAgain(
    now: int, before: seq<Action>, account: string, key: string, digest: string, first: nat, second: nat, delay: nat)
    requires Possible(Initial(now), before, delay) && first != second
    requires var s := Run(Initial(now), before, delay);
             Ready(s, 0, account, key, first) && second !in s.tokens
    ensures var s := Run(Initial(now), before, delay);
            var actions := WholeRotation(0, account, key, digest, first) + ([ForgetRecords({(account, key)})]
                + WholeRotation(0, account, key, digest, second));
            && Possible(s, actions, delay)
            && var t := Run(s, actions, delay);
              account in t.active && t.active[account] == Rotated(Rotated(s.active[account], first), second)
  {
    InitialIsSound(now, delay);
    RunKeeps(Initial(now), before, delay);
    var s := Run(Initial(now), before, delay);
    hide Invariant, Safe;
    hide Run, Possible, WholeRotation;
    RotationServes(s, 0, account, key, digest, first, delay);
    var once, forget := WholeRotation(0, account, key, digest, first), ForgetRecords({(account, key)});
    RunKeeps(s, once, delay);
    var u := Run(s, once, delay);
    ServesUnqueued(u, account);
    var v := Apply(u, forget, delay);
    RotationServes(v, 0, account, key, digest, second, delay);
    BothSteps(u, forget, WholeRotation(0, account, key, digest, second), delay);
    RunConcat(s, once, [forget] + WholeRotation(0, account, key, digest, second), delay);
  }
}
