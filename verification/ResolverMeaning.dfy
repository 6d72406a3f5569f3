/** What becomes of the mentions of one window, said of the tables before and of the results after
    (domain/graph/resolver.py, resolve_concepts_batch). */
module ResolverMeaning {
  import opened Numbers
  import opened Wrappers
  import opened Ordering
  import opened Sequences
  import opened Text
  import opened GraphTables
  import opened EdgeTable
  import opened GardenerMerge
  import opened GardenerDecisions
  import opened Extraction
  import opened ResolverDecisions
  import opened ResolverApply
  import opened Resolver

  // ---- the deterministic stages ----

  /** The first mentions leave the alias of a later one alone. */
  ghost predicate SameAlias(env: Resolving, t: Tables, after: Tables, raw: ExtractedConcept) {
    var norm := env.policy.edges.names.Normalize(raw.name);
    && (norm in after.aliases <==> norm in t.aliases)
    && (norm in t.aliases ==> after.aliases[norm] == t.aliases[norm])
  }

  lemma DidAlias(env: Resolving, chunk: int, w: Work, s: Step, raw: ExtractedConcept)
    requires Usable(env, chunk, w.t) && IsGrounded(w.t, s.decision) && Norm(env, raw) != Norm(env, s.raw)
    ensures SameAlias(env, w.t, Did(env, chunk, w, s).t, raw)
  {
    hide Usable, IsGrounded, Fails, ConceptsAfter, EdgesAfter, ResolvedId, Names.Normalize;
  }

  /** Before mention n is reached, its alias is where it was; afterwards its own result and place in line are
      settled. */
  lemma {:induction false} AliasKept(env: Resolving, chunk: int, t: Tables, raws: seq<ExtractedConcept>, i: nat, n: nat)
    requires Usable(env, chunk, t) && n <= i < |raws| && DistinctNames(env, raws) && Norm(env, raws[i]) != ""
    ensures SameAlias(env, t, FirstStages(env, chunk, t, raws, n).w.t, raws[i])
  {
    hide Usable, Onward, FirstStages, FirstStage, DistinctNames, Norm, Did, SameAlias;
    if n == 0 {
      FirstStagesStart(env, chunk, t, raws);
      AliasSelf(env, t, raws[i]);
    } else {
      AliasKept(env, chunk, t, raws, i, n - 1);
      FirstStagesStep(env, chunk, t, raws, n - 1);
      NamesDiffer(env, raws, n - 1, i);
      var before := FirstStages(env, chunk, t, raws, n - 1);
      StageAlias(env, chunk, t, before, n - 1, raws[n - 1], raws[i]);
      AliasTransitive(env, t, before.w.t, FirstStages(env, chunk, t, raws, n).w.t, raws[i]);
    }
  }

  lemma NamesDiffer(env: Resolving, raws: seq<ExtractedConcept>, i: nat, j: nat)
    requires DistinctNames(env, raws) && i < j < |raws| && Norm(env, raws[j]) != ""
    ensures Norm(env, raws[j]) != Norm(env, raws[i])
  {
    hide Norm;
  }

  lemma AliasSelf(env: Resolving, t: Tables, raw: ExtractedConcept)
    ensures SameAlias(env, t, t, raw)
  {
  }

  lemma AliasTransitive(env: Resolving, a: Tables, b: Tables, c: Tables, raw: ExtractedConcept)
    requires SameAlias(env, a, b, raw) && SameAlias(env, b, c, raw)
    ensures SameAlias(env, a, c, raw)
  {
  }

  lemma StageAlias(env: Resolving, chunk: int, t: Tables, before: Stage, idx: nat, own: ExtractedConcept,
                   raw: ExtractedConcept)
    requires Usable(env, chunk, before.w.t) && Onward(env, chunk, t, before.w.t) && !before.w.failed
    requires Norm(env, raw) != Norm(env, own)
    ensures SameAlias(env, before.w.t, FirstStage(env, chunk, t, before, idx, own).w.t, raw)
  {
    hide Onward, Ready, Did, Norm, SameAlias, IsGrounded;
    AliasSelf(env, before.w.t, raw);
    if Norm(env, own) != "" {
      match SettledOn(env, before.w.t, own) {
        case Some(id) =>
          MergesNeverFail(env, before.w.t, idx, own, id);
          DidAlias(env, chunk, before.w, MergeStep(env, before.w.t, idx, own, id), raw);
        case None =>
      }
    }
  }

  /** Whom a mention is, by the tables b in which it is looked at: its alias decides if it leads to an active concept,
      otherwise the rules' verdict on its candidates. */
  ghost predicate IsSettled(env: Resolving, t: Tables, b: Tables, raw: ExtractedConcept, id: int) {
    var norm := env.policy.edges.names.Normalize(raw.name);
    if norm in t.aliases && IsActive(t, t.aliases[norm]) then id == t.aliases[norm]
    else env.verdict(b, raw, env.candidates(b, raw)) == Some(id)
  }

  ghost predicate Waits(env: Resolving, t: Tables, b: Tables, raw: ExtractedConcept) {
    var norm := env.policy.edges.names.Normalize(raw.name);
    !(norm in t.aliases && IsActive(t, t.aliases[norm])) && env.verdict(b, raw, env.candidates(b, raw)).None?
  }

  /** Mention i has its result, or waits with its candidates, and nothing about it changes any more. */
  ghost predicate IsPlaced(env: Resolving, t: Tables, b: Tables, i: nat, raw: ExtractedConcept, s: Stage) {
    && (forall id | IsSettled(env, t, b, raw, id) ::
          i in s.w.results && s.w.results[i] == ResolvedConcept(id, false, false) && !IsPending(s.pending, i))
    && (Waits(env, t, b, raw) ==>
          exists k :: 0 <= k < |s.pending| && s.pending[k] == Pending(i, raw, env.candidates(b, raw)))
  }

  ghost predicate IsPending(pending: seq<Pending>, i: nat) { exists k :: 0 <= k < |pending| && pending[k].idx == i }

  lemma SettledOnIs(env: Resolving, chunk: int, t: Tables, b: Tables, raw: ExtractedConcept)
    requires Usable(env, chunk, t) && Onward(env, chunk, t, b) && SameAlias(env, t, b, raw)
    ensures forall id :: IsSettled(env, t, b, raw, id) <==> SettledOn(env, b, raw) == Some(id)
    ensures Waits(env, t, b, raw) <==> SettledOn(env, b, raw).None?
  {
    hide Names.Normalize, EdgesAreSound, ChunkKeysHold, LooksUpActive;
    var norm := env.policy.edges.names.Normalize(raw.name);
    assert norm in t.aliases ==> t.aliases[norm] in t.concepts;
    assert norm in t.aliases ==> (IsActive(b, t.aliases[norm]) <==> IsActive(t, t.aliases[norm]));
  }

  /** Who waits, waits in the mentions' order. */
  ghost predicate Ascend(pending: seq<Pending>) {
    forall k, l | 0 <= k < l < |pending| :: pending[k].idx < pending[l].idx
  }

  /** Nobody waits before being looked at. */
  lemma {:induction false} NotYet(env: Resolving, chunk: int, t: Tables, raws: seq<ExtractedConcept>, n: nat)
    requires Usable(env, chunk, t) && n <= |raws|
    ensures var s := FirstStages(env, chunk, t, raws, n);
            (forall k | 0 <= k < |s.pending| :: s.pending[k].idx < n) && Ascend(s.pending)
  {
    hide Usable, Onward, FirstStages, Norm, Did, SettledOn;
    if n == 0 {
      NobodyYet(env, chunk, t, raws);
    } else {
      NotYet(env, chunk, t, raws, n - 1);
      FirstStagesStep(env, chunk, t, raws, n - 1);
      StagePending(env, chunk, t, FirstStages(env, chunk, t, raws, n - 1), n - 1, raws[n - 1]);
    }
  }

  lemma NobodyYet(env: Resolving, chunk: int, t: Tables, raws: seq<ExtractedConcept>)
    requires Usable(env, chunk, t)
    ensures FirstStages(env, chunk, t, raws, 0).pending == []
  {
  }

  /** One mention gets its result, or is the next to wait, or is blank. */
  lemma StagePending(env: Resolving, chunk: int, t: Tables, before: Stage, idx: nat, raw: ExtractedConcept)
    requires Usable(env, chunk, before.w.t) && Onward(env, chunk, t, before.w.t) && !before.w.failed
    ensures var b, s := before.w.t, FirstStage(env, chunk, t, before, idx, raw);
            if Norm(env, raw) == "" then s == before
            else match SettledOn(env, b, raw)
                 case Some(id) => s.pending == before.pending &&
                                  s.w.results == before.w.results[idx := ResolvedConcept(id, false, false)]
                 case None => s.w == before.w &&
                              s.pending == before.pending + [Pending(idx, raw, env.candidates(b, raw))]
  {
    hide Onward, Ready, Norm, SettledOn, IsGrounded, Applied, LooksUpActive;
    if Norm(env, raw) != "" {
      match SettledOn(env, before.w.t, raw) {
        case Some(id) =>
          SettledActive(env, before.w.t, raw);
          MergesNeverFail(env, before.w.t, idx, raw, id);
        case None =>
      }
    }
  }

  lemma SettledActive(env: Resolving, t: Tables, raw: ExtractedConcept)
    requires LooksUpActive(env)
    ensures SettledOn(env, t, raw).Some? ==> IsActive(t, SettledOn(env, t, raw).value)
  {
  }

  lemma {:induction false} Placed(env: Resolving, chunk: int, t: Tables, raws: seq<ExtractedConcept>, i: nat, n: nat)
    requires Usable(env, chunk, t) && i < n <= |raws| && DistinctNames(env, raws) && Norm(env, raws[i]) != ""
    ensures IsPlaced(env, t, FirstStages(env, chunk, t, raws, i).w.t, i, raws[i], FirstStages(env, chunk, t, raws, n))
    decreases n
  {
    hide Usable, Onward, FirstStages, FirstStage, DistinctNames, Norm, SameAlias, IsSettled, Waits, IsPlaced;
    FirstStagesStep(env, chunk, t, raws, n - 1);
    var b, before := FirstStages(env, chunk, t, raws, i).w.t, FirstStages(env, chunk, t, raws, n - 1);
    StagePending(env, chunk, t, before, n - 1, raws[n - 1]);
    var s := FirstStages(env, chunk, t, raws, n);
    if i == n - 1 {
      AliasKept(env, chunk, t, raws, i, i);
      NotYet(env, chunk, t, raws, i);
      SettledOnIs(env, chunk, t, b, raws[i]);
      UsableLooksUp(env, chunk, t);
      PlacedNow(env, t, b, i, raws[i], before, s);
    } else {
      Placed(env, chunk, t, raws, i, n - 1);
      StaysPlaced(env, t, b, i, raws[i], before, s, n - 1);
    }
  }

  lemma UsableLooksUp(env: Resolving, chunk: int, t: Tables)
    requires Usable(env, chunk, t)
    ensures LooksUpActive(env)
  {
  }

  lemma PlacedNow(env: Resolving, t: Tables, b: Tables, i: nat, raw: ExtractedConcept, before: Stage, s: Stage)
    requires forall k | 0 <= k < |before.pending| :: before.pending[k].idx < i
    requires LooksUpActive(env)
    requires forall id :: IsSettled(env, t, b, raw, id) <==> SettledOn(env, b, raw) == Some(id)
    requires Waits(env, t, b, raw) <==> SettledOn(env, b, raw).None?
    requires match SettledOn(env, b, raw)
             case Some(id) => s.pending == before.pending &&
                              s.w.results == before.w.results[i := ResolvedConcept(id, false, false)]
             case None => s.pending == before.pending + [Pending(i, raw, env.candidates(b, raw))]
    ensures IsPlaced(env, t, b, i, raw, s)
  {
    hide LooksUpActive, IsSettled, Waits, SettledOn;
    if Waits(env, t, b, raw) { assert s.pending[|before.pending|] == Pending(i, raw, env.candidates(b, raw)); }
  }

  lemma StaysPlaced(env: Resolving, t: Tables, b: Tables, i: nat, raw: ExtractedConcept, before: Stage, s: Stage,
                    other: nat)
    requires IsPlaced(env, t, b, i, raw, before) && other != i
    requires i in before.w.results ==> i in s.w.results && s.w.results[i] == before.w.results[i]
    requires before.pending <= s.pending
    requires forall k | |before.pending| <= k < |s.pending| :: s.pending[k].idx == other
    ensures IsPlaced(env, t, b, i, raw, s)
  {
    hide IsSettled, Waits;
    if IsPending(s.pending, i) {
      var k :| 0 <= k < |s.pending| && s.pending[k].idx == i;
      assert before.pending[k] == s.pending[k];
    }
    if Waits(env, t, b, raw) {
      var k :| 0 <= k < |before.pending| && before.pending[k] == Pending(i, raw, env.candidates(b, raw));
      assert s.pending[k] == before.pending[k];
    }
  }

  // ---- the model's stage ----

  /** The calls before a batch: one for each earlier batch in which somebody has candidates. */
  ghost function CallsBefore(size: nat, pending: seq<Pending>, start: nat): nat
    requires size > 0 && start <= |pending|
  {
    if start < size then 0
    else
      (if exists k :: 0 <= k < size && pending[k].candidates != [] then 1 else 0) +
        CallsBefore(size, pending[size..], start - size)
  }

  /** A result that one decision on a waiting mention gives, in some later state of the tables. */
  ghost predicate ComesFrom(env: Resolving, chunk: int, t: Tables, b: Tables, p: Pending, d: Decision,
                            r: ResolvedConcept)
  {
    Onward(env, chunk, t, b) && r == ResolvedBy(env.policy, b, StepFor(env, b, p, d))
  }

  /** Where the batch of position k starts. */
  function StartOf(size: nat, k: nat): (start: nat)
    requires size > 0
    ensures start <= k < start + size
  {
    if k < size then 0 else size + StartOf(size, k - size)
  }

  /** The decision on the waiting mention at position k: that of its batch, in which calls are left if fewer were
      made before than each cap allows. */
  ghost function DecisionOn(env: Resolving, pending: seq<Pending>, left: Allowance, tick: nat, k: nat): Decision
    requires env.batchSize > 0 && k < |pending|
  {
    var start := StartOf(env.batchSize, k);
    var end := if start + env.batchSize <= |pending| then start + env.batchSize else |pending|;
    var calls := CallsBefore(env.batchSize, pending, start);
    env.asking.Decisions(pending[start..end], left.chunk > calls && left.document > calls, tick + start)[k - start]
  }

  lemma {:induction false} OthersKeep(env: Resolving, chunk: int, w: Work, batch: seq<Pending>, ds: seq<Decision>,
                                      n: nat, i: int)
    requires Usable(env, chunk, w.t) && AllOffered(w.t, batch) && AllAmong(ds, batch) && n <= |batch|
    requires (forall k | 0 <= k < n :: batch[k].idx != i) && i in w.results
    ensures var r := BatchApplied(env, chunk, w, batch, ds, n);
            !r.failed ==> i in r.results && r.results[i] == w.results[i]
  {
    hide Usable, Onward, AllOffered, AllAmong, BatchApplied, IsGrounded, ResolvedBy, Applied, Fails;
    if n == 0 {
      BatchStart(env, chunk, w, batch, ds);
    } else {
      OthersKeep(env, chunk, w, batch, ds, n - 1, i);
      BatchStep(env, chunk, w, batch, ds, n - 1);
    }
  }

  lemma {:induction false} BatchResult(env: Resolving, chunk: int, w: Work, batch: seq<Pending>, ds: seq<Decision>,
                                       n: nat, k: nat)
    requires Usable(env, chunk, w.t) && AllOffered(w.t, batch) && AllAmong(ds, batch) && k < n <= |batch|
    requires Ascend(batch)
    ensures var r := BatchApplied(env, chunk, w, batch, ds, n);
            !r.failed ==> batch[k].idx in r.results && exists b ::
                            ComesFrom(env, chunk, w.t, b, batch[k], ds[k], r.results[batch[k].idx])
  {
    hide Usable, AllOffered, IsAmong, BatchApplied, IsGrounded, ResolvedBy, Applied, Fails, Onward, StepFor, Grew;
    BatchStep(env, chunk, w, batch, ds, n - 1);
    var before, r := BatchApplied(env, chunk, w, batch, ds, n - 1), BatchApplied(env, chunk, w, batch, ds, n);
    DidResult(env, chunk, before, batch[n - 1], ds[n - 1]);
    if k < n - 1 {
      BatchResult(env, chunk, w, batch, ds, n - 1, k);
    } else if !r.failed {
      assert ComesFrom(env, chunk, w.t, before.t, batch[k], ds[k], r.results[batch[k].idx]);
    }
  }

  lemma DidResult(env: Resolving, chunk: int, w: Work, p: Pending, d: Decision)
    requires Usable(env, chunk, w.t) && IsGrounded(w.t, d)
    ensures var r := Did(env, chunk, w, StepFor(env, w.t, p, d));
            !r.failed ==>
              !w.failed && r.results == w.results[p.idx := ResolvedBy(env.policy, w.t, StepFor(env, w.t, p, d))]
  {
    hide Usable, IsGrounded, ResolvedBy, Applied, Fails;
  }

  /** Results that do not wait stay. */
  lemma {:induction false} SettledStay(env: Resolving, chunk: int, w: Work, pending: seq<Pending>, left: Allowance,
                                       tick: nat, i: nat)
    requires Usable(env, chunk, w.t) && AllOffered(w.t, pending) && !IsPending(pending, i) && i in w.results
    ensures var r := ModelStages(env, chunk, w, pending, left, tick).w;
            !r.failed ==> i in r.results && r.results[i] == w.results[i]
    decreases |pending|
  {
    hide Usable, Onward, AllOffered, AllAmong, BatchApplied, ModelStages, Asking.Spent;
    if pending == [] {
      NothingWaits(env, chunk, w, left, tick);
    } else {
      BatchSizePositive(env, chunk, w.t);
      ModelStagesStep(env, chunk, w, pending, left, tick);
      var m := Min(env.batchSize, |pending|);
      var ds := env.asking.Decisions(pending[..m], left.Left(), tick);
      OthersKeep(env, chunk, w, pending[..m], ds, m, i);
      var after, spent := BatchApplied(env, chunk, w, pending[..m], ds, m), env.asking.Spent(pending[..m], left.Left());
      if after.failed {
        ModelFailureStays(env, chunk, after, pending[m..], left.Minus(spent), tick + m);
      } else {
        SettledStay(env, chunk, after, pending[m..], left.Minus(spent), tick + m, i);
      }
    }
  }

  lemma AskedSomebody(asking: Asking, batch: seq<Pending>)
    ensures asking.Asked(batch, |batch|) != [] <==> exists k :: 0 <= k < |batch| && batch[k].candidates != []
  {
    if k :| 0 <= k < |batch| && batch[k].candidates != [] {
      asking.AskedAt(batch, k, |batch|);
    }
    if asking.Asked(batch, |batch|) != [] {
      var k := asking.Asked(batch, |batch|)[0];
      assert k in asking.Asked(batch, |batch|);
    }
  }

  /** After the first batch, the decision on a later mention is the same one. */
  lemma DecisionLater(env: Resolving, pending: seq<Pending>, left: Allowance, tick: nat, k: nat)
    requires 0 < env.batchSize <= k < |pending|
    ensures var m := env.batchSize;
            DecisionOn(env, pending[m..], left.Minus(env.asking.Spent(pending[..m], left.Left())), tick + m, k - m) ==
            DecisionOn(env, pending, left, tick, k)
  {
    hide Asking.Decisions, Asking.Asked;
    var m := env.batchSize;
    AskedSomebody(env.asking, pending[..m]);
    var start := StartOf(m, k);
    var end := if start + m <= |pending| then start + m else |pending|;
    assert pending[m..][start - m..end - m] == pending[start..end];
    FirstAsks(pending, m);
  }

  lemma FirstAsks(pending: seq<Pending>, m: nat)
    requires m <= |pending|
    ensures (exists k :: 0 <= k < |pending[..m]| && pending[..m][k].candidates != []) <==>
            (exists k :: 0 <= k < m && pending[k].candidates != [])
  {
    if k :| 0 <= k < m && pending[k].candidates != [] { assert pending[..m][k].candidates != []; }
  }

  lemma DecisionNow(env: Resolving, pending: seq<Pending>, left: Allowance, tick: nat, k: nat)
    requires env.batchSize > 0 && k < |pending| && k < env.batchSize
    ensures var m := Min(env.batchSize, |pending|);
            DecisionOn(env, pending, left, tick, k) == env.asking.Decisions(pending[..m], left.Left(), tick)[k]
  {
    hide Asking.Decisions;
    assert pending[0..Min(env.batchSize, |pending|)] == pending[..Min(env.batchSize, |pending|)];
  }

  lemma AscendParts(pending: seq<Pending>, m: nat)
    requires Ascend(pending) && m <= |pending|
    ensures Ascend(pending[..m]) && Ascend(pending[m..])
    ensures forall k | 0 <= k < m :: !IsPending(pending[m..], pending[k].idx)
  {
  }

  /** A waiting mention gets the result of its own decision. */
  lemma {:induction false} WaitingResult(env: Resolving, chunk: int, w: Work, pending: seq<Pending>, left: Allowance,
                                         tick: nat, k: nat)
    requires Usable(env, chunk, w.t) && AllOffered(w.t, pending) && env.batchSize > 0 && k < |pending|
    requires Ascend(pending)
    ensures var r := ModelStages(env, chunk, w, pending, left, tick).w;
            !r.failed ==> pending[k].idx in r.results && exists b ::
                            ComesFrom(env, chunk, w.t, b, pending[k], DecisionOn(env, pending, left, tick, k),
                                      r.results[pending[k].idx])
    decreases |pending|
  {
    hide Usable, Onward, AllOffered, IsAmong, BatchApplied, ModelStages, Asking.Spent, DecisionOn, ResolvedBy, StepFor,
      IsPending, Ascend;
    ModelStagesStep(env, chunk, w, pending, left, tick);
    var m := Min(env.batchSize, |pending|);
    var ds := env.asking.Decisions(pending[..m], left.Left(), tick);
    var after, spent := BatchApplied(env, chunk, w, pending[..m], ds, m), env.asking.Spent(pending[..m], left.Left());
    AscendParts(pending, m);
    if after.failed {
      ModelFailureStays(env, chunk, after, pending[m..], left.Minus(spent), tick + m);
    } else if k < m {
      BatchResult(env, chunk, w, pending[..m], ds, m, k);
      DecisionNow(env, pending, left, tick, k);
      SettledStay(env, chunk, after, pending[m..], left.Minus(spent), tick + m, pending[k].idx);
    } else {
      WaitingResult(env, chunk, after, pending[m..], left.Minus(spent), tick + m, k - m);
      DecisionLater(env, pending, left, tick, k);
      var r, d := ModelStages(env, chunk, w, pending, left, tick).w, DecisionOn(env, pending, left, tick, k);
      if !r.failed {
        var b :| ComesFrom(env, chunk, after.t, b, pending[k], d, r.results[pending[k].idx]);
        OnwardTransitive(env, chunk, w.t, after.t, b);
        assert ComesFrom(env, chunk, w.t, b, pending[k], d, r.results[pending[k].idx]);
      }
    }
  }

  // ---- a window ----

  /** What a mention with a name becomes in a window: the concept its alias leads to, if that one is active; otherwise,
      in the tables the mentions before it leave, the concept the rules pick from its candidates; and otherwise what the
      decision of its batch makes of it. */
  lemma MentionMeaning(env: Resolving, chunk: int, t: Tables, raws: seq<ExtractedConcept>, left: Allowance, tick: nat,
                       i: nat)
    requires Usable(env, chunk, t) && DistinctNames(env, raws) && i < |raws|
    requires env.policy.edges.names.Normalize(raws[i].name) != ""
    requires !Resolved(env, chunk, t, raws, left, tick).w.failed
    ensures var results, first := Resolved(env, chunk, t, raws, left, tick).w.results,
                                  FirstStages(env, chunk, t, raws, |raws|);
            var b := FirstStages(env, chunk, t, raws, i).w.t;
            && i in results && env.batchSize > 0
            && (forall id | IsSettled(env, t, b, raws[i], id) :: results[i] == ResolvedConcept(id, false, false))
            && (Waits(env, t, b, raws[i]) ==>
                  exists k, c ::
                    && 0 <= k < |first.pending| && first.pending[k] == Pending(i, raws[i], env.candidates(b, raws[i]))
                    && ComesFrom(env, chunk, first.w.t, c, first.pending[k],
                                 DecisionOn(env, first.pending, left, tick, k), results[i]))
  {
    hide Usable, Onward, FirstStages, ModelStages, AllOffered, DistinctNames, IsSettled, Waits, DecisionOn, ComesFrom,
      Ascend, IsPending, Norm, Names.Normalize;
    BatchSizePositive(env, chunk, t);
    NormIs(env, raws[i]);
    var first := FirstStages(env, chunk, t, raws, |raws|);
    PendingOffered(env, chunk, t, raws, |raws|);
    OnwardUsable(env, chunk, t, first.w.t);
    NotYet(env, chunk, t, raws, |raws|);
    Placed(env, chunk, t, raws, i, |raws|);
    var b := FirstStages(env, chunk, t, raws, i).w.t;
    EitherWay(env, t, b, raws[i]);
    if Waits(env, t, b, raws[i]) {
      var k :| 0 <= k < |first.pending| && first.pending[k] == Pending(i, raws[i], env.candidates(b, raws[i]));
      WaitingResult(env, chunk, first.w, first.pending, left, tick, k);
    } else {
      SettledStay(env, chunk, first.w, first.pending, left, tick, i);
    }
  }

  lemma EitherWay(env: Resolving, t: Tables, b: Tables, raw: ExtractedConcept)
    ensures Waits(env, t, b, raw) <==> forall id :: !IsSettled(env, t, b, raw, id)
  {
    hide Names.Normalize;
    var verdict := env.verdict(b, raw, env.candidates(b, raw));
    var norm := env.policy.edges.names.Normalize(raw.name);
    if !Waits(env, t, b, raw) {
      assert IsSettled(env, t, b, raw, if norm in t.aliases && IsActive(t, t.aliases[norm]) then t.aliases[norm]
                                       else verdict.value);
    }
  }

  /** A mention whose alias leads to an active concept becomes that concept, whatever the rules or the model say. */
  lemma AliasDecides(env: Resolving, chunk: int, t: Tables, raws: seq<ExtractedConcept>, left: Allowance, tick: nat,
                     i: nat)
    requires Usable(env, chunk, t) && DistinctNames(env, raws) && i < |raws|
    requires !Resolved(env, chunk, t, raws, left, tick).w.failed
    requires var norm := env.policy.edges.names.Normalize(raws[i].name);
             norm != "" && norm in t.aliases && IsActive(t, t.aliases[norm])
    ensures var results := Resolved(env, chunk, t, raws, left, tick).w.results;
            i in results &&
              results[i] ==
              ResolvedConcept(t.aliases[env.policy.edges.names.Normalize(raws[i].name)], false, false)
  {
    hide Usable, Resolved, DistinctNames, FirstStages, Names.Normalize, DecisionOn, ComesFrom;
    MentionMeaning(env, chunk, t, raws, left, tick, i);
    assert IsSettled(env, t, FirstStages(env, chunk, t, raws, i).w.t, raws[i],
                     t.aliases[env.policy.edges.names.Normalize(raws[i].name)]);
  }

  /** After a merge, a mention by any alias of the retired concept becomes the target. */
  lemma MergedMentions(env: Resolving, chunk: int, t: Tables, from: int, to: int, raws: seq<ExtractedConcept>,
                       left: Allowance, tick: nat, i: nat)
    requires Ready(env.policy.edges, t) && CanMerge(t, from, to) && DistinctNames(env, raws) && i < |raws|
    requires var m := Merged(env.policy.edges, t, from, to);
             Usable(env, chunk, m) && !Resolved(env, chunk, m, raws, left, tick).w.failed
    requires env.policy.edges.names.Normalize(raws[i].name) != ""
    requires exists alias :: alias in t.concepts[from].aliases &&
               env.policy.edges.names.Normalize(alias) == env.policy.edges.names.Normalize(raws[i].name)
    ensures var results := Resolved(env, chunk, Merged(env.policy.edges, t, from, to), raws, left, tick).w.results;
            i in results && results[i] == ResolvedConcept(to, false, false)
  {
    hide Usable, Resolved, DistinctNames, Names.Normalize, Repoint, Merged, Ready, CanMerge;
    NormIs(env, raws[i]);
    MergedNamesResolve(env, t, from, to, raws[i]);
    AliasDecides(env, chunk, Merged(env.policy.edges, t, from, to), raws, left, tick, i);
  }
}
