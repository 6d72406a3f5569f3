/** Resolving the concepts of one window (domain/graph/resolver.py, resolve_concepts_batch). */
module Resolver {
  import opened Numbers
  import opened Wrappers
  import opened Ordering
  import opened Sequences
  import opened Text
  import opened GraphTables
  import opened EdgeTable
  import opened GardenerMerge
  import opened GardenerDecisions
  import opened Extraction
  import opened ResolverDecisions
  import opened ResolverApply

  /** What the resolver asks of the world: the ranked candidates of a mention, the lexical and vector rules' verdict on
      them, whether a merge would change description or embedding, and the model. */
  datatype Resolving = Resolving(
    policy: ResolverPolicy,
    candidates: (Tables, ExtractedConcept) -> seq<int>,
    verdict: (Tables, ExtractedConcept, seq<int>) -> Option<int>,
    changes: (Tables, ExtractedConcept) -> bool,
    asking: Asking,
    batchSize: nat)

  /** Candidates are active concepts, and the deterministic rules pick one of them. */
  ghost predicate LooksUpActive(env: Resolving) {
    && (forall t, raw :: forall id | id in env.candidates(t, raw) :: IsActive(t, id))
    && (forall t, raw, ids :: env.verdict(t, raw, ids).Some? ==> env.verdict(t, raw, ids).value in ids)
  }

  /** The tables with the results so far; failed once a statement was refused. */
  datatype Work = Work(t: Tables, results: map<int, ResolvedConcept>, failed: bool)

  ghost predicate Usable(env: Resolving, chunk: int, t: Tables) {
    Ready(env.policy.edges, t) && chunk in t.chunks && LooksUpActive(env) && env.batchSize > 0
  }

  function Norm(env: Resolving, raw: ExtractedConcept): string { env.policy.edges.names.Normalize(raw.name) }

  /** The tables may be worked on, and hold all that earlier ones held. */
  ghost predicate Onward(env: Resolving, chunk: int, t: Tables, after: Tables) {
    Usable(env, chunk, after) && Grew(t, after)
  }

  lemma OnwardSelf(env: Resolving, chunk: int, t: Tables)
    requires Usable(env, chunk, t)
    ensures Onward(env, chunk, t, t)
  {
  }

  lemma OnwardTransitive(env: Resolving, chunk: int, a: Tables, b: Tables, c: Tables)
    requires Onward(env, chunk, a, b) && Onward(env, chunk, b, c)
    ensures Onward(env, chunk, a, c)
  {
    hide Usable;
    GrewTransitive(a, b, c);
  }

  lemma OnwardUsable(env: Resolving, chunk: int, t: Tables, after: Tables)
    requires Onward(env, chunk, t, after)
    ensures Usable(env, chunk, after) && Grew(t, after)
  {
  }

  /** One more decision. */
  function Did(env: Resolving, chunk: int, w: Work, s: Step): (r: Work)
    requires Usable(env, chunk, w.t) && IsGrounded(w.t, s.decision)
    ensures Onward(env, chunk, w.t, r.t) && (w.failed ==> r.failed)
  {
    hide Applied, IsGrounded, Ready, ResolvedBy, Fails;
    OnwardSelf(env, chunk, w.t);
    if w.failed then w
    else if Fails(env.policy, w.t, s) then w.(failed := true)
    else
      AppliedMeaning(env.policy, chunk, w.t, s);
      Work(Applied(env.policy, chunk, w.t, s), w.results[s.idx := ResolvedBy(env.policy, w.t, s)], false)
  }

  // ---- the deterministic stages ----

  /** find_alias_match */
  function AliasMatch(t: Tables, norm: string): (r: Option<int>)
    ensures r.Some? ==> IsActive(t, r.value)
  {
    if norm in t.aliases && IsActive(t, t.aliases[norm]) then Some(t.aliases[norm]) else None
  }

  /** The concept an alias, a lexical or a vector match settles on. */
  function SettledOn(env: Resolving, t: Tables, raw: ExtractedConcept): (r: Option<int>)
    requires LooksUpActive(env)
    ensures r.Some? ==> IsActive(t, r.value)
  {
    match AliasMatch(t, Norm(env, raw))
    case Some(id) => Some(id)
    case None => env.verdict(t, raw, env.candidates(t, raw))
  }

  function MergeStep(env: Resolving, t: Tables, idx: nat, raw: ExtractedConcept, id: int): Step {
    Step(idx, raw, Decision(MergeInto, Some(id), None, None, None, false), env.changes(t, raw))
  }

  /** After the deterministic stages on the first n mentions: what was written, and who waits for the model. */
  datatype Stage = Stage(w: Work, pending: seq<Pending>)

  function FirstStages(env: Resolving, chunk: int, t: Tables, raws: seq<ExtractedConcept>, n: nat): (r: Stage)
    requires Usable(env, chunk, t) && n <= |raws|
    ensures Onward(env, chunk, t, r.w.t) && !r.w.failed
  {
    hide Onward, Ready, Applied, ResolvedBy, Did;
    OnwardSelf(env, chunk, t);
    if n == 0 then Stage(Work(t, map[], false), [])
    else
      var before := FirstStages(env, chunk, t, raws, n - 1);
      OnwardUsable(env, chunk, t, before.w.t);
      FirstStage(env, chunk, t, before, n - 1, raws[n - 1])
  }

  /** One mention through the deterministic stages. */
  function FirstStage(env: Resolving, chunk: int, t: Tables, before: Stage, idx: nat, raw: ExtractedConcept): (r: Stage)
    requires Usable(env, chunk, before.w.t) && Onward(env, chunk, t, before.w.t) && !before.w.failed
    ensures Onward(env, chunk, t, r.w.t) && !r.w.failed
  {
    hide Onward, Ready, Applied, ResolvedBy;
    if Norm(env, raw) == "" then before
    else
      match SettledOn(env, before.w.t, raw)
      case Some(id) =>
        MergesNeverFail(env, before.w.t, idx, raw, id);
        var after := Did(env, chunk, before.w, MergeStep(env, before.w.t, idx, raw, id));
        OnwardTransitive(env, chunk, t, before.w.t, after.t);
        before.(w := after)
      case None => before.(pending := before.pending + [Pending(idx, raw, env.candidates(before.w.t, raw))])
  }

  lemma MergesNeverFail(env: Resolving, t: Tables, idx: nat, raw: ExtractedConcept, id: int)
    requires IsActive(t, id)
    ensures var s := MergeStep(env, t, idx, raw, id); IsGrounded(t, s.decision) && !Fails(env.policy, t, s)
    ensures ResolvedId(env.policy, t, MergeStep(env, t, idx, raw, id)) == id
  {
  }

  // ---- the model's stage ----

  /** Every waiting mention is offered active concepts only. */
  ghost predicate AllOffered(t: Tables, pending: seq<Pending>) {
    forall k | 0 <= k < |pending| :: forall id | id in pending[k].candidates :: IsActive(t, id)
  }

  function StepFor(env: Resolving, t: Tables, p: Pending,
                   d: Decision): Step { Step(p.idx, p.raw, d, env.changes(t, p.raw)) }

  /** Decisions that point, if anywhere, at their own mention's candidates. */
  ghost predicate AllAmong(ds: seq<Decision>, batch: seq<Pending>) {
    |ds| == |batch| && forall k | 0 <= k < |ds| :: IsAmong(ds[k], batch[k].candidates)
  }

  lemma StaysGrounded(t: Tables, after: Tables, ds: seq<Decision>, batch: seq<Pending>, k: nat)
    requires AllOffered(t, batch) && AllAmong(ds, batch) && Grew(t, after) && k < |batch|
    ensures IsGrounded(after, ds[k])
    ensures ds[k].kind == MergeInto ==> IsActive(after, ds[k].mergeInto.value)
  {
    OfferedGrows(t, after, batch);
    assert IsAmong(ds[k], batch[k].candidates);
    assert forall id | id in batch[k].candidates :: IsActive(after, id) && id in after.concepts;
    assert ds[k].mergeInto.Some? ==> IsActive(after, ds[k].mergeInto.value);
    assert ds[k].linkTo.Some? ==> IsActive(after, ds[k].linkTo.value);
  }

  /** The first n decisions of a batch. */
  function BatchApplied(env: Resolving, chunk: int, w: Work, batch: seq<Pending>, ds: seq<Decision>, n: nat): (r: Work)
    requires Usable(env, chunk, w.t) && AllOffered(w.t, batch) && AllAmong(ds, batch) && n <= |batch| == |ds|
    ensures Onward(env, chunk, w.t, r.t) && (w.failed ==> r.failed)
  {
    hide Onward, Usable, Grew, IsGrounded, AllOffered, AllAmong, Did;
    OnwardSelf(env, chunk, w.t);
    if n == 0 then w
    else
      var before := BatchApplied(env, chunk, w, batch, ds, n - 1);
      OnwardUsable(env, chunk, w.t, before.t);
      StaysGrounded(w.t, before.t, ds, batch, n - 1);
      var after := Did(env, chunk, before, StepFor(env, before.t, batch[n - 1], ds[n - 1]));
      OnwardTransitive(env, chunk, w.t, before.t, after.t);
      after
  }

  /** Calls still allowed in the window and in the document. */
  datatype Allowance = Allowance(chunk: int, document: int) {
    predicate Left() { chunk > 0 && document > 0 }
    function Minus(n: nat): Allowance { Allowance(chunk - n, document - n) }
  }

  datatype ModelStage = ModelStage(w: Work, left: Allowance)

  /** The batches of waiting mentions, one after the other; tick numbers the model calls. */
  function ModelStages(env: Resolving, chunk: int, w: Work, pending: seq<Pending>, left: Allowance,
                       tick: nat): (r: ModelStage)
    requires Usable(env, chunk, w.t) && AllOffered(w.t, pending)
    ensures Onward(env, chunk, w.t, r.w.t) && (w.failed ==> r.w.failed)
    ensures left.document - r.left.document == left.chunk - r.left.chunk >= 0
    ensures left.chunk >= 0 && left.document >= 0 ==> r.left.chunk >= 0 && r.left.document >= 0
    decreases |pending|
  {
    hide Onward, Grew, AllOffered, AllAmong, BatchApplied, Ready, LooksUpActive;
    OnwardSelf(env, chunk, w.t);
    if pending == [] then ModelStage(w, left)
    else
      var m := Min(env.batchSize, |pending|);
      BatchDecisionsAreAmong(env, pending[..m], left.Left(), tick);
      OfferedParts(w.t, pending, m);
      var after := BatchApplied(env, chunk, w, pending[..m], env.asking.Decisions(pending[..m], left.Left(), tick), m);
      OnwardUsable(env, chunk, w.t, after.t);
      OfferedGrows(w.t, after.t, pending[m..]);
      var last := ModelStages(env, chunk, after, pending[m..], left.Minus(env.asking.Spent(pending[..m], left.Left())),
                              tick + m);
      OnwardTransitive(env, chunk, w.t, after.t, last.w.t);
      last
  }

  lemma OfferedParts(t: Tables, pending: seq<Pending>, m: nat)
    requires AllOffered(t, pending) && m <= |pending|
    ensures AllOffered(t, pending[..m]) && AllOffered(t, pending[m..])
  {
  }

  lemma BatchDecisionsAreAmong(env: Resolving, batch: seq<Pending>, left: bool, tick: nat)
    ensures AllAmong(env.asking.Decisions(batch, left, tick), batch)
  {
    hide IsAmong;
    forall k | 0 <= k < |batch| ensures IsAmong(env.asking.Decisions(batch, left, tick)[k], batch[k].candidates) {
      env.asking.DecisionsAreAmong(batch, left, tick, k);
    }
  }

  /** resolve_concepts_batch */
  function Resolved(env: Resolving, chunk: int, t: Tables, raws: seq<ExtractedConcept>, left: Allowance,
                    tick: nat): (r: ModelStage)
    requires Usable(env, chunk, t)
    ensures Onward(env, chunk, t, r.w.t)
    ensures left.document - r.left.document == left.chunk - r.left.chunk >= 0
    ensures left.chunk >= 0 && left.document >= 0 ==> r.left.chunk >= 0 && r.left.document >= 0
  {
    hide Onward, Usable, FirstStages, ModelStages, AllOffered;
    var first := FirstStages(env, chunk, t, raws, |raws|);
    PendingOffered(env, chunk, t, raws, |raws|);
    OnwardUsable(env, chunk, t, first.w.t);
    var last := ModelStages(env, chunk, first.w, first.pending, left, tick);
    OnwardTransitive(env, chunk, t, first.w.t, last.w.t);
    last
  }

  lemma {:induction false} PendingOffered(env: Resolving, chunk: int, t: Tables, raws: seq<ExtractedConcept>, n: nat)
    requires Usable(env, chunk, t) && n <= |raws|
    ensures var r := FirstStages(env, chunk, t, raws, n); AllOffered(r.w.t, r.pending)
  {
    hide Onward, Usable, AllOffered, FirstStages, FirstStage;
    if n == 0 {
      NothingOffered(env, chunk, t, raws);
    } else {
      PendingOffered(env, chunk, t, raws, n - 1);
      var before := FirstStages(env, chunk, t, raws, n - 1);
      OnwardUsable(env, chunk, t, before.w.t);
      StageOffered(env, chunk, t, before, n - 1, raws[n - 1]);
      FirstStagesStep(env, chunk, t, raws, n - 1);
    }
  }

  lemma FirstStagesStep(env: Resolving, chunk: int, t: Tables, raws: seq<ExtractedConcept>, n: nat)
    requires Usable(env, chunk, t) && n < |raws|
    ensures var before := FirstStages(env, chunk, t, raws, n);
            && Usable(env, chunk, before.w.t)
            && FirstStages(env, chunk, t, raws, n + 1) == FirstStage(env, chunk, t, before, n, raws[n])
  {
    hide Onward, Usable, FirstStage;
    OnwardUsable(env, chunk, t, FirstStages(env, chunk, t, raws, n).w.t);
  }

  lemma NothingOffered(env: Resolving, chunk: int, t: Tables, raws: seq<ExtractedConcept>)
    requires Usable(env, chunk, t)
    ensures var r := FirstStages(env, chunk, t, raws, 0); AllOffered(r.w.t, r.pending)
  {
  }

  lemma StageOffered(env: Resolving, chunk: int, t: Tables, before: Stage, idx: nat, raw: ExtractedConcept)
    requires Usable(env, chunk, before.w.t) && Onward(env, chunk, t, before.w.t) && !before.w.failed
    requires AllOffered(before.w.t, before.pending)
    ensures var r := FirstStage(env, chunk, t, before, idx, raw); AllOffered(r.w.t, r.pending)
  {
    hide Ready, Did, Norm, Grew;
    match SettledOn(env, before.w.t, raw) {
      case Some(id) =>
        MergesNeverFail(env, before.w.t, idx, raw, id);
        OfferedGrows(before.w.t, Did(env, chunk, before.w, MergeStep(env, before.w.t, idx, raw, id)).t, before.pending);
      case None =>
    }
  }

  lemma OfferedGrows(t: Tables, after: Tables, pending: seq<Pending>)
    requires AllOffered(t, pending) && Grew(t, after)
    ensures AllOffered(after, pending)
  {
  }

  // ---- when a window can be refused ----

  /** The active concept that already has a mention's name, ignoring case, is among the mention's candidates: a decision
      to link the mention to it would be refused. */
  predicate OffersNamesake(env: Resolving, t: Tables, p: Pending) {
    var own := FindByName(env.policy, t, Strip(p.raw.name));
    own.Some? && own.value in p.candidates
  }

  /** Some mention that waits for the model, and is reached before the calls run out, is offered its namesake. */
  predicate CanRefuse(env: Resolving, t: Tables, pending: seq<Pending>, left: Allowance)
    requires env.batchSize > 0
    decreases |pending|
  {
    pending != [] &&
    var m := Min(env.batchSize, |pending|);
    || (left.Left() && exists k | 0 <= k < m :: OffersNamesake(env, t, pending[k]))
    || CanRefuse(env, t, pending[m..], left.Minus(env.asking.Spent(pending[..m], left.Left())))
  }

  /** The same of a window, decided once the deterministic stages are done and before the model is asked. */
  predicate RefusalPossible(env: Resolving, chunk: int, t: Tables, raws: seq<ExtractedConcept>, left: Allowance)
    requires Usable(env, chunk, t)
  {
    var first := FirstStages(env, chunk, t, raws, |raws|);
    CanRefuse(env, first.w.t, first.pending, left)
  }

  /** Writing decisions neither makes nor removes a namesake among candidates that were active before. */
  lemma NamesakeStays(env: Resolving, t: Tables, after: Tables, p: Pending)
    requires Ready(env.policy.edges, t) && Grew(t, after) && forall id | id in p.candidates :: IsActive(t, id)
    ensures OffersNamesake(env, after, p) <==> OffersNamesake(env, t, p)
  {
    var name := Strip(p.raw.name);
    var before, now := FindByName(env.policy, t, name), FindByName(env.policy, after, name);
    hide FindByName, Strip, EdgesAreSound, ChunkKeysHold, ConceptKeysHold, SameElsewhere;
    if OffersNamesake(env, t, p) {
      assert IsActive(after, before.value);
      assert now.Some? && now.value <= before.value < t.nextConcept;
      assert IsActive(t, now.value);
    }
    if OffersNamesake(env, after, p) {
      assert IsActive(t, now.value);
      assert before.Some? && IsActive(after, before.value);
    }
  }

  /** A decision among active candidates is refused exactly when it links a mention to its namesake. */
  lemma RefusedIsNamesakeLink(env: Resolving, t: Tables, p: Pending, d: Decision)
    requires Ready(env.policy.edges, t) && IsAmong(d, p.candidates) && forall id | id in p.candidates :: IsActive(t, id)
    ensures Fails(env.policy, t, StepFor(env, t, p, d)) <==>
            d.kind == LinkOnly && OffersNamesake(env, t, p) && d.linkTo == FindByName(env.policy, t, Strip(p.raw.name))
  {
    var name := Strip(p.raw.name);
    NextIsFree(env.policy, t);
    hide Ready, Strip, NameHolder, FindByName;
    var holder := NameHolder(t, name);
    assert d.linkTo.Some? ==> IsActive(t, d.linkTo.value);
    assert holder.Some? && IsActive(t, holder.value) ==> FindByName(env.policy, t, name).Some?;
  }

  lemma DidFails(env: Resolving, chunk: int, w: Work, s: Step)
    requires Usable(env, chunk, w.t) && IsGrounded(w.t, s.decision)
    ensures Did(env, chunk, w, s).failed <==> w.failed || Fails(env.policy, w.t, s)
  {
    hide Usable, Fails, Applied, IsGrounded;
  }

  /** One more decision of a batch fails exactly when it links a mention to its namesake. */
  lemma BatchStepFails(env: Resolving, chunk: int, w: Work, batch: seq<Pending>, ds: seq<Decision>, k: nat)
    requires Usable(env, chunk, w.t) && AllOffered(w.t, batch) && AllAmong(ds, batch) && k < |batch|
    ensures BatchApplied(env, chunk, w, batch, ds, k + 1).failed <==>
            || BatchApplied(env, chunk, w, batch, ds, k).failed
            || (ds[k].kind == LinkOnly && OffersNamesake(env, w.t, batch[k])
                && ds[k].linkTo ==
                     FindByName(env.policy, BatchApplied(env, chunk, w, batch, ds, k).t, Strip(batch[k].raw.name)))
  {
    hide Did, Grew, IsGrounded, BatchApplied, FindByName, OffersNamesake, IsAmong, Onward, Strip, Fails;
    BatchStep(env, chunk, w, batch, ds, k);
    var before := BatchApplied(env, chunk, w, batch, ds, k);
    OnwardUsable(env, chunk, w.t, before.t);
    OfferedGrows(w.t, before.t, batch);
    NamesakeStays(env, w.t, before.t, batch[k]);
    DidFails(env, chunk, before, StepFor(env, before.t, batch[k], ds[k]));
    RefusedIsNamesakeLink(env, before.t, batch[k], ds[k]);
  }

  lemma {:induction false} BatchNeverRefused(env: Resolving, chunk: int, w: Work, batch: seq<Pending>,
                                             ds: seq<Decision>, n: nat)
    requires Usable(env, chunk, w.t) && AllOffered(w.t, batch) && AllAmong(ds, batch) && n <= |batch| && !w.failed
    requires forall k | 0 <= k < |batch| :: ds[k].kind == LinkOnly ==> !OffersNamesake(env, w.t, batch[k])
    ensures !BatchApplied(env, chunk, w, batch, ds, n).failed
  {
    hide Usable, Onward, AllOffered, IsAmong, BatchApplied, OffersNamesake, FindByName;
    if n == 0 {
      BatchStart(env, chunk, w, batch, ds);
    } else {
      BatchNeverRefused(env, chunk, w, batch, ds, n - 1);
      BatchStepFails(env, chunk, w, batch, ds, n - 1);
    }
  }

  /** Whether a window can be refused does not change while decisions are written. */
  lemma {:induction false} CanRefuseStays(env: Resolving, chunk: int, t: Tables, after: Tables, pending: seq<Pending>,
                                          left: Allowance)
    requires Usable(env, chunk, t) && Grew(t, after) && AllOffered(t, pending)
    ensures CanRefuse(env, after, pending, left) <==> CanRefuse(env, t, pending, left)
    decreases |pending|
  {
    hide OffersNamesake, Grew, LooksUpActive, CanRefuse, Ready, Asking.Spent;
    CanRefuseStep(env, t, pending, left);
    CanRefuseStep(env, after, pending, left);
    if pending != [] {
      var m := Min(env.batchSize, |pending|);
      OfferedParts(t, pending, m);
      CanRefuseStays(env, chunk, t, after, pending[m..], left.Minus(env.asking.Spent(pending[..m], left.Left())));
      forall k | 0 <= k < m ensures OffersNamesake(env, after, pending[k]) <==> OffersNamesake(env, t, pending[k]) {
        NamesakeStays(env, t, after, pending[k]);
      }
    }
  }

  lemma CanRefuseStep(env: Resolving, t: Tables, pending: seq<Pending>, left: Allowance)
    requires env.batchSize > 0
    ensures pending == [] ==> !CanRefuse(env, t, pending, left)
    ensures pending != [] ==>
              var m := Min(env.batchSize, |pending|);
              CanRefuse(env, t, pending, left) <==>
              || (left.Left() && exists k | 0 <= k < m :: OffersNamesake(env, t, pending[k]))
              || CanRefuse(env, t, pending[m..], left.Minus(env.asking.Spent(pending[..m], left.Left())))
  {
    hide OffersNamesake;
  }

  /** Without a call left a batch only creates. */
  lemma NobodyLinks(env: Resolving, batch: seq<Pending>, tick: nat)
    ensures forall k | 0 <= k < |batch| :: env.asking.Decisions(batch, false, tick)[k].kind == CreateNew
  {
    forall k | 0 <= k < |batch| ensures env.asking.Decisions(batch, false, tick)[k].kind == CreateNew {
      env.asking.DecisionIs(batch, false, tick, k, |batch|);
    }
  }

  lemma {:induction false} ModelStagesNeverRefused(env: Resolving, chunk: int, w: Work, pending: seq<Pending>,
                                                   left: Allowance, tick: nat)
    requires Usable(env, chunk, w.t) && AllOffered(w.t, pending) && !w.failed
    requires env.batchSize > 0 && !CanRefuse(env, w.t, pending, left)
    ensures !ModelStages(env, chunk, w, pending, left, tick).w.failed
    decreases |pending|
  {
    hide Usable, Onward, AllOffered, AllAmong, BatchApplied, ModelStages, CanRefuse, OffersNamesake, Asking.Decisions,
      Asking.Spent, Grew;
    if pending == [] {
      NothingWaits(env, chunk, w, left, tick);
    } else {
      ModelStagesStep(env, chunk, w, pending, left, tick);
      CanRefuseStep(env, w.t, pending, left);
      var m := Min(env.batchSize, |pending|);
      var ds := env.asking.Decisions(pending[..m], left.Left(), tick);
      NobodyLinks(env, pending[..m], tick);
      BatchNeverRefused(env, chunk, w, pending[..m], ds, m);
      var after := BatchApplied(env, chunk, w, pending[..m], ds, m);
      OfferedParts(w.t, pending, m);
      OnwardUsable(env, chunk, w.t, after.t);
      var next := left.Minus(env.asking.Spent(pending[..m], left.Left()));
      CanRefuseStays(env, chunk, w.t, after.t, pending[m..], next);
      ModelStagesNeverRefused(env, chunk, after, pending[m..], next, tick + m);
    }
  }

  /** Unless some waiting mention that a call can reach is offered its namesake, no reply of the model gets a statement
      of the window refused. */
  lemma NeverRefused(env: Resolving, chunk: int, t: Tables, raws: seq<ExtractedConcept>, left: Allowance, tick: nat)
    requires Usable(env, chunk, t) && !RefusalPossible(env, chunk, t, raws, left)
    ensures !Resolved(env, chunk, t, raws, left, tick).w.failed
  {
    hide Onward, FirstStages, ModelStages, AllOffered, CanRefuse, Ready, LooksUpActive;
    var first := FirstStages(env, chunk, t, raws, |raws|);
    PendingOffered(env, chunk, t, raws, |raws|);
    OnwardUsable(env, chunk, t, first.w.t);
    ModelStagesNeverRefused(env, chunk, first.w, first.pending, left, tick);
  }

  /** The lexical and vector rules settle on some candidate whenever a mention is offered its namesake. */
  ghost predicate SettlesNamesakes(env: Resolving) {
    forall t: Tables, raw: ExtractedConcept ::
      var own := FindByName(env.policy, t, Strip(raw.name));
      own.Some? && own.value in env.candidates(t, raw) ==> env.verdict(t, raw, env.candidates(t, raw)).Some?
  }

  ghost predicate NoNamesakes(env: Resolving, t: Tables, pending: seq<Pending>) {
    forall k | 0 <= k < |pending| :: !OffersNamesake(env, t, pending[k])
  }

  lemma {:induction false} NoNamesakesNoRefusal(env: Resolving, t: Tables, pending: seq<Pending>, left: Allowance)
    requires env.batchSize > 0 && NoNamesakes(env, t, pending)
    ensures !CanRefuse(env, t, pending, left)
    decreases |pending|
  {
    hide OffersNamesake, Asking.Spent;
    if pending != [] {
      var m := Min(env.batchSize, |pending|);
      assert forall k | 0 <= k < |pending[m..]| :: pending[m..][k] == pending[m + k];
      NoNamesakesNoRefusal(env, t, pending[m..], left.Minus(env.asking.Spent(pending[..m], left.Left())));
    }
  }

  lemma NoNamesakesStay(env: Resolving, chunk: int, t: Tables, after: Tables, pending: seq<Pending>)
    requires Usable(env, chunk, t) && Grew(t, after) && AllOffered(t, pending) && NoNamesakes(env, t, pending)
    ensures NoNamesakes(env, after, pending)
  {
    hide OffersNamesake, Grew, LooksUpActive, Ready;
    forall k | 0 <= k < |pending| ensures !OffersNamesake(env, after, pending[k]) {
      NamesakeStays(env, t, after, pending[k]);
    }
  }

  lemma {:induction false} NamesakesAreSettled(env: Resolving, chunk: int, t: Tables, raws: seq<ExtractedConcept>,
                                               n: nat)
    requires Usable(env, chunk, t) && n <= |raws| && SettlesNamesakes(env)
    ensures var r := FirstStages(env, chunk, t, raws, n); NoNamesakes(env, r.w.t, r.pending)
  {
    hide Onward, Usable, AllOffered, FirstStages, FirstStage, SettlesNamesakes, NoNamesakes;
    if n == 0 {
      NoNamesakesYet(env, chunk, t, raws);
    } else {
      NamesakesAreSettled(env, chunk, t, raws, n - 1);
      PendingOffered(env, chunk, t, raws, n - 1);
      FirstStagesStep(env, chunk, t, raws, n - 1);
      FirstStageSettles(env, chunk, t, FirstStages(env, chunk, t, raws, n - 1), n - 1, raws[n - 1]);
    }
  }

  lemma NoNamesakesYet(env: Resolving, chunk: int, t: Tables, raws: seq<ExtractedConcept>)
    requires Usable(env, chunk, t)
    ensures var r := FirstStages(env, chunk, t, raws, 0); NoNamesakes(env, r.w.t, r.pending)
  {
  }

  lemma FirstStageSettles(env: Resolving, chunk: int, t: Tables, before: Stage, idx: nat, raw: ExtractedConcept)
    requires Usable(env, chunk, before.w.t) && Onward(env, chunk, t, before.w.t) && !before.w.failed
    requires AllOffered(before.w.t, before.pending) && NoNamesakes(env, before.w.t, before.pending)
    requires SettlesNamesakes(env)
    ensures var r := FirstStage(env, chunk, t, before, idx, raw); NoNamesakes(env, r.w.t, r.pending)
  {
    hide Ready, Did, Norm, Grew, LooksUpActive, AllOffered, FindByName;
    match SettledOn(env, before.w.t, raw) {
      case Some(id) =>
        MergesNeverFail(env, before.w.t, idx, raw, id);
        var after := Did(env, chunk, before.w, MergeStep(env, before.w.t, idx, raw, id));
        OnwardUsable(env, chunk, before.w.t, after.t);
        NoNamesakesStay(env, chunk, before.w.t, after.t, before.pending);
      case None =>
        assert !OffersNamesake(env, before.w.t, Pending(idx, raw, env.candidates(before.w.t, raw)));
    }
  }

  /** Lookups whose rules settle every namesake never let a window be refused. */
  lemma SettledNamesakesNeverRefuse(env: Resolving, chunk: int, t: Tables, raws: seq<ExtractedConcept>, left: Allowance)
    requires Usable(env, chunk, t) && SettlesNamesakes(env)
    ensures !RefusalPossible(env, chunk, t, raws, left)
  {
    hide FirstStages, CanRefuse, Ready, LooksUpActive, SettlesNamesakes, NoNamesakes;
    var first := FirstStages(env, chunk, t, raws, |raws|);
    NamesakesAreSettled(env, chunk, t, raws, |raws|);
    NoNamesakesNoRefusal(env, first.w.t, first.pending, left);
  }

  // ---- the methods ----

  /** Phase 1: exact, lexical and vector matches are written at once, the other mentions are collected. */
  method DeterministicStages(db: Session, env: Resolving, chunk: int, raws: seq<ExtractedConcept>)
    returns (results: map<int, ResolvedConcept>, pending: seq<Pending>)
    requires Usable(env, chunk, db.tables)
    modifies db
    ensures FirstStages(env, chunk, old(db.tables), raws, |raws|) == Stage(Work(db.tables, results, false), pending)
  {
    hide Usable, Onward, FirstStage;
    ghost var t := db.tables;
    results, pending := map[], [];
    for idx := 0 to |raws|
      invariant FirstStages(env, chunk, t, raws, idx) == Stage(Work(db.tables, results, false), pending)
    {
      OnwardUsable(env, chunk, t, db.tables);
      ghost var before := Stage(Work(db.tables, results, false), pending);
      var ready, settled := DeterministicStage(db, env, chunk, before, t, idx, raws[idx]);
      pending := pending + ready;
      if settled.Some? {
        results := results[idx := settled.value];
      }
    }
  }

  /** One mention: nothing for a blank name, a merge for a match, and otherwise it waits with its candidates. */
  method DeterministicStage(db: Session, env: Resolving, chunk: int, ghost before: Stage, ghost t: Tables, idx: nat,
                            raw: ExtractedConcept)
    returns (ready: seq<Pending>, settled: Option<ResolvedConcept>)
    requires Usable(env, chunk, db.tables) && Onward(env, chunk, t, db.tables) && before.w.t == db.tables
    requires !before.w.failed
    modifies db
    ensures FirstStage(env, chunk, t, before, idx, raw) ==
            Stage(Work(db.tables,
                       if settled.Some? then before.w.results[idx := settled.value] else before.w.results,
                       false),
                  before.pending + ready)
  {
    hide Ready, Applied, ResolvedBy, Fails, Onward, IsGrounded;
    Unit(before.pending);
    ready, settled := [], None;
    var norm := env.policy.edges.names.Normalize(raw.name);
    if norm == "" {
      return;
    }
    var exact := AliasMatch(db.tables, norm);
    var ids := env.candidates(db.tables, raw);
    var match_ := if exact.Some? then exact else env.verdict(db.tables, raw, ids);
    if match_.None? {
      ready := [Pending(idx, raw, ids)];
      return;
    }
    var step := Step(idx, raw, Decision(MergeInto, match_, None, None, None, false), env.changes(db.tables, raw));
    MergesNeverFail(env, db.tables, idx, raw, match_.value);
    var _, r := ApplyDecision(db, env.policy, chunk, step);
    settled := Some(r);
  }

  /** The decisions of one batch, written in order; a refused statement stops it. */
  method ApplyBatch(db: Session, env: Resolving, chunk: int, start: map<int, ResolvedConcept>, batch: seq<Pending>,
                    ds: seq<Decision>)
    returns (ok: bool, results: map<int, ResolvedConcept>)
    requires Usable(env, chunk, db.tables) && AllOffered(db.tables, batch) && AllAmong(ds, batch)
    modifies db
    ensures ok == !BatchApplied(env, chunk, Work(old(db.tables), start, false), batch, ds, |batch|).failed
    ensures ok ==>
              BatchApplied(env, chunk, Work(old(db.tables), start, false), batch, ds, |batch|) ==
              Work(db.tables, results, false)
  {
    hide Ready, Applied, ResolvedBy, Fails, Grew, LooksUpActive, Onward, IsGrounded, AllOffered, IsAmong, BatchApplied;
    ghost var w := Work(db.tables, start, false);
    BatchStart(env, chunk, w, batch, ds);
    results := start;
    for k := 0 to |batch|
      invariant BatchApplied(env, chunk, w, batch, ds, k) == Work(db.tables, results, false)
    {
      BatchStep(env, chunk, w, batch, ds, k);
      BatchFails(env, chunk, w, batch, ds, k + 1, |batch|);
      var step := Step(batch[k].idx, batch[k].raw, ds[k], env.changes(db.tables, batch[k].raw));
      var applied, r := ApplyDecision(db, env.policy, chunk, step);
      if !applied {
        return false, results;
      }
      results := results[step.idx := r];
    }
    ok := true;
  }

  lemma BatchStart(env: Resolving, chunk: int, w: Work, batch: seq<Pending>, ds: seq<Decision>)
    requires Usable(env, chunk, w.t) && AllOffered(w.t, batch) && AllAmong(ds, batch)
    ensures BatchApplied(env, chunk, w, batch, ds, 0) == w
  {
  }

  lemma BatchStep(env: Resolving, chunk: int, w: Work, batch: seq<Pending>, ds: seq<Decision>, k: nat)
    requires Usable(env, chunk, w.t) && AllOffered(w.t, batch) && AllAmong(ds, batch) && k < |batch|
    ensures var before := BatchApplied(env, chunk, w, batch, ds, k);
            && Usable(env, chunk, before.t) && IsGrounded(before.t, ds[k])
            && BatchApplied(env, chunk, w, batch, ds, k + 1) ==
                 Did(env, chunk, before, StepFor(env, before.t, batch[k], ds[k]))
  {
    hide Usable, Did, Grew, IsGrounded, AllOffered;
    var before := BatchApplied(env, chunk, w, batch, ds, k);
    OnwardUsable(env, chunk, w.t, before.t);
    StaysGrounded(w.t, before.t, ds, batch, k);
  }

  lemma {:induction false} BatchFails(env: Resolving, chunk: int, w: Work, batch: seq<Pending>, ds: seq<Decision>,
                                      k: nat, n: nat)
    requires Usable(env, chunk, w.t) && AllOffered(w.t, batch) && AllAmong(ds, batch) && k <= n <= |batch|
    ensures BatchApplied(env, chunk, w, batch, ds, k).failed ==> BatchApplied(env, chunk, w, batch, ds, n).failed
    decreases n
  {
    hide Usable, Did, BatchApplied, AllOffered, IsAmong, IsGrounded;
    if k < n {
      BatchFails(env, chunk, w, batch, ds, k, n - 1);
      BatchStep(env, chunk, w, batch, ds, n - 1);
    }
  }

  /** [results[i] for i in sorted(results)] */
  function InOrder(results: map<int, ResolvedConcept>): (r: seq<ResolvedConcept>)
    ensures |r| == |results.Keys|
  {
    var ids := SortedInts(results.Keys);
    assert forall i | 0 <= i < |ids| :: ids[i] in ids;
    Picked(results, ids)
  }

  function Picked(results: map<int, ResolvedConcept>, ids: seq<int>): (r: seq<ResolvedConcept>)
    requires forall i | 0 <= i < |ids| :: ids[i] in results
    ensures |r| == |ids| && forall i | 0 <= i < |r| :: r[i] == results[ids[i]]
  {
    if ids == [] then [] else Picked(results, ids[..|ids| - 1]) + [results[ids[|ids| - 1]]]
  }

  function AllowanceOf(budgets: ResolverBudgets): Allowance
    reads budgets
  {
    Allowance(budgets.maxPerChunk - budgets.chunkCalls, budgets.maxPerDocument - budgets.documentCalls)
  }

  /** resolve_concepts_batch: ok is false when a statement was refused, which aborts the whole build. */
  method ResolveConceptsBatch(db: Session, env: Resolving, chunk: int, raws: seq<ExtractedConcept>,
                              budgets: ResolverBudgets, tick: nat)
    returns (ok: bool, results: seq<ResolvedConcept>)
    requires Usable(env, chunk, db.tables)
    modifies db, budgets
    ensures ok == !Resolved(env, chunk, old(db.tables), raws, old(AllowanceOf(budgets)), tick).w.failed
    ensures ok ==>
              var r := Resolved(env, chunk, old(db.tables), raws, old(AllowanceOf(budgets)), tick);
              db.tables == r.w.t && results == InOrder(r.w.results) && AllowanceOf(budgets) == r.left
    ensures ok ==>
              budgets.documentCalls - old(budgets.documentCalls) == budgets.chunkCalls - old(budgets.chunkCalls) >= 0
    ensures old(budgets.Within()) ==> budgets.Within()
  {
    hide Usable, Onward, FirstStages, ModelStages, AllOffered, InOrder;
    ghost var t := db.tables;
    var found, pending := DeterministicStages(db, env, chunk, raws);
    PendingOffered(env, chunk, t, raws, |raws|);
    OnwardUsable(env, chunk, t, db.tables);
    ok, found := ModelBatches(db, env, chunk, found, pending, budgets, tick);
    results := InOrder(found);
  }

  /** Phase 2: the waiting mentions in batches. */
  method ModelBatches(db: Session, env: Resolving, chunk: int, start: map<int, ResolvedConcept>, pending: seq<Pending>,
                      budgets: ResolverBudgets, tick: nat)
    returns (ok: bool, results: map<int, ResolvedConcept>)
    requires Usable(env, chunk, db.tables) && AllOffered(db.tables, pending)
    modifies db, budgets
    ensures var r := ModelStages(env, chunk, Work(old(db.tables), start, false), pending, old(AllowanceOf(budgets)),
                                 tick);
            && ok == !r.w.failed
            && (ok ==> r == ModelStage(Work(db.tables, results, false), AllowanceOf(budgets)))
    ensures old(budgets.Within()) ==> budgets.Within()
  {
    hide Usable, Onward, ModelStages, AllOffered, AllAmong, BatchApplied, Grew, Resolved, FirstStages, Asking.Decisions,
      Asking.Spent;
    ghost var left := AllowanceOf(budgets);
    ghost var goal := ModelStages(env, chunk, Work(db.tables, start, false), pending, left, tick);
    results := start;
    var first, call := 0, tick;
    Whole(pending);
    while first < |pending|
      invariant 0 <= first <= |pending| && call >= tick
      invariant Usable(env, chunk, db.tables) && AllOffered(db.tables, pending[first..])
      invariant ModelStages(env, chunk, Work(db.tables, results, false), pending[first..], AllowanceOf(budgets),
                            call) == goal
      invariant old(budgets.Within()) ==> budgets.Within()
    {
      BatchSizePositive(env, chunk, db.tables);
      ghost var w, rest := Work(db.tables, results, false), pending[first..];
      var m := Min(env.batchSize, |pending| - first);
      var batch := pending[first..first + m];
      Rest(pending, first, m);
      OfferedParts(db.tables, rest, m);
      ModelStagesStep(env, chunk, w, rest, AllowanceOf(budgets), call);
      ghost var now := AllowanceOf(budgets);
      var ds := env.asking.BatchLlmDisambiguation(batch, budgets, call);
      BatchDecisionsAreAmong(env, batch, now.Left(), call);
      ok, results := ApplyBatch(db, env, chunk, results, batch, ds);
      if !ok {
        return;
      }
      OnwardUsable(env, chunk, w.t, db.tables);
      OfferedGrows(w.t, db.tables, rest[m..]);
      first, call := first + m, call + m;
    }
    NothingWaits(env, chunk, Work(db.tables, results, false), AllowanceOf(budgets), call);
    ok := true;
  }

  lemma BatchSizePositive(env: Resolving, chunk: int, t: Tables)
    requires Usable(env, chunk, t)
    ensures env.batchSize > 0
  {
  }

  lemma NothingWaits(env: Resolving, chunk: int, w: Work, left: Allowance, tick: nat)
    requires Usable(env, chunk, w.t)
    ensures AllOffered(w.t, []) && ModelStages(env, chunk, w, [], left, tick) == ModelStage(w, left)
  {
  }

  lemma ModelStagesStep(env: Resolving, chunk: int, w: Work, pending: seq<Pending>, left: Allowance, tick: nat)
    requires Usable(env, chunk, w.t) && AllOffered(w.t, pending) && pending != []
    ensures var m := Min(env.batchSize, |pending|);
            var ds := env.asking.Decisions(pending[..m], left.Left(), tick);
            && AllOffered(w.t, pending[..m]) && AllAmong(ds, pending[..m])
            && var after := BatchApplied(env, chunk, w, pending[..m], ds, m);
               && Usable(env, chunk, after.t) && AllOffered(after.t, pending[m..])
               && ModelStages(env, chunk, w, pending, left, tick) ==
                  ModelStages(env, chunk, after, pending[m..], left.Minus(env.asking.Spent(pending[..m], left.Left())),
                              tick + m)
  {
    hide Usable, Onward, Grew, AllOffered, AllAmong, BatchApplied;
    BatchSizePositive(env, chunk, w.t);
    var m := Min(env.batchSize, |pending|);
    BatchDecisionsAreAmong(env, pending[..m], left.Left(), tick);
    OfferedParts(w.t, pending, m);
    var after := BatchApplied(env, chunk, w, pending[..m], env.asking.Decisions(pending[..m], left.Left(), tick), m);
    OnwardUsable(env, chunk, w.t, after.t);
    OfferedGrows(w.t, after.t, pending[m..]);
  }

  // ---- one result per concept ----

  /** No two named mentions have the same normal form, as extraction guarantees. */
  ghost predicate DistinctNames(env: Resolving, raws: seq<ExtractedConcept>) {
    forall i, j | 0 <= i < j < |raws| :: Norm(env, raws[i]) != Norm(env, raws[j]) || Norm(env, raws[i]) == ""
  }

  function Named(env: Resolving, raws: seq<ExtractedConcept>, n: nat): (s: set<int>)
    requires n <= |raws|
  {
    set i: int | 0 <= i < n && Norm(env, raws[i]) != ""
  }

  /** The mention's alias leads to its result, which is an existing concept with provenance in the chunk. */
  ghost predicate IsRecorded(env: Resolving, chunk: int, t: Tables, raw: ExtractedConcept, r: ResolvedConcept) {
    && r.id in t.concepts && (ConceptTarget(r.id), chunk) in t.provenance
    && Norm(env, raw) in t.aliases && t.aliases[Norm(env, raw)] == r.id
  }

  ghost predicate Recorded(env: Resolving, chunk: int, raws: seq<ExtractedConcept>, w: Work) {
    forall i | i in w.results ::
      0 <= i < |raws| && Norm(env, raws[i]) != "" && IsRecorded(env, chunk, w.t, raws[i], w.results[i])
  }

  ghost predicate IsMention(env: Resolving, raws: seq<ExtractedConcept>, idx: nat, raw: ExtractedConcept) {
    idx < |raws| && raw == raws[idx] && Norm(env, raw) != ""
  }

  lemma DidRecords(env: Resolving, chunk: int, raws: seq<ExtractedConcept>, w: Work, s: Step)
    requires Usable(env, chunk, w.t) && IsGrounded(w.t, s.decision) && DistinctNames(env, raws) && !w.failed
    requires Recorded(env, chunk, raws, w) && IsMention(env, raws, s.idx, s.raw)
    ensures var r := Did(env, chunk, w, s); !r.failed ==>
              Recorded(env, chunk, raws, r) && r.results.Keys == w.results.Keys + {s.idx}
  {
    hide Onward, Ready, Applied, ResolvedId, Fails, Norm;
    var after := Did(env, chunk, w, s);
    if !after.failed {
      AppliedMeaning(env.policy, chunk, w.t, s);
      var id := ResolvedId(env.policy, w.t, s);
      assert env.policy.edges.names.Normalize(s.raw.name) == Norm(env, s.raw) by { NormIs(env, s.raw); }
      forall i | i in after.results
        ensures 0 <= i < |raws| && Norm(env, raws[i]) != ""
        ensures IsRecorded(env, chunk, after.t, raws[i], after.results[i])
      {
        if i != s.idx {
          assert IsRecorded(env, chunk, w.t, raws[i], w.results[i]);
          assert Norm(env, raws[i]) != Norm(env, s.raw);
        }
      }
    }
  }

  lemma NormIs(env: Resolving, raw: ExtractedConcept)
    ensures Norm(env, raw) == env.policy.edges.names.Normalize(raw.name)
  {
  }

  function PendingIds(pending: seq<Pending>, n: nat): (s: set<int>)
    requires n <= |pending|
  {
    if n == 0 then {} else PendingIds(pending, n - 1) + {pending[n - 1].idx}
  }

  ghost predicate AreMentions(env: Resolving, raws: seq<ExtractedConcept>, pending: seq<Pending>) {
    forall k | 0 <= k < |pending| :: IsMention(env, raws, pending[k].idx, pending[k].raw)
  }

  lemma {:induction false} PendingIdsPrefix(a: seq<Pending>, b: seq<Pending>, n: nat)
    requires n <= |a| && a <= b
    ensures PendingIds(a, n) == PendingIds(b, n)
  {
    if n > 0 { PendingIdsPrefix(a, b, n - 1); }
  }

  lemma {:induction false} PendingIdsSplit(pending: seq<Pending>, m: nat, n: nat)
    requires m + n <= |pending|
    ensures PendingIds(pending, m + n) == PendingIds(pending, m) + PendingIds(pending[m..], n)
  {
    if n > 0 {
      PendingIdsSplit(pending, m, n - 1);
      assert pending[m..][n - 1] == pending[m + n - 1];
    }
  }

  lemma {:induction false} FirstStagesRecord(env: Resolving, chunk: int, t: Tables, raws: seq<ExtractedConcept>, n: nat)
    requires Usable(env, chunk, t) && n <= |raws| && DistinctNames(env, raws)
    ensures var r := FirstStages(env, chunk, t, raws, n);
            && Recorded(env, chunk, raws, r.w) && AreMentions(env, raws, r.pending)
            && r.w.results.Keys + PendingIds(r.pending, |r.pending|) == Named(env, raws, n)
  {
    hide Onward, Usable, FirstStages, FirstStage, Recorded, AreMentions, Named, PendingIds;
    if n == 0 {
      NothingRecorded(env, chunk, t, raws);
    } else {
      FirstStagesRecord(env, chunk, t, raws, n - 1);
      FirstStagesStep(env, chunk, t, raws, n - 1);
      FirstStageRecords(env, chunk, t, raws, FirstStages(env, chunk, t, raws, n - 1), n - 1);
    }
  }

  lemma NothingRecorded(env: Resolving, chunk: int, t: Tables, raws: seq<ExtractedConcept>)
    requires Usable(env, chunk, t)
    ensures var r := FirstStages(env, chunk, t, raws, 0);
            && Recorded(env, chunk, raws, r.w) && AreMentions(env, raws, r.pending)
            && r.w.results.Keys + PendingIds(r.pending, |r.pending|) == Named(env, raws, 0)
  {
  }

  lemma NamedStep(env: Resolving, raws: seq<ExtractedConcept>, n: nat)
    requires n < |raws|
    ensures Named(env, raws, n + 1) == Named(env, raws, n) + if Norm(env, raws[n]) == "" then {} else {n}
  {
    hide Norm;
  }

  lemma FirstStageRecords(env: Resolving, chunk: int, t: Tables, raws: seq<ExtractedConcept>, before: Stage, n: nat)
    requires Usable(env, chunk, before.w.t) && Onward(env, chunk, t, before.w.t) && !before.w.failed
    requires n < |raws| && DistinctNames(env, raws) && Recorded(env, chunk, raws, before.w)
    requires AreMentions(env, raws, before.pending)
    requires before.w.results.Keys + PendingIds(before.pending, |before.pending|) == Named(env, raws, n)
    ensures var r := FirstStage(env, chunk, t, before, n, raws[n]);
            && Recorded(env, chunk, raws, r.w) && AreMentions(env, raws, r.pending)
            && r.w.results.Keys + PendingIds(r.pending, |r.pending|) == Named(env, raws, n + 1)
  {
    hide Onward, Ready, Did, Norm, Named, Recorded, DistinctNames;
    NamedStep(env, raws, n);
    var raw := raws[n];
    if Norm(env, raw) != "" {
      match SettledOn(env, before.w.t, raw) {
        case Some(id) =>
          MergesNeverFail(env, before.w.t, n, raw, id);
          DidRecords(env, chunk, raws, before.w, MergeStep(env, before.w.t, n, raw, id));
        case None =>
          PendingIdsPrefix(before.pending, before.pending + [Pending(n, raw, env.candidates(before.w.t, raw))],
                           |before.pending|);
      }
    }
  }

  lemma {:induction false} BatchRecords(env: Resolving, chunk: int, raws: seq<ExtractedConcept>, w: Work,
                                        batch: seq<Pending>, ds: seq<Decision>, n: nat)
    requires Usable(env, chunk, w.t) && AllOffered(w.t, batch) && AllAmong(ds, batch) && n <= |batch|
    requires DistinctNames(env, raws) && Recorded(env, chunk, raws, w) && AreMentions(env, raws, batch) && !w.failed
    ensures var r := BatchApplied(env, chunk, w, batch, ds, n);
            !r.failed ==> Recorded(env, chunk, raws, r) && r.results.Keys == w.results.Keys + PendingIds(batch, n)
  {
    hide Usable, Onward, AllOffered, IsAmong, IsGrounded, Recorded, DistinctNames, IsMention, Did, BatchApplied;
    if n == 0 {
      BatchStart(env, chunk, w, batch, ds);
    } else {
      BatchRecords(env, chunk, raws, w, batch, ds, n - 1);
      BatchStep(env, chunk, w, batch, ds, n - 1);
      var before := BatchApplied(env, chunk, w, batch, ds, n - 1);
      if !before.failed {
        DidRecords(env, chunk, raws, before, StepFor(env, before.t, batch[n - 1], ds[n - 1]));
      }
    }
  }

  lemma {:induction false} ModelStagesRecord(env: Resolving, chunk: int, raws: seq<ExtractedConcept>, w: Work,
                                             pending: seq<Pending>, left: Allowance, tick: nat)
    requires Usable(env, chunk, w.t) && AllOffered(w.t, pending)
    requires DistinctNames(env, raws) && Recorded(env, chunk, raws, w) && AreMentions(env, raws, pending) && !w.failed
    ensures var r := ModelStages(env, chunk, w, pending, left, tick).w;
            !r.failed ==>
              Recorded(env, chunk, raws, r) && r.results.Keys == w.results.Keys + PendingIds(pending, |pending|)
    decreases |pending|
  {
    hide Usable, Onward, AllOffered, AllAmong, Recorded, DistinctNames, IsMention, BatchApplied, ModelStages,
      PendingIds;
    if pending == [] {
      NothingWaits(env, chunk, w, left, tick);
      NobodyWaits();
    } else {
      BatchSizePositive(env, chunk, w.t);
      ModelStagesStep(env, chunk, w, pending, left, tick);
      var m := Min(env.batchSize, |pending|);
      var ds := env.asking.Decisions(pending[..m], left.Left(), tick);
      BatchRecords(env, chunk, raws, w, pending[..m], ds, m);
      var after := BatchApplied(env, chunk, w, pending[..m], ds, m);
      PendingIdsSplit(pending, m, |pending| - m);
      PendingIdsPrefix(pending[..m], pending, m);
      if !after.failed {
        ModelStagesRecord(env, chunk, raws, after, pending[m..],
                          left.Minus(env.asking.Spent(pending[..m], left.Left())), tick + m);
      }
    }
  }

  lemma NobodyWaits()
    ensures PendingIds([], 0) == {}
  {
  }

  /** After a window whose mentions have distinct names, the results are exactly those of the named mentions, and every
      mention's alias leads to its own result. */
  lemma ResolvedMeaning(env: Resolving, chunk: int, t: Tables, raws: seq<ExtractedConcept>, left: Allowance, tick: nat)
    requires Usable(env, chunk, t) && DistinctNames(env, raws)
    ensures var r := Resolved(env, chunk, t, raws, left, tick).w;
            && (!RefusalPossible(env, chunk, t, raws, left) ==> !r.failed)
            && (!r.failed ==> Recorded(env, chunk, raws, r) && r.results.Keys == Named(env, raws, |raws|))
  {
    if !RefusalPossible(env, chunk, t, raws, left) { NeverRefused(env, chunk, t, raws, left, tick); }
    hide RefusalPossible, Usable, Onward, FirstStages, ModelStages, AllOffered, Recorded, DistinctNames, AreMentions,
      PendingIds, Named;
    var first := FirstStages(env, chunk, t, raws, |raws|);
    PendingOffered(env, chunk, t, raws, |raws|);
    OnwardUsable(env, chunk, t, first.w.t);
    FirstStagesRecord(env, chunk, t, raws, |raws|);
    ModelStagesRecord(env, chunk, raws, first.w, first.pending, left, tick);
    ModelFailureStays(env, chunk, first.w, first.pending, left, tick);
  }

  lemma ModelFailureStays(env: Resolving, chunk: int, w: Work, pending: seq<Pending>, left: Allowance, tick: nat)
    requires Usable(env, chunk, w.t) && AllOffered(w.t, pending)
    ensures w.failed ==> ModelStages(env, chunk, w, pending, left, tick).w.failed
  {
    hide Usable, Onward, ModelStages;
  }

  lemma AllNumbered(s: set<int>, n: nat)
    requires forall i :: i in s <==> 0 <= i < n
    ensures |SortedInts(s)| == n && forall i | 0 <= i < n :: SortedInts(s)[i] == i
  {
    var xs := SortedInts(s);
    var numbers: seq<int> := Indices(n);
    forall i ensures i in numbers <==> i in s {
      if i in s { assert numbers[i] == i; }
    }
    AscendingUnique(xs, numbers, s, (x, y) => x < y);
  }

  /** One result per mention, in the mentions' order, when every mention has a name and no namesake is offered. */
  lemma OneResultPerConcept(env: Resolving, chunk: int, t: Tables, raws: seq<ExtractedConcept>, left: Allowance,
                            tick: nat)
    requires Usable(env, chunk, t) && DistinctNames(env, raws)
    requires forall i | 0 <= i < |raws| :: Norm(env, raws[i]) != ""
    ensures var w := Resolved(env, chunk, t, raws, left, tick).w;
            var list := InOrder(w.results);
            && (!RefusalPossible(env, chunk, t, raws, left) ==> !w.failed)
            && (!w.failed ==> |list| == |raws| && forall i | 0 <= i < |raws| ::
                IsRecorded(env, chunk, w.t, raws[i], list[i]))
  {
    hide Usable, Onward, Resolved, DistinctNames, Norm, IsRecorded, RefusalPossible;
    if !RefusalPossible(env, chunk, t, raws, left) { NeverRefused(env, chunk, t, raws, left, tick); }
    ResolvedMeaning(env, chunk, t, raws, left, tick);
    var w := Resolved(env, chunk, t, raws, left, tick).w;
    if !w.failed {
      assert forall i :: i in Named(env, raws, |raws|) <==> 0 <= i < |raws|;
      AllNumbered(w.results.Keys, |raws|);
    }
  }

  // ---- the alias map over a window ----

  /** No retired row holds the exact name of a mention. */
  ghost predicate NoRetiredNames(t: Tables, raws: seq<ExtractedConcept>) {
    forall i, c | 0 <= i < |raws| && c in t.concepts && t.concepts[c].name == Strip(raws[i].name) ::
      t.concepts[c].active
  }

  ghost predicate AliasesSound(t: Tables, raws: seq<ExtractedConcept>) { AliasesActive(t) && NoRetiredNames(t, raws) }

  lemma DidKeepsAliases(env: Resolving, chunk: int, raws: seq<ExtractedConcept>, w: Work, s: Step)
    requires Usable(env, chunk, w.t) && IsGrounded(w.t, s.decision) && IsMention(env, raws, s.idx, s.raw)
    requires s.decision.kind == MergeInto ==> IsActive(w.t, s.decision.mergeInto.value)
    requires AliasesSound(w.t, raws)
    ensures AliasesSound(Did(env, chunk, w, s).t, raws)
  {
    hide Onward, Ready, Applied, Fails, Norm, Strip, AliasesActive;
    if !w.failed && !Fails(env.policy, w.t, s) {
      AliasesStayActive(env.policy, chunk, w.t, s);
      AppliedMeaning(env.policy, chunk, w.t, s);
      assert !ReusesRetired(env.policy, w.t, s)
        by { HolderIsRetired(env.policy, w.t, s); NotRetired(env.policy, raws, w.t, s); }
    }
  }

  lemma NotRetired(p: ResolverPolicy, raws: seq<ExtractedConcept>, t: Tables, s: Step)
    requires NoRetiredNames(t, raws) && s.idx < |raws| && s.raw == raws[s.idx]
    ensures !ReusesRetired(p, t, s)
  {
    hide Strip;
    var name := Strip(s.raw.name);
    var holder := NameHolder(t, name);
    assert holder.Some? ==> IsActive(t, holder.value) && p.lower(t.concepts[holder.value].name) == p.lower(name);
  }

  lemma {:induction false} FirstStagesKeepAliases(env: Resolving, chunk: int, t: Tables, raws: seq<ExtractedConcept>,
                                                  n: nat)
    requires Usable(env, chunk, t) && n <= |raws| && AliasesSound(t, raws)
    ensures AliasesSound(FirstStages(env, chunk, t, raws, n).w.t, raws)
  {
    hide Onward, Usable, FirstStages, FirstStage, AliasesSound;
    if n == 0 {
      FirstStagesStart(env, chunk, t, raws);
    } else {
      FirstStagesKeepAliases(env, chunk, t, raws, n - 1);
      FirstStagesStep(env, chunk, t, raws, n - 1);
      FirstStageKeepsAliases(env, chunk, t, raws, FirstStages(env, chunk, t, raws, n - 1), n - 1);
    }
  }

  lemma FirstStagesStart(env: Resolving, chunk: int, t: Tables, raws: seq<ExtractedConcept>)
    requires Usable(env, chunk, t)
    ensures FirstStages(env, chunk, t, raws, 0).w.t == t
  {
  }

  lemma FirstStageKeepsAliases(env: Resolving, chunk: int, t: Tables, raws: seq<ExtractedConcept>, before: Stage,
                               n: nat)
    requires Usable(env, chunk, before.w.t) && Onward(env, chunk, t, before.w.t) && !before.w.failed
    requires n < |raws| && AliasesSound(before.w.t, raws)
    ensures AliasesSound(FirstStage(env, chunk, t, before, n, raws[n]).w.t, raws)
  {
    hide Onward, Ready, Did, Norm, AliasesSound;
    var raw := raws[n];
    if Norm(env, raw) != "" {
      match SettledOn(env, before.w.t, raw) {
        case Some(id) =>
          MergesNeverFail(env, before.w.t, n, raw, id);
          DidKeepsAliases(env, chunk, raws, before.w, MergeStep(env, before.w.t, n, raw, id));
        case None =>
      }
    }
  }

  lemma {:induction false} BatchKeepsAliases(env: Resolving, chunk: int, raws: seq<ExtractedConcept>, w: Work,
                                             batch: seq<Pending>, ds: seq<Decision>, n: nat)
    requires Usable(env, chunk, w.t) && AllOffered(w.t, batch) && AllAmong(ds, batch) && n <= |batch|
    requires AreMentions(env, raws, batch) && AliasesSound(w.t, raws)
    ensures AliasesSound(BatchApplied(env, chunk, w, batch, ds, n).t, raws)
  {
    hide Usable, Onward, AllOffered, IsAmong, IsGrounded, AliasesSound, IsMention, Did, BatchApplied, Grew;
    if n == 0 {
      BatchStart(env, chunk, w, batch, ds);
    } else {
      BatchKeepsAliases(env, chunk, raws, w, batch, ds, n - 1);
      BatchStep(env, chunk, w, batch, ds, n - 1);
      var before := BatchApplied(env, chunk, w, batch, ds, n - 1);
      OnwardUsable(env, chunk, w.t, before.t);
      StaysGrounded(w.t, before.t, ds, batch, n - 1);
      DidKeepsAliases(env, chunk, raws, before, StepFor(env, before.t, batch[n - 1], ds[n - 1]));
    }
  }

  lemma {:induction false} ModelStagesKeepAliases(env: Resolving, chunk: int, raws: seq<ExtractedConcept>, w: Work,
                                                  pending: seq<Pending>, left: Allowance, tick: nat)
    requires Usable(env, chunk, w.t) && AllOffered(w.t, pending) && AreMentions(env, raws, pending)
    requires AliasesSound(w.t, raws)
    ensures AliasesSound(ModelStages(env, chunk, w, pending, left, tick).w.t, raws)
    decreases |pending|
  {
    hide Usable, Onward, AllOffered, AllAmong, AliasesSound, IsMention, BatchApplied, ModelStages;
    if pending == [] {
      NothingWaits(env, chunk, w, left, tick);
    } else {
      BatchSizePositive(env, chunk, w.t);
      ModelStagesStep(env, chunk, w, pending, left, tick);
      var m := Min(env.batchSize, |pending|);
      var ds := env.asking.Decisions(pending[..m], left.Left(), tick);
      BatchKeepsAliases(env, chunk, raws, w, pending[..m], ds, m);
      var after := BatchApplied(env, chunk, w, pending[..m], ds, m);
      ModelStagesKeepAliases(env, chunk, raws, after, pending[m..],
                             left.Minus(env.asking.Spent(pending[..m], left.Left())), tick + m);
    }
  }

  /** Resolving a window keeps the alias map on active concepts, provided no retired row holds a mention's name. */
  lemma WindowKeepsAliases(env: Resolving, chunk: int, t: Tables, raws: seq<ExtractedConcept>, left: Allowance,
                           tick: nat)
    requires Usable(env, chunk, t) && DistinctNames(env, raws) && AliasesSound(t, raws)
    ensures AliasesActive(Resolved(env, chunk, t, raws, left, tick).w.t)
  {
    hide Usable, Onward, FirstStages, ModelStages, AllOffered, Recorded, DistinctNames, AreMentions, PendingIds, Named,
      NoRetiredNames, AliasesActive;
    var first := FirstStages(env, chunk, t, raws, |raws|);
    PendingOffered(env, chunk, t, raws, |raws|);
    OnwardUsable(env, chunk, t, first.w.t);
    FirstStagesRecord(env, chunk, t, raws, |raws|);
    FirstStagesKeepAliases(env, chunk, t, raws, |raws|);
    ModelStagesKeepAliases(env, chunk, raws, first.w, first.pending, left, tick);
  }

  /** After a merge every alias of the retired concept is an exact match for the target, so its mentions go there. */
  lemma MergedNamesResolve(env: Resolving, t: Tables, from: int, to: int, raw: ExtractedConcept)
    requires Ready(env.policy.edges, t) && CanMerge(t, from, to)
    requires Norm(env, raw) != "" && Norm(env, raw) in env.policy.edges.names.NormSet(t.concepts[from].aliases)
    ensures AliasMatch(Merged(env.policy.edges, t, from, to), Norm(env, raw)) == Some(to)
  {
    hide Repoint, Norm;
    MergeMeaning(env.policy.edges, t, from, to);
  }
}
