/** The resolver's call budget and what it makes of the model's answers
    (domain/graph/types.py ResolverBudgets, domain/graph/resolver.py). */
module ResolverDecisions {
  import opened Wrappers
  import opened Sequences
  import opened GardenerDecisions
  import opened Disambiguation
  import opened Extraction

  /** Calls spent in the window and in the document, under two caps. */
  class ResolverBudgets {
    const maxPerChunk: int
    const maxPerDocument: int
    var chunkCalls: int
    var documentCalls: int
    var hardStop: Option<string>

    constructor (maxPerChunk: int, maxPerDocument: int)
      ensures this.maxPerChunk == maxPerChunk && this.maxPerDocument == maxPerDocument
      ensures chunkCalls == 0 && documentCalls == 0 && hardStop == None
    {
      this.maxPerChunk, this.maxPerDocument := maxPerChunk, maxPerDocument;
      chunkCalls, documentCalls, hardStop := 0, 0, None;
    }

    ghost predicate Within()
      reads this
    {
      0 <= chunkCalls <= documentCalls && chunkCalls <= maxPerChunk && documentCalls <= maxPerDocument
    }

    function Left(): bool
      reads this
    {
      chunkCalls < maxPerChunk && documentCalls < maxPerDocument
    }

    method ResetChunk()
      modifies this`chunkCalls, this`hardStop
      ensures chunkCalls == 0 && hardStop == None
    {
      chunkCalls, hardStop := 0, None;
    }

    method CanCallLlm() returns (ok: bool)
      modifies this`hardStop
      ensures ok == Left()
      ensures hardStop == if chunkCalls >= maxPerChunk then Some("chunk_cap_reached")
                          else if documentCalls >= maxPerDocument then Some("document_cap_reached") else None
    {
      if chunkCalls >= maxPerChunk {
        hardStop := Some("chunk_cap_reached");
        return false;
      }
      if documentCalls >= maxPerDocument {
        hardStop := Some("document_cap_reached");
        return false;
      }
      hardStop := None;
      return true;
    }

    /** False stands for the exhaustion error. */
    method RegisterLlmCall() returns (ok: bool)
      modifies this`chunkCalls, this`documentCalls, this`hardStop
      ensures ok == old(Left())
      ensures ok ==> chunkCalls == old(chunkCalls) + 1 && documentCalls == old(documentCalls) + 1
      ensures !ok ==> chunkCalls == old(chunkCalls) && documentCalls == old(documentCalls)
      ensures old(Within()) ==> Within()
    {
      ok := CanCallLlm();
      if !ok {
        return false;
      }
      chunkCalls, documentCalls := chunkCalls + 1, documentCalls + 1;
    }
  }

  // ---- choosing one operation of an answer ----

  function KindRank(kind: Kind): nat {
    match kind
    case MergeInto => 2
    case LinkOnly => 1
    case CreateNew => 0
  }

  /** The later operation replaces the earlier choice: a stronger kind, or the same kind with more confidence. */
  predicate Beats(p: Op, q: Op)
    requires p.Op? && q.Op?
  {
    KindRank(p.kind) > KindRank(q.kind) || (p.kind == q.kind && p.confidence > q.confidence)
  }

  function Best(ops: seq<Proposal>): (r: Option<Proposal>)
    ensures r.Some? ==> IsValidPayload(r.value.op)
  {
    if ops == [] then None
    else
      var before, last := Best(ops[..|ops| - 1]), ops[|ops| - 1];
      if IsValidPayload(last.op) && (before.None? || Beats(last.op, before.value.op)) then Some(last) else before
  }

  ghost predicate IsFirstBest(ops: seq<Proposal>, i: nat) {
    && i < |ops| && IsValidPayload(ops[i].op)
    && (forall j | 0 <= j < i && IsValidPayload(ops[j].op) :: Beats(ops[i].op, ops[j].op))
    && (forall j | i <= j < |ops| && IsValidPayload(ops[j].op) :: !Beats(ops[j].op, ops[i].op))
  }

  lemma {:induction false} BestExists(ops: seq<Proposal>)
    ensures Best(ops).None? <==> forall i | 0 <= i < |ops| :: !IsValidPayload(ops[i].op)
  {
    if ops != [] {
      hide IsValidPayload, Beats;
      var front := ops[..|ops| - 1];
      BestExists(front);
      assert forall i | 0 <= i < |front| :: front[i] == ops[i];
      assert IsValidPayload(ops[|ops| - 1].op) ==> Best(ops).Some?;
    }
  }

  /** Unless no operation is valid, the choice is the first of the strongest, most confident valid ones. */
  lemma {:induction false} BestMeaning(ops: seq<Proposal>) returns (i: nat)
    requires exists k :: 0 <= k < |ops| && IsValidPayload(ops[k].op)
    ensures IsFirstBest(ops, i) && Best(ops) == Some(ops[i])
  {
    var front, last := ops[..|ops| - 1], ops[|ops| - 1];
    assert ops == front + [last];
    BestExists(front);
    if Best(front).Some? {
      hide Beats, IsFirstBest, IsValidPayload;
      i := BestMeaning(front);
      BestExtends(front, last, i);
      i := if IsValidPayload(last.op) && Beats(last.op, front[i].op) then |front| else i;
    } else {
      assert forall k | 0 <= k < |front| :: !IsValidPayload(ops[k].op) by {
        assert forall k | 0 <= k < |front| :: front[k] == ops[k];
      }
      i := |front|;
    }
  }

  lemma BestExtends(front: seq<Proposal>, last: Proposal, i: nat)
    requires IsFirstBest(front, i)
    ensures IsFirstBest(front + [last], if IsValidPayload(last.op) && Beats(last.op, front[i].op) then |front| else i)
  {
    if IsValidPayload(last.op) && Beats(last.op, front[i].op) {
      forall j | 0 <= j < |front| && IsValidPayload(front[j].op) ensures Beats(last.op, front[j].op) {
        assert j < i ==> Beats(front[i].op, front[j].op);
        assert j >= i ==> !Beats(front[j].op, front[i].op);
      }
    }
  }

  method ChooseBest(ops: seq<Proposal>) returns (best: Option<Proposal>)
    ensures best == Best(ops)
  {
    best := None;
    for i := 0 to |ops|
      invariant best == Best(ops[..i])
    {
      SplitAt(ops, i);
      assert ops[..i + 1][..i] == ops[..i];
      var payload := ops[i];
      if !IsValidPayload(payload.op) {
        continue;
      }
      if best == None {
        best := Some(payload);
      } else if payload.op.kind == MergeInto && best.value.op.kind != MergeInto {
        best := Some(payload);
      } else if payload.op.kind == LinkOnly && best.value.op.kind == CreateNew {
        best := Some(payload);
      } else if payload.op.kind == best.value.op.kind && payload.op.confidence > best.value.op.confidence {
        best := Some(payload);
      }
    }
    assert ops[..|ops|] == ops;
  }

  // ---- decisions ----

  datatype Decision = Decision(kind: Kind, mergeInto: Option<int>, linkTo: Option<int>, relation: Option<string>,
                               aliasToAdd: Option<string>, llmUsed: bool)

  function Fallback(llmUsed: bool): Decision { Decision(CreateNew, None, None, None, None, llmUsed) }

  /** _payload_to_decision: below the confidence floor, or when it names no candidate, a proposal only creates. */
  function PayloadToDecision(p: Proposal, candidates: seq<int>, floor: real): Decision
    requires p.op.Op?
  {
    if p.op.confidence < floor then Decision(CreateNew, None, None, None, p.aliasToAdd, true)
    else if p.op.kind == MergeInto && p.op.mergeInto.Some? && p.op.mergeInto.value in candidates then
      Decision(MergeInto, p.op.mergeInto, None, None, p.aliasToAdd, true)
    else if p.op.kind == LinkOnly && p.op.linkTo.Some? && p.op.linkTo.value in candidates then
      Decision(LinkOnly, None, p.op.linkTo, Some(Or(p.op.relation, "related_to")), p.aliasToAdd, true)
    else Decision(CreateNew, None, None, None, p.aliasToAdd, true)
  }

  /** A decision points, if anywhere, at a candidate. */
  ghost predicate IsAmong(d: Decision, candidates: seq<int>) {
    && (d.kind == MergeInto ==> d.mergeInto.Some? && d.mergeInto.value in candidates && d.linkTo.None?)
    && (d.kind == LinkOnly ==> d.mergeInto.None? && d.linkTo.Some? && d.linkTo.value in candidates && d.relation.Some?)
    && (d.kind == CreateNew ==> d.mergeInto.None? && d.linkTo.None?)
  }

  /** Merging or linking needs a candidate and the confidence floor; anything else creates. */
  lemma DecisionsNeedConfidence(p: Proposal, candidates: seq<int>, floor: real)
    requires IsValidPayload(p.op)
    ensures var d := PayloadToDecision(p, candidates, floor);
            && IsAmong(d, candidates)
            && (d.kind == MergeInto <==>
                p.op.kind == MergeInto && p.op.confidence >= floor && p.op.mergeInto.value in candidates)
            && (d.kind == LinkOnly <==>
                p.op.kind == LinkOnly && p.op.confidence >= floor && p.op.linkTo.value in candidates)
            && (d.kind == MergeInto ==> d.mergeInto == p.op.mergeInto)
            && (d.kind == LinkOnly ==> d.linkTo == p.op.linkTo)
  {
  }

  /** A concept waiting for the model, with its position in the window. */
  datatype Pending = Pending(idx: nat, raw: ExtractedConcept, candidates: seq<int>)

  /** How the model is asked. */
  datatype Asking = Asking(client: Client, batch: BatchConfig, floor: real, tokens: Pending -> nat) {

    function QueryFor(p: Pending): Query { Query(p.raw.name, p.raw.context, p.candidates, tokens(p)) }

    function Chosen(a: Answer, candidates: seq<int>): Decision {
      match Best(a.ops)
      case Some(p) => PayloadToDecision(p, candidates, floor)
      case None => Fallback(true)
    }

    /** The positions among the first n that have candidates. */
    function Asked(batch: seq<Pending>, n: nat): (ks: seq<nat>)
      requires n <= |batch|
      ensures forall k | k in ks :: k < n && batch[k].candidates != []
    {
      if n == 0 then [] else Asked(batch, n - 1) + if batch[n - 1].candidates == [] then [] else [n - 1]
    }

    function Queries(batch: seq<Pending>, n: nat): (qs: seq<Query>)
      requires n <= |batch|
      ensures |qs| == |Asked(batch, n)|
      ensures forall j | 0 <= j < |qs| :: Asked(batch, n)[j] < n && qs[j] == QueryFor(batch[Asked(batch, n)[j]])
    {
      if n == 0 then []
      else Queries(batch, n - 1) + if batch[n - 1].candidates == [] then [] else [QueryFor(batch[n - 1])]
    }

    /** The decision at position i, when the positions with candidates were asked about in order. */
    function DecisionAt(batch: seq<Pending>, reply: Option<seq<Answer>>, i: nat): Decision
      requires i < |batch| && (reply.Some? ==> |reply.value| == |Asked(batch, |batch|)|)
    {
      if batch[i].candidates == [] then Fallback(false)
      else if reply.None? then Fallback(true)
      else
        AskedAt(batch, i, |batch|);
        Chosen(reply.value[|Asked(batch, i)|], batch[i].candidates)
    }

    lemma {:induction false} AskedAt(batch: seq<Pending>, i: nat, n: nat)
      requires i < n <= |batch|
      ensures |Asked(batch, i)| <= |Asked(batch, n)|
      ensures batch[i].candidates != [] ==>
                |Asked(batch, i)| < |Asked(batch, n)| && Asked(batch, n)[|Asked(batch, i)|] == i
      decreases n
    {
      if i < n - 1 { AskedAt(batch, i, n - 1); }
    }

    /** Whether the window still has a call left is asked once per concept, with the same answer each time. */
    function DecisionsUpTo(batch: seq<Pending>, left: bool, tick: nat, n: nat): (ds: seq<Decision>)
      requires n <= |batch|
      ensures |ds| == n
    {
      if n == 0 then []
      else
        DecisionsUpTo(batch, left, tick, n - 1) +
        [if left then DecisionAt(batch, BatchReply(client, this.batch, tick, Queries(batch, |batch|)), n - 1)
         else Fallback(false)]
    }

    function Decisions(batch: seq<Pending>, left: bool, tick: nat): (ds: seq<Decision>)
      ensures |ds| == |batch|
    {
      DecisionsUpTo(batch, left, tick, |batch|)
    }

    lemma DecisionIs(batch: seq<Pending>, left: bool, tick: nat, i: nat, n: nat)
      requires i < n <= |batch|
      ensures DecisionsUpTo(batch, left, tick, n)[i] ==
              if left then DecisionAt(batch, BatchReply(client, this.batch, tick, Queries(batch, |batch|)), i)
                else Fallback(false)
    {
      hide DecisionAt, BatchReply, Queries;
      if i < n - 1 { DecisionIs(batch, left, tick, i, n - 1); }
    }

    /** Every decision points, if anywhere, at one of its own concept's candidates. */
    lemma DecisionsAreAmong(batch: seq<Pending>, left: bool, tick: nat, i: nat)
      requires i < |batch|
      ensures IsAmong(Decisions(batch, left, tick)[i], batch[i].candidates)
    {
      DecisionIs(batch, left, tick, i, |batch|);
      hide BatchReply, Queries, Asked, DecisionAt, IsAmong;
      DecisionIsAmong(batch, BatchReply(client, this.batch, tick, Queries(batch, |batch|)), i);
      FallbackIsAmong(batch[i].candidates);
    }

    lemma DecisionIsAmong(batch: seq<Pending>, reply: Option<seq<Answer>>, i: nat)
      requires i < |batch| && (reply.Some? ==> |reply.value| == |Asked(batch, |batch|)|)
      ensures IsAmong(DecisionAt(batch, reply, i), batch[i].candidates)
    {
      hide Best, Asked;
      FallbackIsAmong(batch[i].candidates);
      if reply.Some? && batch[i].candidates != [] { AskedAt(batch, i, |batch|); }
    }

    lemma FallbackIsAmong(candidates: seq<int>)
      ensures forall llmUsed :: IsAmong(Fallback(llmUsed), candidates)
    {
    }

    /** One call is registered exactly when some concept has candidates and the budget has a call left. */
    function Spent(batch: seq<Pending>, left: bool): nat {
      if left && Asked(batch, |batch|) != [] then 1 else 0
    }

    /** _batch_llm_disambiguation: total over the batch, and its one registration never fails. */
    method BatchLlmDisambiguation(batch: seq<Pending>, budgets: ResolverBudgets, tick: nat) returns (ds: seq<Decision>)
      modifies budgets
      ensures ds == Decisions(batch, old(budgets.Left()), tick)
      ensures budgets.chunkCalls == old(budgets.chunkCalls) + Spent(batch, old(budgets.Left()))
      ensures budgets.documentCalls == old(budgets.documentCalls) + Spent(batch, old(budgets.Left()))
      ensures old(budgets.Within()) ==> budgets.Within()
    {
      AskedSteps(batch);
      hide BatchReply, DecisionAt, Decisions, Queries, Asked;
      ghost var left := budgets.Left();
      var decisions: map<nat, Decision>, items: seq<nat> := map[], [];
      for i := 0 to |batch|
        invariant budgets.Left() == left && (old(budgets.Within()) ==> budgets.Within())
        invariant budgets.chunkCalls == old(budgets.chunkCalls) && budgets.documentCalls == old(budgets.documentCalls)
        invariant items == if left then Asked(batch, i) else []
        invariant forall k: nat :: k in decisions <==> k < i && (batch[k].candidates == [] || !left)
        invariant forall k | k in decisions :: decisions[k] == Fallback(false)
      {
        if batch[i].candidates == [] {
          decisions := decisions[i := Fallback(false)];
        } else {
          var can := budgets.CanCallLlm();
          if !can {
            decisions := decisions[i := Fallback(false)];
          } else {
            items := items + [i];
          }
        }
      }
      if items == [] {
        NobodyAsked(batch, left, tick, decisions);
        ds := Listed(decisions, |batch|);
        return;
      }
      var queries := Queries(batch, |batch|);
      var registered := budgets.RegisterLlmCall();
      assert registered;
      var reply := DisambiguateBatch(client, this.batch, tick, queries);
      decisions := Decide(batch, items, reply, decisions);
      SomeAsked(batch, tick, decisions);
      ds := Listed(decisions, |batch|);
    }

    lemma AskedSteps(batch: seq<Pending>)
      ensures Asked(batch, 0) == []
      ensures forall i: nat | i < |batch| ::
                Asked(batch, i + 1) == Asked(batch, i) + if batch[i].candidates == [] then [] else [i]
    {
    }

    /** The answers, one per concept asked about, become decisions; a failed call becomes fallbacks. */
    method Decide(batch: seq<Pending>, items: seq<nat>, reply: Option<seq<Answer>>, start: map<nat, Decision>)
      returns (decisions: map<nat, Decision>)
      requires items == Asked(batch, |batch|) && (reply.Some? ==> |reply.value| == |items|)
      requires forall k: nat :: k in start <==> k < |batch| && batch[k].candidates == []
      requires forall k | k in start :: start[k] == Fallback(false)
      ensures forall k: nat :: k in decisions <==> k < |batch|
      ensures forall k | 0 <= k < |batch| :: decisions[k] == DecisionAt(batch, reply, k)
    {
      hide Best, PayloadToDecision, Asked;
      decisions := start;
      for j := 0 to |items|
        invariant forall k: nat :: k in decisions <==> k in start || k in items[..j]
        invariant forall k | k in start :: decisions[k] == Fallback(false)
        invariant forall k | k in items[..j] :: k < |batch| && decisions[k] == DecisionAt(batch, reply, k)
      {
        SplitAt(items, j);
        var i := items[j];
        assert i in items;
        AskedAtPosition(batch, j);
        if reply.None? {
          decisions := decisions[i := Fallback(true)];
        } else {
          var best := ChooseBest(reply.value[j].ops);
          decisions := decisions[i := if best.Some? then PayloadToDecision(best.value, batch[i].candidates, floor)
                                 else Fallback(true)];
        }
      }
      assert items[..|items|] == items;
      forall k: nat | k < |batch| && batch[k].candidates != [] ensures k in items {
        AskedAt(batch, k, |batch|);
      }
    }

    lemma {:induction false} AskedAtPosition(batch: seq<Pending>, j: nat)
      requires j < |Asked(batch, |batch|)|
      ensures var i := Asked(batch, |batch|)[j]; i < |batch| && batch[i].candidates != [] && |Asked(batch, i)| == j
    {
      AskedPosition(batch, |batch|, j);
    }

    lemma {:induction false} AskedPosition(batch: seq<Pending>, n: nat, j: nat)
      requires n <= |batch| && j < |Asked(batch, n)|
      ensures var i := Asked(batch, n)[j]; i < n && batch[i].candidates != [] && |Asked(batch, i)| == j
      decreases n
    {
      if j < |Asked(batch, n - 1)| { AskedPosition(batch, n - 1, j); }
    }

    lemma NobodyAsked(batch: seq<Pending>, left: bool, tick: nat, decisions: map<nat, Decision>)
      requires left ==> Asked(batch, |batch|) == []
      requires forall k: nat :: k in decisions <==> k < |batch| && (batch[k].candidates == [] || !left)
      requires forall k | k in decisions :: decisions[k] == Fallback(false)
      ensures forall k: nat :: k in decisions <==> k < |batch|
      ensures Listed(decisions, |batch|) == Decisions(batch, left, tick)
    {
      hide BatchReply, Queries, Asked;
      forall k: nat | k < |batch| ensures k in decisions {
        AskedAt(batch, k, |batch|);
      }
      forall k: nat | k < |batch| ensures decisions[k] == Decisions(batch, left, tick)[k] {
        AskedAt(batch, k, |batch|);
        DecisionIs(batch, left, tick, k, |batch|);
      }
    }

    lemma SomeAsked(batch: seq<Pending>, tick: nat, decisions: map<nat, Decision>)
      requires forall k: nat :: k in decisions <==> k < |batch|
      requires var reply := BatchReply(client, this.batch, tick, Queries(batch, |batch|));
               forall k | 0 <= k < |batch| :: decisions[k] == DecisionAt(batch, reply, k)
      ensures Listed(decisions, |batch|) == Decisions(batch, true, tick)
    {
      hide BatchReply, DecisionAt;
      forall k: nat | k < |batch| ensures decisions[k] == Decisions(batch, true, tick)[k] {
        DecisionIs(batch, true, tick, k, |batch|);
      }
    }
  }

  /** [decisions[i] for i in range(n)] */
  function Listed(decisions: map<nat, Decision>, n: nat): (ds: seq<Decision>)
    requires forall k: nat | k < n :: k in decisions
    ensures |ds| == n && forall k | 0 <= k < n :: ds[k] == decisions[k]
  {
    if n == 0 then [] else Listed(decisions, n - 1) + [decisions[n - 1]]
  }
}
