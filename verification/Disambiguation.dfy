/** Asking the model about a batch of concepts in sub-batches (adapters/llm/providers.py: disambiguate_batch and
    _disambiguate_batch_single_call). */
module Disambiguation {
  import opened Wrappers
  import opened Sequences
  import opened Packing
  import opened GardenerDecisions

  /** One operation of a reply, with the alias it proposes. */
  datatype Proposal = Proposal(op: Op, aliasToAdd: Option<string>)

  /** One concept put to the model, with its estimated size in tokens. */
  datatype Query = Query(name: string, context: string, candidates: seq<int>, tokens: nat)

  datatype Answer = Answer(ref: string, ops: seq<Proposal>)

  /** The model, numbered call by call: None is a call that raised. */
  datatype Client = Client(one: (nat, Query) -> Option<Proposal>, many: (nat, seq<Query>) -> Option<seq<Answer>>)

  datatype BatchConfig = BatchConfig(maxTokens: int, maxItems: int)

  const PROMPT_OVERHEAD := 500

  // ---- matching the answers of one call ----

  const FILLER_OPS: seq<Proposal> := [Proposal(Op(CreateNew, None, 0.0, None, None, None), None)]

  /** The last answer that refers to a name; an answer without a reference refers to nothing. */
  function LastFor(answers: seq<Answer>, name: string): (r: Option<Answer>)
    ensures r.Some? ==> r.value in answers && r.value.ref == name && name != ""
    ensures r.None? ==> forall a | a in answers :: a.ref != name || name == ""
  {
    if answers == [] then None
    else if answers[|answers| - 1].ref == name && name != "" then Some(answers[|answers| - 1])
    else LastFor(answers[..|answers| - 1], name)
  }

  function AnswerTo(answers: seq<Answer>, q: Query): (a: Answer)
    ensures a.ref == q.name
  {
    match LastFor(answers, q.name)
    case Some(a) => a
    case None => Answer(q.name, FILLER_OPS)
  }

  /** One answer per query: the last one that names it, or a filler that creates a new concept. */
  function Matched(answers: seq<Answer>, queries: seq<Query>): (r: seq<Answer>)
    ensures |r| == |queries|
    ensures forall i | 0 <= i < |r| :: r[i] == AnswerTo(answers, queries[i])
  {
    if queries == [] then []
    else Matched(answers, queries[..|queries| - 1]) + [AnswerTo(answers, queries[|queries| - 1])]
  }

  ghost predicate IsLookup(byRef: map<string, Answer>, answers: seq<Answer>) {
    forall name :: (name in byRef <==> LastFor(answers, name).Some?) &&
      (name in byRef ==> LastFor(answers, name) == Some(byRef[name]))
  }

  lemma LookupStep(byRef: map<string, Answer>, answers: seq<Answer>, a: Answer)
    requires IsLookup(byRef, answers)
    ensures IsLookup(if a.ref == "" then byRef else byRef[a.ref := a], answers + [a])
  {
    assert (answers + [a])[..|answers|] == answers;
  }

  method MatchAnswers(answers: seq<Answer>, queries: seq<Query>) returns (r: seq<Answer>)
    ensures r == Matched(answers, queries)
  {
    var byRef: map<string, Answer> := map[];
    assert IsLookup(byRef, []);
    hide LastFor;
    for k := 0 to |answers|
      invariant IsLookup(byRef, answers[..k])
    {
      SplitAt(answers, k);
      LookupStep(byRef, answers[..k], answers[k]);
      if answers[k].ref != "" {
        byRef := byRef[answers[k].ref := answers[k]];
      }
    }
    assert answers[..|answers|] == answers;
    r := [];
    for i := 0 to |queries|
      invariant r == Matched(answers, queries[..i])
    {
      SplitAt(queries, i);
      assert queries[..i + 1][..i] == queries[..i];
      if queries[i].name in byRef {
        r := r + [byRef[queries[i].name]];
      } else {
        r := r + [Answer(queries[i].name, FILLER_OPS)];
      }
    }
    assert queries[..|queries|] == queries;
  }

  // ---- sub-batches ----

  function TokensOf(queries: seq<Query>): nat -> nat {
    (i: nat) => if i < |queries| then queries[i].tokens else 0
  }

  function BatchLimits(cfg: BatchConfig): Limits { Limits(PROMPT_OVERHEAD, cfg.maxTokens, Some(cfg.maxItems)) }

  function SubBatches(cfg: BatchConfig, queries: seq<Query>): seq<seq<nat>> {
    Greedy(TokensOf(queries), BatchLimits(cfg), [], Indices(|queries|))
  }

  /** The sub-batches list every query once, in order, respect both limits except for a lone query, and no other
      in-order division within the limits needs fewer calls. */
  lemma SubBatchesAreOptimal(cfg: BatchConfig, queries: seq<Query>, other: seq<seq<nat>>)
    ensures IsPacking(TokensOf(queries), BatchLimits(cfg), Indices(|queries|), SubBatches(cfg, queries))
    ensures IsPacking(TokensOf(queries), BatchLimits(cfg), Indices(|queries|), other) ==>
              |SubBatches(cfg, queries)| <= |other|
  {
    var w, lim, all := TokensOf(queries), BatchLimits(cfg), Indices(|queries|);
    assert [] + all == all;
    GreedyIsPacking(w, lim, [], all);
    if IsPacking(w, lim, all, other) { GreedyIsOptimal(w, lim, [], all, other); }
  }

  method BuildSubBatches(cfg: BatchConfig, queries: seq<Query>) returns (batches: seq<seq<nat>>)
    ensures batches == SubBatches(cfg, queries)
  {
    ghost var w, lim, all := TokensOf(queries), BatchLimits(cfg), Indices(|queries|);
    hide Greedy, Sum, Fits, Indices;
    batches := [];
    var current: seq<nat>, tokens := [], PROMPT_OVERHEAD;
    assert all[0..] == all;
    SumAppendOne<nat>(w, [], 0);
    Unit(Greedy(w, lim, current, all));
    for i := 0 to |queries|
      invariant batches + Greedy(w, lim, current, all[i..]) == Greedy(w, lim, [], all)
      invariant tokens == PROMPT_OVERHEAD + Sum(w, current)
      invariant i > 0 ==> current != []
    {
      var k: nat := i;
      SplitAt(all, k);
      GreedyStep(w, lim, current, k, all[k + 1..]);
      SumAppendOne(w, current, k);
      SumAppendOne(w, [], k);
      Assoc(batches, [current], Greedy(w, lim, [k], all[k + 1..]));
      assert w(k) == queries[k].tokens;
      if current != [] && (tokens + queries[i].tokens > cfg.maxTokens || |current| >= cfg.maxItems) {
        batches := batches + [current];
        current := [i];
        tokens := PROMPT_OVERHEAD + queries[i].tokens;
      } else {
        current := current + [i];
        tokens := tokens + queries[i].tokens;
      }
    }
    GreedyEnd(w, lim, current);
    assert all[|queries|..] == [];
    if current != [] {
      batches := batches + [current];
    }
  }

  // ---- the whole batch ----

  function At(queries: seq<Query>, ids: seq<nat>): (qs: seq<Query>)
    requires forall k | 0 <= k < |ids| :: ids[k] < |queries|
    ensures |qs| == |ids| && forall k | 0 <= k < |ids| :: qs[k] == queries[ids[k]]
  {
    if ids == [] then [] else At(queries, ids[..|ids| - 1]) + [queries[ids[|ids| - 1]]]
  }

  /** What one call on consecutive queries yields. */
  function ReplyTo(client: Client, tick: nat, queries: seq<Query>): (r: Option<seq<Answer>>)
    ensures r.Some? ==> |r.value| == |queries| && forall i | 0 <= i < |queries| :: r.value[i].ref == queries[i].name
  {
    match client.many(tick, queries)
    case None => None
    case Some(answers) => Some(Matched(answers, queries))
  }

  /** Splits the queries after their first n in groups of the given sizes, one call per group, answers in order. */
  function Replies(client: Client, tick: nat, queries: seq<Query>, batches: seq<seq<nat>>): (r: Option<seq<Answer>>)
    requires TotalSize(batches) == |queries|
    ensures r.Some? ==> |r.value| == |queries| && forall i | 0 <= i < |queries| :: r.value[i].ref == queries[i].name
    decreases |batches|
  {
    if batches == [] then Some([])
    else
      var n := |queries| - |batches[|batches| - 1]|;
      match Replies(client, tick, queries[..n], batches[..|batches| - 1])
      case None => None
      case Some(before) =>
        match ReplyTo(client, tick + |batches| - 1, queries[n..])
        case None => None
        case Some(answers) => Some(before + answers)
  }

  function TotalSize(batches: seq<seq<nat>>): nat {
    if batches == [] then 0 else TotalSize(batches[..|batches| - 1]) + |batches[|batches| - 1]|
  }

  lemma {:induction false} TotalSizeIsLength(batches: seq<seq<nat>>)
    ensures TotalSize(batches) == |Flatten(batches)|
  {
    if batches != [] {
      var front, last := batches[..|batches| - 1], batches[|batches| - 1];
      TotalSizeIsLength(front);
      FlattenAppend(front, last);
      assert batches == front + [last];
    }
  }

  lemma {:induction false} FlattenAppend<T>(front: seq<seq<T>>, last: seq<T>)
    ensures Flatten(front + [last]) == Flatten(front) + last
  {
    if front == [] {
      assert [last][1..] == [];
      assert Flatten([last]) == last + [];
    } else {
      FlattenAppend(front[1..], last);
      assert (front + [last])[1..] == front[1..] + [last];
    }
  }

  lemma SubBatchesCover(cfg: BatchConfig, queries: seq<Query>)
    ensures TotalSize(SubBatches(cfg, queries)) == |queries|
    ensures Flatten(SubBatches(cfg, queries)) == Indices(|queries|)
  {
    SubBatchesAreOptimal(cfg, queries, []);
    TotalSizeIsLength(SubBatches(cfg, queries));
  }

  /** The reply to a batch: none for no query, a single question for one, sub-batches otherwise. */
  function BatchReply(client: Client, cfg: BatchConfig, tick: nat, queries: seq<Query>): (r: Option<seq<Answer>>)
    ensures r.Some? ==> |r.value| == |queries| && forall i | 0 <= i < |queries| :: r.value[i].ref == queries[i].name
  {
    if |queries| == 0 then Some([])
    else if |queries| == 1 then
      match client.one(tick, queries[0])
      case None => None
      case Some(p) => Some([Answer(queries[0].name, [p])])
    else
      SubBatchesCover(cfg, queries);
      Replies(client, tick, queries, SubBatches(cfg, queries))
  }

  /** Sub-batch g holds exactly the indices that follow those of the sub-batches before it. */
  lemma BatchIsRun(n: nat, batches: seq<seq<nat>>, g: nat)
    requires Flatten(batches) == Indices(n) && g < |batches|
    ensures var from := TotalSize(batches[..g]);
            && TotalSize(batches[..g + 1]) == from + |batches[g]| <= n
            && (forall j | 0 <= j < |batches[g]| :: batches[g][j] == from + j)
  {
    hide Flatten, TotalSize, Indices;
    SplitAt(batches, g);
    FlattenAppend(batches[..g], batches[g]);
    FlattenParts(batches[..g + 1], batches[g + 1..]);
    assert batches[..g + 1] + batches[g + 1..] == batches;
    TotalSizeIsLength(batches[..g]);
    TotalSizeIsLength(batches[..g + 1]);
    var all := Flatten(batches);
    assert Flatten(batches[..g + 1]) <= all;
    forall j | 0 <= j < |batches[g]| ensures batches[g][j] == TotalSize(batches[..g]) + j {
      assert all[|Flatten(batches[..g])| + j] == batches[g][j];
    }
  }

  lemma {:induction false} FlattenParts<T>(a: seq<seq<T>>, b: seq<seq<T>>)
    ensures Flatten(a + b) == Flatten(a) + Flatten(b)
  {
    if a == [] {
      assert a + b == b;
    } else {
      FlattenFirst(a);
      FlattenFirst(a + b);
      hide Flatten;
      FlattenParts(a[1..], b);
      assert (a + b)[1..] == a[1..] + b;
      Assoc(a[0], Flatten(a[1..]), Flatten(b));
    }
  }

  lemma FlattenFirst<T>(a: seq<seq<T>>)
    requires a != []
    ensures Flatten(a) == a[0] + Flatten(a[1..])
  {
  }

  /** Scattering each sub-batch's answers to its indices has filled the first positions in order. */
  ghost predicate Filled(results: seq<Option<Answer>>, answers: seq<Answer>) {
    && |answers| <= |results|
    && (forall k | 0 <= k < |answers| :: results[k] == Some(answers[k]))
  }

  lemma FilledStep(results: seq<Option<Answer>>, answers: seq<Answer>, a: Answer)
    requires Filled(results, answers) && |answers| < |results|
    ensures Filled(results[|answers| := Some(a)], answers + [a])
  {
  }

  method Scatter(results: seq<Option<Answer>>, ids: seq<nat>, answers: seq<Answer>, ghost before: seq<Answer>)
    returns (filled: seq<Option<Answer>>)
    requires |ids| == |answers| && Filled(results, before) && |before| + |ids| <= |results|
    requires forall j | 0 <= j < |ids| :: ids[j] == |before| + j
    ensures |filled| == |results| && Filled(filled, before + answers)
  {
    filled := results;
    Unit(before);
    for j := 0 to |ids|
      invariant |filled| == |results| && Filled(filled, before + answers[..j])
    {
      SplitAt(answers, j);
      Assoc(before, answers[..j], [answers[j]]);
      FilledStep(filled, before + answers[..j], answers[j]);
      hide Filled;
      filled := filled[ids[j] := Some(answers[j])];
    }
    assert answers[..|ids|] == answers;
  }

  function Collect(results: seq<Option<Answer>>): (r: seq<Answer>)
    requires forall k | 0 <= k < |results| :: results[k].Some?
    ensures |r| == |results| && forall k | 0 <= k < |r| :: results[k] == Some(r[k])
  {
    if results == [] then [] else Collect(results[..|results| - 1]) + [results[|results| - 1].value]
  }

  /** What the first g calls reply. */
  ghost function RepliesUpTo(client: Client, tick: nat, queries: seq<Query>, batches: seq<seq<nat>>,
                             g: nat): Option<seq<Answer>>
    requires g <= |batches| && TotalSize(batches[..g]) <= |queries|
  {
    Replies(client, tick, queries[..TotalSize(batches[..g])], batches[..g])
  }

  lemma RepliesStep(client: Client, tick: nat, queries: seq<Query>, batches: seq<seq<nat>>, g: nat)
    requires g < |batches| && TotalSize(batches[..g + 1]) <= |queries|
    ensures TotalSize(batches[..g]) + |batches[g]| == TotalSize(batches[..g + 1])
    ensures var from, to := TotalSize(batches[..g]), TotalSize(batches[..g + 1]);
            var before, reply :=
              RepliesUpTo(client, tick, queries, batches, g), ReplyTo(client, tick + g, queries[from..to]);
            RepliesUpTo(client, tick, queries, batches, g + 1) ==
            if before.None? || reply.None? then None else Some(before.value + reply.value)
  {
    var some := batches[..g + 1];
    assert some[..|some| - 1] == batches[..g] && some[|some| - 1] == batches[g];
    var from, to := TotalSize(batches[..g]), TotalSize(batches[..g + 1]);
    assert queries[..to][..from] == queries[..from];
    assert queries[..to][from..] == queries[from..to];
    hide ReplyTo, TotalSize;
  }

  lemma {:induction false} RepliesFail(client: Client, tick: nat, queries: seq<Query>, batches: seq<seq<nat>>, n: nat,
                                       g: nat)
    requires Flatten(batches) == Indices(n) && n == |queries| && g <= |batches|
    requires TotalSize(batches[..g]) <= n && RepliesUpTo(client, tick, queries, batches, g).None?
    ensures TotalSize(batches) == n && Replies(client, tick, queries, batches).None?
    decreases |batches| - g
  {
    TotalSizeIsLength(batches);
    if g == |batches| {
      assert batches[..g] == batches && queries[..n] == queries;
    } else {
      BatchIsRun(n, batches, g);
      RepliesStep(client, tick, queries, batches, g);
      RepliesFail(client, tick, queries, batches, n, g + 1);
    }
  }

  /** disambiguate_batch: one answer per query, in order, each tagged with the query's name; None when a call raised. */
  method DisambiguateBatch(client: Client, cfg: BatchConfig, tick: nat, queries: seq<Query>)
    returns (r: Option<seq<Answer>>)
    ensures r == BatchReply(client, cfg, tick, queries)
  {
    if |queries| == 0 {
      return Some([]);
    }
    if |queries| == 1 {
      var one := client.one(tick, queries[0]);
      if one.None? {
        return None;
      }
      return Some([Answer(queries[0].name, [one.value])]);
    }
    var batches := BuildSubBatches(cfg, queries);
    SubBatchesCover(cfg, queries);
    hide SubBatches, Flatten, Replies, ReplyTo, TotalSize, Indices;
    r := AskAll(client, tick, queries, batches);
  }

  lemma AtIsSlice(queries: seq<Query>, ids: seq<nat>, from: nat)
    requires from + |ids| <= |queries| && forall k | 0 <= k < |ids| :: ids[k] == from + k
    ensures At(queries, ids) == queries[from..from + |ids|]
  {
  }

  lemma ReplyIs(client: Client, tick: nat, queries: seq<Query>)
    ensures ReplyTo(client, tick, queries) ==
            match client.many(tick, queries) case None => None case Some(answers) => Some(Matched(answers, queries))
  {
  }

  method AskAll(client: Client, tick: nat, queries: seq<Query>, batches: seq<seq<nat>>) returns (r: Option<seq<Answer>>)
    requires Flatten(batches) == Indices(|queries|) && TotalSize(batches) == |queries|
    ensures r == Replies(client, tick, queries, batches)
  {
    hide Flatten, Replies, Indices, Filled, RepliesUpTo, ReplyTo, TotalSize, At, Empty, Collect;
    if |batches| == 1 {
      WholeBatch(client, tick, queries, batches);
      ReplyIs(client, tick, queries);
      var answers := client.many(tick, queries);
      if answers.None? {
        return None;
      }
      var matched := MatchAnswers(answers.value, queries);
      return Some(matched);
    }
    var results := Empty(|queries|);
    ghost var before: seq<Answer> := [];
    NothingAsked(client, tick, queries, batches, results);
    for g := 0 to |batches|
      invariant TotalSize(batches[..g]) == |before| <= |queries| == |results|
      invariant Filled(results, before) && RepliesUpTo(client, tick, queries, batches, g) == Some(before)
    {
      BatchIsRun(|queries|, batches, g);
      RepliesStep(client, tick, queries, batches, g);
      var subItems := At(queries, batches[g]);
      AtIsSlice(queries, batches[g], |before|);
      ReplyIs(client, tick + g, subItems);
      var raw := client.many(tick + g, subItems);
      if raw.None? {
        RepliesFail(client, tick, queries, batches, |queries|, g + 1);
        return None;
      }
      var answers := MatchAnswers(raw.value, subItems);
      results := Scatter(results, batches[g], answers, before);
      before := before + answers;
    }
    AllAsked(client, tick, queries, batches, results, before);
    r := Some(Collect(results));
  }

  function Empty(n: nat): (r: seq<Option<Answer>>)
    ensures |r| == n
  {
    if n == 0 then [] else Empty(n - 1) + [None]
  }

  lemma WholeBatch(client: Client, tick: nat, queries: seq<Query>, batches: seq<seq<nat>>)
    requires |batches| == 1 && TotalSize(batches) == |queries|
    ensures Replies(client, tick, queries, batches) == ReplyTo(client, tick, queries)
  {
    assert batches[..0] == [];
    assert |batches[0]| == |queries|;
    assert queries[0..] == queries && queries[..0] == [];
    assert Replies(client, tick, [], []) == Some([]);
    var reply := ReplyTo(client, tick, queries);
    if reply.Some? { Unit(reply.value); }
  }

  lemma NothingAsked(client: Client, tick: nat, queries: seq<Query>, batches: seq<seq<nat>>,
                     results: seq<Option<Answer>>)
    ensures TotalSize(batches[..0]) == 0 && RepliesUpTo(client, tick, queries, batches, 0) == Some([])
    ensures Filled(results, [])
  {
  }

  lemma AllAsked(client: Client, tick: nat, queries: seq<Query>, batches: seq<seq<nat>>, results: seq<Option<Answer>>,
                 before: seq<Answer>)
    requires TotalSize(batches) == |queries| == |results|
    requires TotalSize(batches[..|batches|]) == |before|
    requires Filled(results, before) && RepliesUpTo(client, tick, queries, batches, |batches|) == Some(before)
    ensures (forall k | 0 <= k < |results| :: results[k].Some?) && Collect(results) == before
    ensures Replies(client, tick, queries, batches) == Some(before)
  {
    assert batches[..|batches|] == batches && queries[..|queries|] == queries;
  }

  /** Each answer of a sub-batched reply is the one its own call gave: answers never cross between queries. */
  lemma AnswersAreOwn(client: Client, cfg: BatchConfig, tick: nat, queries: seq<Query>, g: nat, j: nat)
    requires |queries| >= 2 && BatchReply(client, cfg, tick, queries).Some?
    requires g < |SubBatches(cfg, queries)| && j < |SubBatches(cfg, queries)[g]|
    ensures var ids := SubBatches(cfg, queries)[g];
            IsOwnAnswer(client, tick, queries, ids, g, j, BatchReply(client, cfg, tick, queries).value)
  {
    var batches := SubBatches(cfg, queries);
    SubBatchesCover(cfg, queries);
    hide SubBatches, TotalSize, Flatten, Replies;
    assert batches[..|batches|] == batches && queries[..|queries|] == queries;
    RepliesAreOwn(client, tick, queries, batches, g, j, |batches|);
  }

  lemma {:induction false} RepliesAreOwn(client: Client, tick: nat, queries: seq<Query>, batches: seq<seq<nat>>,
                                         g: nat, j: nat, upTo: nat)
    requires Flatten(batches) == Indices(|queries|) && g < upTo <= |batches| && j < |batches[g]|
    requires TotalSize(batches[..upTo]) <= |queries| && RepliesUpTo(client, tick, queries, batches, upTo).Some?
    ensures IsOwnAnswer(client, tick, queries, batches[g], g, j,
                        RepliesUpTo(client, tick, queries, batches, upTo).value)
    decreases upTo
  {
    hide TotalSize, Flatten, Replies, RepliesUpTo, ReplyTo, Indices;
    var last := upTo - 1;
    BatchIsRun(|queries|, batches, last);
    BatchIsRun(|queries|, batches, g);
    RepliesStep(client, tick, queries, batches, last);
    if g < last {
      RepliesAreOwn(client, tick, queries, batches, g, j, last);
    } else {
      LastAnswersAreOwn(client, tick, queries, batches, g, j);
    }
  }

  ghost predicate IsOwnAnswer(client: Client, tick: nat, queries: seq<Query>, ids: seq<nat>, g: nat, j: nat,
                              r: seq<Answer>)
    requires j < |ids|
  {
    && (forall k | 0 <= k < |ids| :: ids[k] < |queries|)
    && client.many(tick + g, At(queries, ids)).Some?
    && ids[j] < |r| && r[ids[j]] == AnswerTo(client.many(tick + g, At(queries, ids)).value, queries[ids[j]])
  }

  lemma LastAnswersAreOwn(client: Client, tick: nat, queries: seq<Query>, batches: seq<seq<nat>>, g: nat, j: nat)
    requires Flatten(batches) == Indices(|queries|) && g < |batches| && j < |batches[g]|
    requires TotalSize(batches[..g + 1]) <= |queries| && RepliesUpTo(client, tick, queries, batches, g + 1).Some?
    ensures IsOwnAnswer(client, tick, queries, batches[g], g, j,
                        RepliesUpTo(client, tick, queries, batches, g + 1).value)
  {
    hide TotalSize, Flatten, Replies, RepliesUpTo, ReplyTo, Indices, IsOwnAnswer;
    BatchIsRun(|queries|, batches, g);
    RepliesStep(client, tick, queries, batches, g);
    RepliesSize(client, tick, queries, batches, g);
    ShiftedAnswer(client, tick, queries, batches[g], g, j, RepliesUpTo(client, tick, queries, batches, g).value);
  }

  lemma RepliesSize(client: Client, tick: nat, queries: seq<Query>, batches: seq<seq<nat>>, g: nat)
    requires g <= |batches| && TotalSize(batches[..g]) <= |queries|
    ensures var r := RepliesUpTo(client, tick, queries, batches, g); r.Some? ==> |r.value| == TotalSize(batches[..g])
  {
  }

  lemma ShiftedAnswer(client: Client, tick: nat, queries: seq<Query>, ids: seq<nat>, g: nat, j: nat,
                      before: seq<Answer>)
    requires |before| + |ids| <= |queries| && j < |ids|
    requires forall k | 0 <= k < |ids| :: ids[k] == |before| + k
    ensures var reply := ReplyTo(client, tick + g, queries[|before|..|before| + |ids|]);
            reply.Some? ==> IsOwnAnswer(client, tick, queries, ids, g, j, before + reply.value)
  {
    hide AnswerTo;
    assert At(queries, ids) == queries[|before|..|before| + |ids|];
  }
}
