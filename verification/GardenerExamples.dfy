/** Small gardener runs that lose what the run was meant to keep, worked out step by step. */
module GardenerExamples {
  import opened Numbers
  import opened Wrappers
  import opened Ordering
  import opened Sequences
  import opened GraphTables
  import opened EdgeTable
  import opened GardenerMerge
  import opened GardenerDecisions
  import opened GardenerClusters
  import opened GardenerRun
  import opened MergeForest
  import opened Components
  import opened Pruner
  import opened Gardener

  // ---- pairs of linked concepts ----

  lemma SortedPair(a: int, b: int)
    requires a < b
    ensures SortedInts({a, b}) == [a, b]
  {
    var s, xs := {a, b}, SortedInts({a, b});
    forall x ensures x in [a, b] <==> x in s {
      assert [a, b][0] == a && [a, b][1] == b;
    }
    AscendingUnique(xs, [a, b], s, (x, y) => x < y);
  }

  /** Two concepts linked with each other and nobody else form a class. */
  lemma PairClass(adj: Adjacency, a: int, b: int)
    requires a != b && a in adj && b in adj && adj[a] == {b} && adj[b] == {a}
    ensures IsClass(adj, {a, b})
  {
    var c := {a, b};
    ReachesSelf(adj, a);
    ReachesSelf(adj, b);
    ReachesStep(adj, a, a, b);
    ReachesStep(adj, b, b, a);
    assert Closed(adj, c);
    forall u, v | u in c ensures v in c <==> Reaches(adj, u, v) {
      if Reaches(adj, u, v) { ClosedHoldsReachable(adj, c, u, v); }
    }
  }

  lemma PairSize(a: int, b: int)
    requires a < b
    ensures |{a, b}| == 2 && MinOf({a, b}) == a
  {
    SortedPair(a, b);
  }

  // ---- a run over one pair ----

  function PairGraph(): Adjacency { map[1 := {2}, 2 := {1}] }

  lemma PairIsLinked(u: int, v: int)
    ensures v in Neighbours(PairGraph(), u) <==> Linked([1], [[2]], 1, u, v)
  {
    assert LinkedBy([1][0], [[2]][0], u, v) <==> (u == 1 && v == 2) || (u == 2 && v == 1);
  }

  lemma PairClustering()
    ensures IsClustering(PairGraph(), [{1, 2}])
  {
    PairClass(PairGraph(), 1, 2);
    forall k | k in PairGraph() ensures InSome([{1, 2}], k) {
      assert k in [{1, 2}][0];
    }
  }

  lemma PairSelected(cfg: RunConfig)
    requires cfg.maxClusters >= 1 && cfg.maxLlmCalls >= 1
    ensures Pending(cfg, {1}, [{1, 2}], 0) == [{1, 2}] && LoneSeeds({1}, [{1, 2}]) == {}
  {
    PairSize(1, 2);
    assert 1 in {1} * {1, 2};
    assert [{1, 2}][..0] == [];
    assert Eligible({1}, []) == [];
    assert {1} !in [{1, 2}] by { assert 2 !in {1}; }
  }

  /** The shortlists of a pair. */
  lemma PairShortlists(relevance: Relevance, maxCandidates: nat)
    requires maxCandidates >= 1
    ensures ItemFor(relevance, maxCandidates, 0, 1, [1, 2]) == Item(0, 1, {2})
    ensures ItemFor(relevance, maxCandidates, 0, 2, [1, 2]) == Item(0, 2, {1})
  {
    assert [1, 2][..1] == [1] && [1][..0] == [];
    assert Without([], 1) == [] && Without([1], 1) == [] && Without([1, 2], 1) == [2];
    assert Without([], 2) == [] && Without([1], 2) == [1] && Without([1, 2], 2) == [1];
  }

  /** The first member is asked about the second and the second about the first. */
  lemma PairItems(relevance: Relevance, maxCandidates: nat)
    requires maxCandidates >= 1
    ensures ItemsOf(relevance, maxCandidates, [{1, 2}], 1) == [Item(0, 1, {2}), Item(0, 2, {1})]
  {
    SortedPair(1, 2);
    PairShortlists(relevance, maxCandidates);
    hide ItemFor, SortedInts;
    var ids := [1, 2];
    assert MemberItems(relevance, maxCandidates, 0, ids, 0) == [];
    assert MemberItems(relevance, maxCandidates, 0, ids, 1) == [Item(0, 1, {2})];
    assert MemberItems(relevance, maxCandidates, 0, ids, 2) == [Item(0, 1, {2}), Item(0, 2, {1})];
    assert ItemsOf(relevance, maxCandidates, [{1, 2}], 0) == [];
  }

  function PairDecisions(op: Op): seq<MemberDecision> { [MemberDecision(1, Some(op)), MemberDecision(2, None)] }

  /** One operation for the first member and none for the second become these decisions. */
  lemma PairDecided(relevance: Relevance, maxCandidates: nat, op: Op)
    requires maxCandidates >= 1 && IsReordering(relevance) && IsKept(Item(0, 1, {2}), op)
    ensures Decided(relevance, maxCandidates, [{1, 2}], Some([[op], []])) == [PairDecisions(op)]
  {
    hide ItemsOf, IsKept, SortedInts, IsReordering;
    PairItems(relevance, maxCandidates);
    ItemsStayInside(relevance, maxCandidates, [{1, 2}], 1);
    var items, replies := [Item(0, 1, {2}), Item(0, 2, {1})], [[op], []];
    assert [op][..0] == [];
    assert KeptOps(items[0], []) == [] && KeptOps(items[1], []) == [];
    assert [op][|[op]| - 1] == op;
    assert KeptOps(items[0], [op]) == [] + [MemberDecision(1, Some(op))];
    assert Collected(items, replies, 1, 0) == [[]];
    assert Entries(items[0], replies[0]) == [MemberDecision(1, Some(op))];
    assert Entries(items[1], replies[1]) == [MemberDecision(2, None)];
    var one := [[MemberDecision(1, Some(op))]];
    assert [] + Entries(items[0], replies[0]) == one[0];
    assert Collected(items, replies, 1, 1) == one;
    assert one[0] + Entries(items[1], replies[1]) == PairDecisions(op);
    assert Collected(items, replies, 1, 2) == [PairDecisions(op)];
  }

  lemma PairPlan(deciding: Deciding, size: nat, op: Op)
    requires size >= 1 && deciding.maxCandidates >= 1 && IsReordering(deciding.relevance)
    requires IsKept(Item(0, 1, {2}), op) && deciding.replies(0) == Some([[op], []])
    ensures Plan(deciding, [{1, 2}], size, 0) == [PairDecisions(op)]
  {
    hide Decided, IsKept, IsReordering;
    PairDecided(deciding.relevance, deciding.maxCandidates, op);
    PlanStep(deciding, [{1, 2}], size, 0);
    assert [{1, 2}][..1] == [{1, 2}] && [{1, 2}][1..] == [];
    assert Plan(deciding, [], size, 1) == [];
  }

  /** Of these decisions only the first does anything. */
  lemma PairApplied(rules: Rules, s: RunState, op: Op)
    requires AllKnown(rules, [{1, 2}], s.p.t) && AllStayInside([{1, 2}], [PairDecisions(op)])
    requires s.p.merged == {}
    ensures Known(rules, {1, 2}, s.p.t) && StaysInside({1, 2}, MemberDecision(1, Some(op)))
    ensures ApplyClusters(rules, [{1, 2}], s, [PairDecisions(op)], 1).p ==
            ApplyDecision(rules, {1, 2}, s.p, MemberDecision(1, Some(op)))
  {
    hide Known, StaysInside;
    var ds, c := PairDecisions(op), {1, 2};
    assert AllInside([c][0], [ds][0]) && Known(rules, [c][0], s.p.t);
    assert StaysInside(c, ds[0]) && StaysInside(c, ds[1]);
    assert ApplyClusters(rules, [c], s, [ds], 0) == s;
    assert s.p.(merged := {}) == s.p;
    assert ds == [ds[0]] + [ds[1]] && [ds[0]] == [] + [ds[0]];
    ApplyDecisionsAppend(rules, c, s.p, [ds[0]], ds[1]);
    ApplyDecisionsAppend(rules, c, s.p, [], ds[0]);
    assert ApplyDecisions(rules, c, s.p, []) == s.p;
  }

  /** A run whose decision phase consists of one operation on the first member of the pair. */
  ghost predicate DidOnly(cfg: RunConfig, t: Tables, op: Op, tr: Trace) {
    && {1, 2} <= t.concepts.Keys && tr.rules == Load(cfg, t, {1}, {1, 2})
    && Known(tr.rules, {1, 2}, t) && StaysInside({1, 2}, MemberDecision(1, Some(op)))
    && tr.final.p == ApplyDecision(tr.rules, {1, 2}, Progress(t, {}, [], [], 0), MemberDecision(1, Some(op)))
  }

  /** A run over one seed and its one candidate, both active, in which the model answers with one operation. */
  lemma PairRun(cfg: RunConfig, t: Tables, deciding: Deciding, op: Op) returns (tr: Trace)
    requires Ready(cfg.policy, t) && IsActive(t, 1) && IsActive(t, 2)
    requires cfg.maxClusters >= 1 && cfg.maxLlmCalls >= 1 && cfg.batchSize >= 1
    requires deciding.maxCandidates >= 1 && IsReordering(deciding.relevance)
    requires IsKept(Item(0, 1, {2}), op) && deciding.replies(0) == Some([[op], []])
    ensures IsRun(cfg, t, [1], [[2]], deciding, 0, tr) && tr.pending == [{1, 2}]
    ensures DidOnly(cfg, t, op, tr)
  {
    hide IsReordering, Plan, ApplyClusters, ApplyDecision, IsKept, StaysInside, IsClustering, Linked, Valid, Pending,
      LoneSeeds, PairGraph, Neighbours;
    var adj, clusters, rules := PairGraph(), [{1, 2}], Load(cfg, t, {1}, {1, 2});
    PairSelected(cfg);
    PairClustering();
    PairPlan(deciding, cfg.batchSize, op);
    PlanStaysInside(deciding, clusters, cfg.batchSize, 0);
    assert AllKnown(rules, clusters, t);
    PairApplied(rules, BeginRun(t, {}), op);
    tr := Trace(t, adj, clusters, rules, clusters, DecisionPhase(rules, clusters, t, {}, deciding, cfg.batchSize));
    assert SeedSet([1]) == {1};
    PairGraphFits();
  }

  lemma PairGraphFits()
    ensures forall u, v :: v in Neighbours(PairGraph(), u) <==> Linked([1], [[2]], 1, u, v)
    ensures forall k :: k in PairGraph() <==> k in [1] || exists i :: 0 <= i < 1 && k in [[2]][i]
    ensures PairGraph().Keys == {1, 2}
  {
    forall u, v ensures v in Neighbours(PairGraph(), u) <==> Linked([1], [[2]], 1, u, v) {
      PairIsLinked(u, v);
    }
    assert 2 in [[2]][0] && 1 in [1];
  }

  // ---- the tables the examples start from ----

  function Plain(name: string): Concept { Concept(name, [name], Some(Topic), true, false) }

  /** Three active concepts of one document, of which the given ones have provenance, and the given edge rows, of which
      all have provenance. */
  function Small(supported: set<int>, edges: map<int, Edge>): Tables {
    Tables({1}, map[1 := 1], map[], map[], map[1 := Plain("a"), 2 := Plain("b"), 3 := Plain("c")], edges, 4, 1,
           map["a" := 1, "b" := 2, "c" := 3], {},
           (set c | c in supported :: (ConceptTarget(c), 1)) + (set e | e in edges :: (EdgeTarget(e), 1)), map[], {})
  }

  function Relation(src: int, tgt: int): EdgeKey { EdgeKey(src, tgt, "related_to") }

  function OneEdge(): map<int, Edge> { map[0 := Edge(Relation(3, 1), "", [], 1.0)] }

  lemma SmallIsReady(policy: EdgePolicy, supported: set<int>, edges: map<int, Edge>)
    requires policy.weightCap >= 0.0 && (edges == map[] || edges == OneEdge())
    ensures Ready(policy, Small(supported, edges))
    ensures forall c :: IsActive(Small(supported, edges), c) <==> c in {1, 2, 3}
    ensures forall c :: HasProvenance(Small(supported, edges), ConceptTarget(c)) <==> c in supported
  {
    var t := Small(supported, edges);
    SmallRows(supported, edges);
    SmallKeys(supported, edges);
    assert ChunkKeysHold(t);
    hide RowsAreSound, ConceptKeysHold, ChunkKeysHold;
    forall c ensures HasProvenance(t, ConceptTarget(c)) <==> c in supported {
      if c in supported { assert (ConceptTarget(c), 1) in t.provenance; }
    }
  }

  lemma SmallRows(supported: set<int>, edges: map<int, Edge>)
    requires edges == map[] || edges == OneEdge()
    ensures RowsAreSound(Small(supported, edges))
  {
    var t := Small(supported, edges);
    assert EdgesAreSound(t.edges, t.nextEdge);
    hide EdgesAreSound;
    assert forall p | p in t.provenance && p.0.EdgeTarget? :: p.0.id in edges;
  }

  lemma SmallKeys(supported: set<int>, edges: map<int, Edge>)
    requires edges == map[] || edges == OneEdge()
    ensures ConceptKeysHold(Small(supported, edges))
  {
  }

  /** Limits that let one cluster be decided, and a model that answers about the first member with one operation. */
  predicate IsSmallRun(cfg: RunConfig, deciding: Deciding, op: Op) {
    && cfg.policy.weightCap >= 0.0 && cfg.maxClusters >= 1 && cfg.maxLlmCalls >= 1 && cfg.batchSize >= 1
    && cfg.floor <= 1.0 && deciding.maxCandidates >= 1 && deciding.replies(0) == Some([[op], []])
  }

  function MergeOp(): Op { Op(MergeInto, Some(2), 1.0, None, None, None) }

  function LinkOp(): Op { Op(LinkOnly, None, 1.0, Some(2), None, None) }

  /** A run that merges concept 1 into concept 2 and does nothing else. */
  lemma MergingRun(cfg: RunConfig, deciding: Deciding, supported: set<int>, edges: map<int, Edge>) returns (tr: Trace)
    requires IsSmallRun(cfg, deciding, MergeOp()) && IsReordering(deciding.relevance)
    requires edges == map[] || edges == OneEdge()
    ensures IsRun(cfg, Small(supported, edges), [1], [[2]], deciding, 0, tr) && tr.pending == [{1, 2}]
    ensures tr.final.p.merges == [Merge(1, 2)]
    ensures Ready(cfg.policy, Small(supported, edges)) && CanMerge(Small(supported, edges), 1, 2)
    ensures tr.final.p.t == Merged(cfg.policy, Small(supported, edges), 1, 2)
  {
    var t := Small(supported, edges);
    SmallIsReady(cfg.policy, supported, edges);
    NobodyMastered(supported, edges);
    hide IsRun, Valid, Small, Merged, IsReordering, ApplyDecision, Known, Mastered;
    tr := PairRun(cfg, t, deciding, MergeOp());
    OneMerge(tr.rules, t);
  }

  /** What the merge decision makes of tables in which nobody has mastered anything. */
  lemma OneMerge(rules: Rules, t: Tables)
    requires Known(rules, {1, 2}, t) && StaysInside({1, 2}, MemberDecision(1, Some(MergeOp()))) && rules.floor <= 1.0
    requires 1 in rules.seeds && rules.mastered == {} && CanMerge(t, 1, 2)
    ensures ApplyDecision(rules, {1, 2}, Progress(t, {}, [], [], 0), MemberDecision(1, Some(MergeOp()))) ==
            Progress(Merged(rules.policy, t, 1, 2), {1}, [Merge(1, 2)], [], 0)
  {
    hide Merged, Valid, CanMerge, ApplyMerge, CorrectTier;
    var p := Progress(t, {}, [], [], 0);
    AppliedMerge(rules, {1, 2}, p, 1, 2);
    assert [] + [Merge(1, 2)] == [Merge(1, 2)] && {} + {1} == {1};
    NoTierProposed(rules, ApplyMerge(rules, {1, 2}, p, 1, 2), MergeOp());
  }

  lemma NobodyMastered(supported: set<int>, edges: map<int, Edge>)
    ensures Mastered(Small(supported, edges)) == {}
  {
  }

  /** A merge into a concept without provenance loses both. */
  lemma BothAreLost(cfg: RunConfig, t: Tables, deciding: Deciding, tr: Trace)
    requires IsRun(cfg, t, [1], [[2]], deciding, 0, tr) && tr.pending == [{1, 2}] && tr.final.p.merges == [Merge(1, 2)]
    requires IsActive(t, 1) && IsActive(t, 2) && !HasProvenance(t, ConceptTarget(2))
    ensures !IsActive(Pruned(Settled(tr)), 1) && !IsActive(Pruned(Settled(tr)), 2)
    ensures forall a | a in Pruned(Settled(tr)).aliases :: Pruned(Settled(tr)).aliases[a] !in {1, 2}
  {
    hide IsRun, Settled, Pruned, Safe, AliasesFollow, Anchor;
    var merges := tr.final.p.merges;
    assert Follow(merges, 1) == 2;
    assert 1 in tr.pending[0];
    MergedConceptsAfterPrune(cfg, t, [1], [[2]], deciding, 0, tr, 1, 0);
    EveryRunIsSafe(cfg, t, [1], [[2]], deciding, 0, tr);
    SettledActive(t, tr);
    PruneSurvivors(Settled(tr));
    assert Merge(1, 2) in merges && 1 in Sources(merges);
    forall a | a in Pruned(Settled(tr)).aliases ensures Pruned(Settled(tr)).aliases[a] !in {1, 2} {
      AliasesAfterRun(cfg, t, [1], [[2]], deciding, 0, tr, a);
    }
  }

  /** Concept 1 has provenance, concept 2 has none. The model merges the first into the second, and the closing prune
      removes the second: neither is active any more, and no alias leads to either. */
  lemma SupportedConceptIsLost(cfg: RunConfig, deciding: Deciding) returns (tr: Trace)
    requires IsSmallRun(cfg, deciding, MergeOp()) && IsReordering(deciding.relevance)
    ensures var t := Small({1}, map[]);
            && IsRun(cfg, t, [1], [[2]], deciding, 0, tr)
            && IsActive(t, 1) && HasProvenance(t, ConceptTarget(1)) && tr.pending == [{1, 2}]
            && !IsActive(Pruned(Settled(tr)), 1) && !IsActive(Pruned(Settled(tr)), 2)
            && forall a | a in Pruned(Settled(tr)).aliases :: Pruned(Settled(tr)).aliases[a] !in {1, 2}
  {
    hide IsRun, Small, Settled, Pruned, Merged, IsSmallRun, IsActive, HasProvenance, Ready, CanMerge, IsReordering;
    SmallFacts(cfg, deciding, MergeOp(), {1}, map[]);
    tr := MergingRun(cfg, deciding, {1}, map[]);
    BothAreLost(cfg, Small({1}, map[]), deciding, tr);
  }

  lemma SmallFacts(cfg: RunConfig, deciding: Deciding, op: Op, supported: set<int>, edges: map<int, Edge>)
    requires IsSmallRun(cfg, deciding, op) && (edges == map[] || edges == OneEdge())
    ensures forall c :: IsActive(Small(supported, edges), c) <==> c in {1, 2, 3}
    ensures forall c :: HasProvenance(Small(supported, edges), ConceptTarget(c)) <==> c in supported
    ensures Small(supported, edges).edges == edges
  {
    SmallIsReady(cfg.policy, supported, edges);
  }

  /** After a run that merged concept 1 no row with an end there is left. */
  lemma EdgesOfMergedGo(cfg: RunConfig, t: Tables, deciding: Deciding, tr: Trace)
    requires IsRun(cfg, t, [1], [[2]], deciding, 0, tr) && tr.final.p.merges == [Merge(1, 2)]
    requires t.edges == OneEdge()
    ensures Pruned(Settled(tr)).edges == map[]
  {
    hide IsRun, Settled, Pruned;
    var merges := tr.final.p.merges;
    assert Merge(1, 2) in merges && 1 in Sources(merges);
    RunsAddNoEdges(cfg, t, [1], [[2]], deciding, 0, tr);
    hide Sources;
    assert forall e :: e !in Pruned(Settled(tr)).edges;
  }

  /** Every concept has provenance, and so has an edge from 3 to 1. The model merges 1 into 2: the edge is repointed to
      2, and after the closing prune 3 is related to nothing. */
  lemma RepointedEdgeIsLost(cfg: RunConfig, deciding: Deciding) returns (tr: Trace)
    requires IsSmallRun(cfg, deciding, MergeOp()) && IsReordering(deciding.relevance)
    ensures var t := Small({1, 2, 3}, OneEdge());
            && IsRun(cfg, t, [1], [[2]], deciding, 0, tr)
            && Has(tr.final.p.t.edges, Relation(3, 2))
            && Pruned(Settled(tr)).edges == map[]
  {
    hide IsRun, Small, Settled, Pruned, Merged, IsSmallRun, IsActive, HasProvenance, Ready, CanMerge, IsReordering, Has,
      OneEdge;
    SmallFacts(cfg, deciding, MergeOp(), {1, 2, 3}, OneEdge());
    tr := MergingRun(cfg, deciding, {1, 2, 3}, OneEdge());
    RepointedRow(cfg.policy, Small({1, 2, 3}, OneEdge()));
    EdgesOfMergedGo(cfg, Small({1, 2, 3}, OneEdge()), deciding, tr);
  }

  lemma RepointedRow(policy: EdgePolicy, t: Tables)
    requires Ready(policy, t) && CanMerge(t, 1, 2) && t.edges == OneEdge()
    ensures Has(Merged(policy, t, 1, 2).edges, Relation(3, 2))
  {
    hide Merged, UpsertAll, Repoint, MovedEdges, Has, Mentions, Valid, Detached, UniqueKeys, OneEdge;
    ReadyProper(policy, t);
    MergedEdges(policy, t, 1, 2);
    RepointIs(policy, Rows(t), 1, 2);
    RepointMentions();
    UpsertAllWeights(policy, Detached(Rows(t), 1), MovedEdges(OneEdge(), 1, 2), Relation(3, 2));
  }

  lemma RepointMentions()
    ensures Mentions(MovedEdges(OneEdge(), 1, 2), Relation(3, 2))
  {
    OnlyRowTouches();
    OneSorted(0);
    hide SortedInts, Touching;
    OnlyRowMoves(OneEdge());
  }

  lemma OnlyRowTouches()
    ensures Touching(OneEdge(), 1) == {0} && Repointed(OneEdge()[0], 1, 2).key == Relation(3, 2)
  {
  }

  lemma OneSorted(x: int)
    ensures SortedInts({x}) == [x]
  {
    var xs := SortedInts({x});
    hide SortedInts;
    assert [x][0] == x;
    AscendingUnique(xs, [x], {x}, (a, b) => a < b);
  }

  lemma OnlyRowMoves(rows: map<int, Edge>)
    requires Touching(rows, 1) == {0} && SortedInts({0}) == [0] && 0 in rows
    ensures Mentions(MovedEdges(rows, 1, 2), Repointed(rows[0], 1, 2).key)
  {
    hide SortedInts, Touching, Repointed;
    var moved := MovedEdges(rows, 1, 2);
    assert moved[0] == Repointed(rows[0], 1, 2);
  }

  lemma LinkRow(rules: Rules, t: Tables)
    requires Known(rules, {1, 2}, t)
    ensures var q := ApplyLink(rules, {1, 2}, Progress(t, {}, [], [], 0), 1, LinkOp());
            q.links == [Relation(1, 2)] && Has(q.t.edges, Relation(1, 2))
  {
    hide WithLink, ApplyLink, Valid, Has;
    AppliedLink(rules, {1, 2}, Progress(t, {}, [], [], 0), 1, LinkOp());
    RowIsLinked(rules, t, LinkEdge(rules, 1, 2, LinkOp()));
    assert [] + [Relation(1, 2)] == [Relation(1, 2)];
  }

  lemma RowIsLinked(rules: Rules, t: Tables, edge: Edge)
    requires Known(rules, {1, 2}, t) && edge.key.src != edge.key.tgt
    ensures Has(WithLink(rules.policy, t, edge).edges, edge.key)
  {
    SoundRows(rules.policy, t);
    UpsertMeaning(rules.policy, Rows(t), edge);
    hide Upsert, Valid;
  }

  /** What the link decision writes. */
  lemma LinkWritten(rules: Rules, t: Tables)
    requires Known(rules, {1, 2}, t) && StaysInside({1, 2}, MemberDecision(1, Some(LinkOp()))) && rules.floor <= 1.0
    ensures var q := ApplyDecision(rules, {1, 2}, Progress(t, {}, [], [], 0), MemberDecision(1, Some(LinkOp())));
            q.links == [Relation(1, 2)] && Has(q.t.edges, Relation(1, 2))
  {
    hide ApplyLink, Known, StaysInside, Has, CorrectTier;
    LinkRow(rules, t);
    NoTierProposed(rules, ApplyLink(rules, {1, 2}, Progress(t, {}, [], [], 0), 1, LinkOp()), LinkOp());
  }

  lemma NoTierProposed(rules: Rules, p: Progress, op: Op)
    requires Known(rules, {1, 2}, p.t) && op.Op? && op.proposedTier.None?
    ensures CorrectTier(rules, {1, 2}, p, 1, op) == p
  {
    hide Valid;
  }

  lemma SoundRows(policy: EdgePolicy, t: Tables)
    requires Ready(policy, t)
    ensures Sound(Rows(t)) && policy.weightCap >= 0.0
  {
  }

  /** The model links 1 to 2: the link is written, and gone after the closing prune. */
  lemma LinkIsLost(cfg: RunConfig, deciding: Deciding) returns (tr: Trace)
    requires IsSmallRun(cfg, deciding, LinkOp()) && IsReordering(deciding.relevance)
    ensures var t := Small({1, 2, 3}, map[]);
            && IsRun(cfg, t, [1], [[2]], deciding, 0, tr)
            && tr.final.p.links == [Relation(1, 2)] && Has(tr.final.p.t.edges, Relation(1, 2))
            && !Has(Pruned(Settled(tr)).edges, Relation(1, 2))
  {
    hide IsRun, Settled, Pruned, Ready, Known, StaysInside, IsActive, HasProvenance, ApplyDecision, IsReordering, Small;
    var t := Small({1, 2, 3}, map[]);
    SmallIsReady(cfg.policy, {1, 2, 3}, map[]);
    SmallFacts(cfg, deciding, LinkOp(), {1, 2, 3}, map[]);
    tr := PairRun(cfg, t, deciding, LinkOp());
    LinkWritten(tr.rules, t);
    NewRelationsAreLost(cfg, t, [1], [[2]], deciding, 0, tr, Relation(1, 2));
  }

  /** Two supported concepts, and a third that has a quiz and no provenance. The calls of the run fit, and
      its closing prune is refused. */
  lemma QuizStopsTheRun(cfg: RunConfig, deciding: Deciding) returns (tr: Trace)
    requires IsSmallRun(cfg, deciding, LinkOp()) && IsReordering(deciding.relevance)
    ensures var t := Small({1, 2}, map[]).(studied := {3});
            && IsRun(cfg, t, [1], [[2]], deciding, 0, tr)
            && 0 + BatchCount(|tr.pending|, cfg.batchSize) <= cfg.maxLlmCalls
            && !StudiedLast(t, tr.final.p.merges) && !CanPrune(Settled(tr))
  {
    hide IsRun, Settled, CanPrune, Ready, DidOnly, HasProvenance, IsReordering, Small, Valid, BatchCount, StudiedLast;
    var t := Small({1, 2}, map[]).(studied := {3});
    SmallIsReady(cfg.policy, {1, 2}, map[]);
    StudiedIsReady(cfg.policy, Small({1, 2}, map[]), {3});
    tr := PairRun(cfg, t, deciding, LinkOp());
    OneBatch(cfg.batchSize);
    assert IsActive(t, 3) && !HasProvenance(t, ConceptTarget(3)) && 3 !in [1];
    StudiedStopsRuns(cfg, t, [1], [[2]], deciding, 0, tr);
    RunMayPrune(cfg, t, [1], [[2]], deciding, 0, tr);
  }

  lemma StudiedIsReady(policy: EdgePolicy, t: Tables, studied: set<int>)
    requires Ready(policy, t) && forall c | c in studied :: IsActive(t, c)
    ensures Ready(policy, t.(studied := studied))
    ensures forall c :: IsActive(t.(studied := studied), c) <==> IsActive(t, c)
    ensures forall target :: HasProvenance(t.(studied := studied), target) <==> HasProvenance(t, target)
  {
    forall target ensures HasProvenance(t.(studied := studied), target) <==> HasProvenance(t, target) {
      SameProvenance(t, t.(studied := studied), target);
    }
    hide HasProvenance;
  }

  lemma OneBatch(size: nat)
    requires size > 0
    ensures BatchCount(1, size) == 1
  {
  }

  // ---- a run over two pairs ----

  lemma TwoPairsAreLinked(u: int, v: int)
    ensures Linked([1, 3], [[2], [4]], 2, u, v) <==> (u, v) in {(1, 2), (2, 1), (3, 4), (4, 3)}
  {
    var seeds, found := [1, 3], [[2], [4]];
    assert LinkedBy(seeds[0], found[0], u, v) <==> (u, v) in {(1, 2), (2, 1)};
    assert LinkedBy(seeds[1], found[1], u, v) <==> (u, v) in {(3, 4), (4, 3)};
  }

  lemma TwoPairClusters(adj: Adjacency)
    requires adj == map[1 := {2}, 2 := {1}, 3 := {4}, 4 := {3}]
    ensures IsClustering(adj, [{1, 2}, {3, 4}])
  {
    hide IsClass, InSome, Before;
    PairClass(adj, 1, 2);
    PairClass(adj, 3, 4);
    PairsInOrder();
    TwoPairsCover(adj);
  }

  lemma PairsInOrder()
    ensures Before({1, 2}, {3, 4})
  {
    PairSize(1, 2);
    PairSize(3, 4);
    hide MinOf;
  }

  lemma TwoPairsCover(adj: Adjacency)
    requires adj == map[1 := {2}, 2 := {1}, 3 := {4}, 4 := {3}]
    ensures forall k | k in adj :: InSome([{1, 2}, {3, 4}], k)
  {
    var clusters := [{1, 2}, {3, 4}];
    forall k | k in adj ensures InSome(clusters, k) {
      assert k in clusters[0] || k in clusters[1];
    }
  }

  /** The graph of a trace over two seeds with one candidate each. */
  lemma TwoPairGraph(cfg: RunConfig, t: Tables, tr: Trace)
    requires Fits(cfg, t, [1, 3], [[2], [4]], 0, tr)
    ensures tr.adj == map[1 := {2}, 2 := {1}, 3 := {4}, 4 := {3}]
  {
    hide IsClustering, Load, Pending, AllKnown, Linked;
    var adj, found := tr.adj, [[2], [4]];
    forall u, v ensures v in Neighbours(adj, u) <==> (u, v) in {(1, 2), (2, 1), (3, 4), (4, 3)} {
      TwoPairsAreLinked(u, v);
    }
    forall k ensures k in adj <==> k in {1, 2, 3, 4} {
      assert (exists i :: 0 <= i < 2 && k in found[i]) <==> k in found[0] || k in found[1];
    }
    assert Neighbours(adj, 1) == {2} && Neighbours(adj, 2) == {1} && Neighbours(adj, 3) == {4} &&
             Neighbours(adj, 4) == {3};
  }

  /** One allowed call, batches of one cluster and room for two clusters: every trace over two linked pairs takes both
      clusters, and the second batch cannot be registered, so the run ends in the budget error. */
  lemma CallBudgetIsOverrun(cfg: RunConfig, t: Tables, tr: Trace)
    requires cfg.maxLlmCalls == 1 && cfg.maxClusters == 2 && cfg.batchSize == 1
    requires Fits(cfg, t, [1, 3], [[2], [4]], 0, tr)
    ensures tr.pending == [{1, 2}, {3, 4}] && 0 + BatchCount(|tr.pending|, cfg.batchSize) > cfg.maxLlmCalls
  {
    hide Fits, IsClustering, Pending, BatchCount;
    TwoPairGraph(cfg, t, tr);
    TwoPairClusters(tr.adj);
    TwoPairsTaken(cfg, t, tr);
    ClusteringUnique(tr.adj, tr.clusters, [{1, 2}, {3, 4}]);
    SameSelection(cfg);
    TwoBatches();
  }

  lemma TwoPairsTaken(cfg: RunConfig, t: Tables, tr: Trace)
    requires Fits(cfg, t, [1, 3], [[2], [4]], 0, tr)
    ensures IsClustering(tr.adj, tr.clusters) && tr.pending == Pending(cfg, {1, 3}, tr.clusters, 0)
  {
    hide IsClustering, Pending, AllKnown, Linked;
    assert SeedSet([1, 3]) == {1, 3};
  }

  lemma TwoBatches()
    ensures BatchCount(2, 1) == 2
  {
    assert BatchCount(2, 1) == 1 + BatchCount(1, 1);
  }

  lemma SameSelection(cfg: RunConfig)
    requires cfg.maxLlmCalls == 1 && cfg.maxClusters == 2
    ensures Pending(cfg, {1, 3}, [{1, 2}, {3, 4}], 0) == [{1, 2}, {3, 4}]
  {
    BothEligible();
    hide Pending, IsEligible;
    BothSelected(cfg, {1, 3}, {1, 2}, {3, 4});
  }

  /** Two eligible clusters within the budgets are both decided. */
  lemma BothSelected(cfg: RunConfig, seeds: set<int>, a: set<int>, b: set<int>)
    requires cfg.maxLlmCalls >= 1 && cfg.maxClusters >= 2 && IsEligible(seeds, a) && IsEligible(seeds, b)
    ensures Pending(cfg, seeds, [a, b], 0) == [a, b]
  {
    assert Eligible(seeds, []) == [];
    hide Eligible, IsEligible;
    EligibleAppend(seeds, [], a);
    EligibleAppend(seeds, [a], b);
    assert [] + [a] == [a] && [a] + [b] == [a, b];
  }

  lemma BothEligible()
    ensures IsEligible({1, 3}, {1, 2}) && IsEligible({1, 3}, {3, 4})
  {
    PairSize(1, 2);
    PairSize(3, 4);
    assert 1 in {1, 3} * {1, 2} && 3 in {1, 3} * {3, 4};
  }
}
