/** run_graph_gardener as a whole, and what every run guarantees (domain/graph/gardener.py). */
module Gardener {
  import opened Numbers
  import opened Wrappers
  import opened Ordering
  import opened Sequences
  import opened GraphTables
  import opened EdgeTable
  import opened GardenerMerge
  import opened GardenerDecisions
  import opened GardenerClusters
  import opened GardenerRun
  import opened MergeForest
  import opened Components
  import opened Pruner

  /** The effective limits and rules of one run. */
  datatype RunConfig = RunConfig(policy: EdgePolicy, floor: real, maxDirtyNodes: int, maxClusters: int,
                                 maxLlmCalls: int, batchSize: nat)

  datatype RunResult = RunResult(
    seedNodes: nat, clustersTotal: nat, clustersProcessed: nat, clustersSkipped: nat, merges: nat, links: nat,
    llmCalls: nat,
    stoppedByClusters: bool, stoppedByLlm: bool, pruned: PruneSummary, tiersBackfilled: nat, tiersUpdated: nat)

  datatype Outcome = BadLimit | BudgetExhausted | Refused | Finished(result: RunResult)

  /** The seed query's rows and the candidate queries' rows: distinct existing concepts, and existing concepts. */
  ghost predicate QueriesHold(t: Tables, seeds: seq<int>, candidates: seq<seq<int>>) {
    && |seeds| == |candidates| && Distinct(seeds)
    && (forall i | 0 <= i < |seeds| :: IsActive(t, seeds[i]))
    && (forall i, c | 0 <= i < |candidates| && c in candidates[i] :: c in t.concepts)
  }

  function SeedSet(seeds: seq<int>): set<int> { set s | s in seeds }

  /** Concepts some user has made progress on. */
  function Mastered(t: Tables): set<int> { set k | k in t.mastery && t.mastery[k] :: k.concept }

  /** What the run loads for the clustered concepts; only seeds come with their tier. */
  function Load(cfg: RunConfig, t: Tables, seeds: set<int>, nodes: set<int>): Rules
    requires nodes <= t.concepts.Keys
  {
    Rules(cfg.policy, cfg.floor, seeds, Mastered(t),
          map c | c in nodes :: if c in seeds then t.concepts[c].tier else None,
          map c | c in nodes :: t.concepts[c].name)
  }

  function Cleaned(t: Tables, ids: set<int>): Tables {
    t.(concepts := map c | c in t.concepts :: if c in ids then t.concepts[c].(dirty := false) else t.concepts[c])
  }

  /** Clearing the dirty flag of the stabilized seeds, one row at a time. */
  method MarkClean(db: Session, ids: set<int>)
    modifies db
    ensures db.tables == Cleaned(old(db.tables), ids)
  {
    var ordered := SortedInts(ids);
    ghost var done: set<int> := {};
    CleanNone(db.tables);
    hide Cleaned;
    for i := 0 to |ordered|
      invariant forall c :: c in done <==> c in ordered[..i]
      invariant db.tables == Cleaned(old(db.tables), done)
    {
      SplitAt(ordered, i);
      CleanOneMore(old(db.tables), done, ordered[i]);
      if ordered[i] in db.tables.concepts {
        var row := db.tables.concepts[ordered[i]];
        db.tables := db.tables.(concepts := db.tables.concepts[ordered[i] := row.(dirty := false)]);
      }
      done := done + {ordered[i]};
    }
    assert ordered[..|ordered|] == ordered;
    assert forall c :: c in done <==> c in ids;
    assert done == ids;
  }

  lemma CleanNone(t: Tables)
    ensures Cleaned(t, {}) == t
  {
    assert Cleaned(t, {}).concepts == t.concepts;
  }

  lemma CleanOneMore(t: Tables, done: set<int>, id: int)
    ensures var before := Cleaned(t, done);
            Cleaned(t, done + {id}) ==
            if id in before.concepts
              then before.(concepts := before.concepts[id := before.concepts[id].(dirty := false)]) else before
  {
    var before, after := Cleaned(t, done), Cleaned(t, done + {id});
    if id in before.concepts {
      assert after.concepts == before.concepts[id := before.concepts[id].(dirty := false)];
    } else {
      assert after.concepts == before.concepts;
    }
  }

  /** What a run went through: the tables it decided on, the graph of candidates, its clusters, and where the decision
      phase ended. */
  datatype Trace = Trace(start: Tables, adj: Adjacency, clusters: seq<set<int>>, rules: Rules, pending: seq<set<int>>,
                         final: RunState)

  /** The clusters a run decides about. */
  function Pending(cfg: RunConfig, seeds: set<int>, clusters: seq<set<int>>, llmCalls: int): seq<set<int>> {
    var eligible := Eligible(seeds, clusters);
    eligible[..Min(|eligible|, if llmCalls < cfg.maxLlmCalls then Max(0, cfg.maxClusters) else 0)]
  }

  /** A trace fits its inputs: the candidate graph links exactly each seed with its candidates, the clusters are its
      components, and the pending ones are the first eligible ones the budgets allow. */
  ghost predicate Fits(cfg: RunConfig, t: Tables, seeds: seq<int>, candidates: seq<seq<int>>, llmCalls: int, tr: Trace)
    requires |seeds| == |candidates|
  {
    && tr.start == t
    && (forall k :: k in tr.adj <==> k in seeds || exists i :: 0 <= i < |seeds| && k in candidates[i])
    && (forall u, v :: v in Neighbours(tr.adj, u) <==> Linked(seeds, candidates, |seeds|, u, v))
    && IsClustering(tr.adj, tr.clusters)
    && tr.adj.Keys <= t.concepts.Keys
    && tr.rules == Load(cfg, t, SeedSet(seeds), tr.adj.Keys)
    && tr.pending == Pending(cfg, tr.rules.seeds, tr.clusters, llmCalls)
    && AllKnown(tr.rules, tr.pending, t)
  }

  /** Where the decision phase of a trace ends. */
  ghost predicate EndsWith(cfg: RunConfig, deciding: Deciding, tr: Trace)
    requires cfg.batchSize > 0 && IsReordering(deciding.relevance) && AllKnown(tr.rules, tr.pending, tr.start)
  {
    tr.final == DecisionPhase(tr.rules, tr.pending, tr.start, LoneSeeds(tr.rules.seeds, tr.clusters), deciding,
                              cfg.batchSize)
  }

  /** The summary of a finished run. */
  ghost predicate Reports(cfg: RunConfig, seeds: seq<int>, tr: Trace, backfilled: nat, r: RunResult)
    requires cfg.batchSize > 0
  {
    var eligible := |Eligible(tr.rules.seeds, tr.clusters)|;
    && r.tiersBackfilled == backfilled
    && r.llmCalls == backfilled + BatchCount(|tr.pending|, cfg.batchSize) <= cfg.maxLlmCalls
    && r.clustersProcessed == |tr.pending| <= cfg.maxClusters
    && r.seedNodes == |seeds| && r.clustersTotal == |tr.clusters| && r.clustersSkipped == tr.final.skipped
    && r.merges == |tr.final.p.merges| && r.links == |tr.final.p.links| && r.tiersUpdated == tr.final.p.tierUpdates
    && r.stoppedByClusters == (|tr.pending| < eligible && |tr.pending| == cfg.maxClusters)
    && r.stoppedByLlm == (|tr.pending| < eligible && |tr.pending| < cfg.maxClusters)
    && r.pruned == PruneSummary(|OrphanConcepts(Settled(tr))|, |OrphanEdges(Settled(tr))|)
  }

  /** The tables once the decisions are applied and the stabilized seeds are marked clean. */
  function Settled(tr: Trace): Tables { Cleaned(tr.final.p.t, tr.final.stabilized) }

  /** From the seeds on: cluster, select, decide, mark clean, prune. */
  method Consolidate(db: Session, budgets: GardenerBudgets, cfg: RunConfig, seeds: seq<int>, candidates: seq<seq<int>>,
                     deciding: Deciding, backfilled: nat) returns (outcome: Outcome, ghost tr: Trace)
    requires Ready(cfg.policy, db.tables) && cfg.batchSize > 0 && IsReordering(deciding.relevance)
    requires seeds != [] && QueriesHold(db.tables, seeds, candidates)
    requires budgets.maxLlmCalls == cfg.maxLlmCalls && budgets.maxClusters == cfg.maxClusters >= 0
    requires budgets.llmCalls == backfilled <= cfg.maxLlmCalls && budgets.clustersProcessed == 0
    modifies db, budgets
    ensures Fits(cfg, old(db.tables), seeds, candidates, backfilled, tr)
    ensures outcome == BudgetExhausted <==> backfilled + BatchCount(|tr.pending|, cfg.batchSize) > cfg.maxLlmCalls
    ensures outcome != BadLimit && (outcome != BudgetExhausted ==> EndsWith(cfg, deciding, tr))
    ensures outcome != BudgetExhausted ==> (outcome.Finished? <==> CanPrune(Settled(tr)))
    ensures outcome.Finished? ==>
              && Reports(cfg, seeds, tr, backfilled, outcome.result)
              && db.tables == Pruned(Settled(tr)) && Valid(db.tables)
  {
    hide Valid, IsClustering, IsOrderedCover, Pruned, CanPrune, Cleaned, DecisionPhase, IsReordering, Eligible,
      LoneSeeds, AllKnown, Symmetric, Linked, BatchCount, OrphanConcepts, OrphanEdges, Neighbours;
    var adj := BuildAdjacency(seeds, candidates);
    var clusters := ConnectedComponents(adj);
    NodesExist(db.tables, db.tables, seeds, candidates, adj);
    ClusteringIsAscending(adj, clusters);
    var rules := Load(cfg, db.tables, SeedSet(seeds), adj.Keys);
    var pending, stabilized, byCluster, byLlm := SelectClusters(budgets, rules.seeds, clusters);
    PendingKnown(cfg, db.tables, adj, clusters, rules, pending);
    tr := Trace(db.tables, adj, clusters, rules, pending, BeginRun(db.tables, {}));
    var ok, s := ProcessBatches(db, budgets, rules, pending, stabilized, deciding, cfg.batchSize);
    if !ok {
      return BudgetExhausted, tr;
    }
    tr := tr.(final := s);
    MarkClean(db, s.stabilized);
    PhaseIsReady(rules, pending, tr.start, stabilized, deciding, cfg.batchSize);
    CleanedKeeps(s.p.t, s.stabilized);
    var pruned := PruneOrphanGraphNodes(db);
    if pruned.None? {
      return Refused, tr;
    }
    outcome := Finished(RunResult(|seeds|, |clusters|, budgets.clustersProcessed, s.skipped, |s.p.merges|, |s.p.links|,
                                  budgets.llmCalls, byCluster, byLlm, pruned.value, backfilled, s.p.tierUpdates));
  }

  lemma ClusteringIsAscending(adj: Adjacency, clusters: seq<set<int>>)
    requires IsClustering(adj, clusters)
    ensures Ascending(clusters, Before)
  {
  }

  /** The number of concepts whose tier a run backfills. */
  function BackfillCount(cfg: RunConfig, t: Tables): int {
    Min(|NullTierConcepts(t, cfg.maxDirtyNodes)|, Max(0, cfg.maxLlmCalls))
  }

  /** The tables after the backfill pass. */
  function AfterBackfill(cfg: RunConfig, t: Tables, tierReplies: int -> Option<Tier>): Tables {
    Backfilled(t, NullTierConcepts(t, cfg.maxDirtyNodes)[..BackfillCount(cfg, t)], tierReplies)
  }

  lemma BackfillKeepsQueries(cfg: RunConfig, t: Tables, tierReplies: int -> Option<Tier>, seeds: seq<int>,
                             candidates: seq<seq<int>>)
    requires QueriesHold(t, seeds, candidates) && Ready(cfg.policy, t)
    ensures QueriesHold(AfterBackfill(cfg, t, tierReplies), seeds, candidates) && |seeds| == |candidates|
    ensures Ready(cfg.policy, AfterBackfill(cfg, t, tierReplies))
  {
    hide Valid, Backfilled;
    BackfillKeeps(t, NullTierConcepts(t, cfg.maxDirtyNodes)[..BackfillCount(cfg, t)], tierReplies);
  }

  /** The whole run. A None reply stands for a batch call that raised; BudgetExhausted for the RuntimeError of a call
      registered past the budget; Refused for the closing prune's refused statement. */
  method RunGardener(db: Session, cfg: RunConfig, seeds: seq<int>, candidates: seq<seq<int>>,
                     tierReplies: int -> Option<Tier>, deciding: Deciding) returns (outcome: Outcome, ghost tr: Trace)
    requires Ready(cfg.policy, db.tables) && cfg.batchSize > 0 && IsReordering(deciding.relevance)
    requires QueriesHold(db.tables, seeds, candidates)
    modifies db
    ensures outcome == BadLimit <==> cfg.maxDirtyNodes < 1 || cfg.maxClusters < 0 || cfg.maxLlmCalls < 0
    ensures outcome == BadLimit ==> db.tables == old(db.tables)
    ensures outcome != BadLimit && seeds == [] ==>
              && outcome.Finished?
              && outcome.result.llmCalls == outcome.result.tiersBackfilled == BackfillCount(cfg, old(db.tables))
              && db.tables == AfterBackfill(cfg, old(db.tables), tierReplies)
    ensures outcome != BadLimit && seeds != [] ==>
              var backfilled := BackfillCount(cfg, old(db.tables));
              && Fits(cfg, AfterBackfill(cfg, old(db.tables), tierReplies), seeds, candidates, backfilled, tr)
              && (outcome == BudgetExhausted <==>
                  backfilled + BatchCount(|tr.pending|, cfg.batchSize) > cfg.maxLlmCalls)
              && (outcome != BudgetExhausted ==>
                    && EndsWith(cfg, deciding, tr)
                    && (outcome.Finished? <==> StudiedLast(old(db.tables), tr.final.p.merges)))
              && (outcome.Finished? ==>
                    && Reports(cfg, seeds, tr, backfilled, outcome.result)
                    && db.tables == Pruned(Settled(tr)) && Valid(db.tables))
  {
    hide Valid, QueriesHold, Fits, EndsWith, Reports, Pruned, CanPrune, Settled, IsReordering, BatchCount, Backfilled,
      NullTierConcepts, StudiedLast;
    tr := Trace(db.tables, map[], [], Rules(cfg.policy, cfg.floor, {}, {}, map[], map[]), [], BeginRun(db.tables, {}));
    if cfg.maxDirtyNodes < 1 || cfg.maxClusters < 0 || cfg.maxLlmCalls < 0 {
      return BadLimit, tr;
    }
    var budgets := new GardenerBudgets(cfg.maxLlmCalls, cfg.maxClusters);
    BackfillKeepsQueries(cfg, db.tables, tierReplies, seeds, candidates);
    var backfilled := BackfillNullTiers(db, budgets, cfg.maxDirtyNodes, tierReplies);
    if seeds == [] {
      return Finished(RunResult(0, 0, 0, 0, 0, 0, budgets.llmCalls, false, false, PruneSummary(0, 0), backfilled,
                                0)), tr;
    }
    ghost var t := AfterBackfill(cfg, old(db.tables), tierReplies);
    outcome, tr := Consolidate(db, budgets, cfg, seeds, candidates, deciding, backfilled);
    if outcome != BudgetExhausted {
      RunMayPrune(cfg, t, seeds, candidates, deciding, backfilled, tr);
      BackfillKeepsStudied(cfg, old(db.tables), tierReplies, tr.final.p.merges);
    }
  }

  /** The job around a run, and the request: both commit a finished run and roll any other back. A run with seeds
      finishes exactly when its calls fit and every studied concept that it leaves active has provenance. */
  method RunJob(db: Session, cfg: RunConfig, seeds: seq<int>, candidates: seq<seq<int>>,
                tierReplies: int -> Option<Tier>, deciding: Deciding) returns (outcome: Outcome, ghost tr: Trace)
    requires Ready(cfg.policy, db.tables) && cfg.batchSize > 0 && IsReordering(deciding.relevance)
    requires QueriesHold(db.tables, seeds, candidates)
    modifies db
    ensures !outcome.Finished? ==> db.tables == old(db.tables)
    ensures seeds == [] ==> (outcome.Finished? <==> outcome != BadLimit)
    ensures seeds != [] ==>
              (outcome.Finished? <==>
               && outcome != BadLimit
               && BackfillCount(cfg, old(db.tables)) + BatchCount(|tr.pending|, cfg.batchSize) <= cfg.maxLlmCalls
               && StudiedLast(old(db.tables), tr.final.p.merges))
    ensures outcome.Finished? && seeds != [] ==> db.tables == Pruned(Settled(tr)) && Valid(db.tables)
  {
    hide Valid, QueriesHold, Fits, EndsWith, Reports, Pruned, Settled, IsReordering, BatchCount, StudiedLast,
      AfterBackfill, BackfillCount;
    var before := db.tables;
    outcome, tr := RunGardener(db, cfg, seeds, candidates, tierReplies, deciding);
    if !outcome.Finished? {
      db.tables := before;
    }
  }

  /** Every studied concept that is active and is not merged away has provenance. */
  ghost predicate StudiedLast(t: Tables, merges: seq<Merge>) {
    forall c | c in t.studied && IsActive(t, c) && c !in Sources(merges) :: HasProvenance(t, ConceptTarget(c))
  }

  /** The closing prune of a run goes through exactly when each studied concept that the run leaves active has
      provenance. */
  lemma RunMayPrune(cfg: RunConfig, t: Tables, seeds: seq<int>, candidates: seq<seq<int>>, deciding: Deciding,
                    llmCalls: int, tr: Trace)
    requires IsRun(cfg, t, seeds, candidates, deciding, llmCalls, tr)
    ensures CanPrune(Settled(tr)) <==> StudiedLast(t, tr.final.p.merges)
  {
    EveryRunIsSafe(cfg, t, seeds, candidates, deciding, llmCalls, tr);
    SettledActive(t, tr);
    var settled := Settled(tr);
    hide IsRun, Safe, AliasesFollow, Sources, Settled, HasProvenance;
    forall c ensures HasProvenance(settled, ConceptTarget(c)) <==> HasProvenance(t, ConceptTarget(c)) {
      SameProvenance(t, settled, ConceptTarget(c));
    }
    assert forall c :: c in OrphanConcepts(settled) <==> IsActive(settled, c) && !HasProvenance(t, ConceptTarget(c));
  }

  lemma SameProvenance(t: Tables, after: Tables, target: Target)
    requires after.provenance == t.provenance
    ensures HasProvenance(after, target) <==> HasProvenance(t, target)
  {
  }

  lemma BackfillKeepsStudied(cfg: RunConfig, t: Tables, tierReplies: int -> Option<Tier>, merges: seq<Merge>)
    requires Ready(cfg.policy, t)
    ensures StudiedLast(AfterBackfill(cfg, t, tierReplies), merges) <==> StudiedLast(t, merges)
  {
    hide Valid, Backfilled, Sources, NullTierConcepts;
    BackfillKeeps(t, NullTierConcepts(t, cfg.maxDirtyNodes)[..BackfillCount(cfg, t)], tierReplies);
    hide HasProvenance;
    var after := AfterBackfill(cfg, t, tierReplies);
    forall c ensures HasProvenance(after, ConceptTarget(c)) <==> HasProvenance(t, ConceptTarget(c)) {
      SameProvenance(t, after, ConceptTarget(c));
    }
  }

  /** So a studied concept without provenance that no model can have merged away, because it is no seed or is mastered,
      stops every run whose calls fit; and if there is no studied concept without provenance, none is stopped. */
  lemma StudiedStopsRuns(cfg: RunConfig, t: Tables, seeds: seq<int>, candidates: seq<seq<int>>, deciding: Deciding,
                         llmCalls: int, tr: Trace)
    requires IsRun(cfg, t, seeds, candidates, deciding, llmCalls, tr)
    ensures (exists c | c in t.studied && IsActive(t, c) && (c !in seeds || c in Mastered(t)) ::
               !HasProvenance(t, ConceptTarget(c))) ==> !CanPrune(Settled(tr))
    ensures (forall c | c in t.studied && IsActive(t, c) :: HasProvenance(t, ConceptTarget(c))) ==>
              CanPrune(Settled(tr))
  {
    RunMayPrune(cfg, t, seeds, candidates, deciding, llmCalls, tr);
    EveryRunIsSafe(cfg, t, seeds, candidates, deciding, llmCalls, tr);
    hide IsRun, AliasesFollow, Settled, CanPrune, HasProvenance, IsForest, NoEdgeAt, OldEdgesStay, RowsKept, IsActive,
      Mastered;
    assert forall m | m in tr.final.p.merges :: IsSafeMerge(tr.rules, tr.pending, t, m);
  }

  // ---- the pieces fit together ----

  lemma NodesExist(before: Tables, t: Tables, seeds: seq<int>, candidates: seq<seq<int>>, adj: Adjacency)
    requires QueriesHold(before, seeds, candidates) && t.concepts.Keys == before.concepts.Keys
    requires forall k :: k in adj <==> k in seeds || exists i :: 0 <= i < |seeds| && k in candidates[i]
    ensures adj.Keys <= t.concepts.Keys
  {
    forall k | k in adj ensures k in t.concepts {
      if k in seeds { assert IsActive(before, k); }
    }
  }

  lemma {:induction false} EligibleIn(seeds: set<int>, clusters: seq<set<int>>)
    ensures forall c | c in Eligible(seeds, clusters) :: c in clusters && IsEligible(seeds, c)
    ensures PairwiseDisjoint(clusters) ==> PairwiseDisjoint(Eligible(seeds, clusters))
  {
    if clusters != [] {
      hide IsEligible;
      var front, c := clusters[..|clusters| - 1], clusters[|clusters| - 1];
      assert clusters == front + [c];
      EligibleIn(seeds, front);
      if PairwiseDisjoint(clusters) { DisjointAppend(front, c, Eligible(seeds, front)); }
    }
  }

  lemma DisjointAppend(front: seq<set<int>>, c: set<int>, part: seq<set<int>>)
    requires PairwiseDisjoint(front + [c]) && (PairwiseDisjoint(front) ==> PairwiseDisjoint(part))
    requires forall x | x in part :: x in front
    ensures PairwiseDisjoint(front) && PairwiseDisjoint(part + [c]) && PairwiseDisjoint(part)
  {
    var all := front + [c];
    assert forall i | 0 <= i < |front| :: front[i] == all[i];
    forall i | 0 <= i < |part| ensures part[i] !! c {
      assert part[i] in front;
      var j :| 0 <= j < |front| && front[j] == part[i];
      assert all[j] !! all[|front|];
    }
  }

  lemma PendingKnown(cfg: RunConfig, t: Tables, adj: Adjacency, clusters: seq<set<int>>, rules: Rules,
                     pending: seq<set<int>>)
    requires Ready(cfg.policy, t) && adj.Keys <= t.concepts.Keys && IsClustering(adj, clusters)
    requires rules.policy == cfg.policy && rules.tiers.Keys == adj.Keys && rules.names.Keys == adj.Keys
    requires pending <= Eligible(rules.seeds, clusters)
    ensures AllKnown(rules, pending, t)
  {
    EligibleIn(rules.seeds, clusters);
    hide Ready, Eligible;
    forall k | 0 <= k < |pending| ensures Known(rules, pending[k], t) {
      assert pending[k] in Eligible(rules.seeds, clusters);
      var i :| 0 <= i < |clusters| && clusters[i] == pending[k];
      assert IsClass(adj, clusters[i]);
    }
  }

  lemma PhaseIsReady(rules: Rules, pending: seq<set<int>>, t: Tables, stabilized: set<int>, deciding: Deciding,
                     size: nat)
    requires size > 0 && IsReordering(deciding.relevance) && AllKnown(rules, pending, t) && Ready(rules.policy, t)
    ensures Valid(DecisionPhase(rules, pending, t, stabilized, deciding, size).p.t)
  {
    if pending != [] {
      PlanStaysInside(deciding, pending, size, 0);
      hide ApplyClusters, Plan, IsReordering;
      assert Known(rules, pending[0], DecisionPhase(rules, pending, t, stabilized, deciding, size).p.t);
    }
  }

  lemma CleanedKeeps(t: Tables, ids: set<int>)
    ensures Valid(t) ==> Valid(Cleaned(t, ids))
    ensures Cleaned(t, ids).concepts.Keys == t.concepts.Keys
    ensures forall c :: IsActive(Cleaned(t, ids), c) <==> IsActive(t, c)
  {
    hide EdgesAreSound;
  }

  // ---- what every run guarantees ----

  /** A run whose calls fit, from tables that satisfied the schema, on queries that held. Its decision phase is over; it
      finishes if the closing prune then goes through. */
  ghost predicate IsRun(cfg: RunConfig, t: Tables, seeds: seq<int>, candidates: seq<seq<int>>, deciding: Deciding,
                        llmCalls: int, tr: Trace) {
    && Ready(cfg.policy, t) && cfg.batchSize > 0 && IsReordering(deciding.relevance) && |seeds| == |candidates|
    && Fits(cfg, t, seeds, candidates, llmCalls, tr)
    && EndsWith(cfg, deciding, tr)
  }

  lemma PendingDisjoint(cfg: RunConfig, adj: Adjacency, clusters: seq<set<int>>, seeds: set<int>, llmCalls: int)
    requires IsClustering(adj, clusters)
    ensures PairwiseDisjoint(Pending(cfg, seeds, clusters, llmCalls))
    ensures forall c | c in Pending(cfg, seeds, clusters, llmCalls) :: c in clusters
  {
    EligibleIn(seeds, clusters);
    forall i, j | 0 <= i < j < |clusters| ensures clusters[i] !! clusters[j] {
      assert IsClass(adj, clusters[i]) && IsClass(adj, clusters[j]) && Before(clusters[i], clusters[j]);
      ClassesDisjoint(adj, clusters[i], clusters[j]);
    }
    hide IsClustering;
    var eligible, pending := Eligible(seeds, clusters), Pending(cfg, seeds, clusters, llmCalls);
    assert forall i | 0 <= i < |pending| :: pending[i] == eligible[i];
  }

  lemma BeginsSafe(rules: Rules, pending: seq<set<int>>, t: Tables, stabilized: set<int>)
    ensures Safe(rules, pending, t, BeginRun(t, stabilized).p)
    ensures Sources(BeginRun(t, stabilized).p.merges) == {}
    ensures AliasesFollow(rules.policy.names, t, BeginRun(t, stabilized).p)
  {
  }

  /** Whatever the model replies, a finished run is safe: its merges are a forest of merges of unmastered seeds within
      one cluster, exactly their sources were retired, nothing is left on them, and aliases follow the merges. */
  lemma EveryRunIsSafe(cfg: RunConfig, t: Tables, seeds: seq<int>, candidates: seq<seq<int>>, deciding: Deciding,
                       llmCalls: int, tr: Trace)
    requires IsRun(cfg, t, seeds, candidates, deciding, llmCalls, tr)
    ensures Safe(tr.rules, tr.pending, t, tr.final.p)
    ensures AliasesFollow(cfg.policy.names, t, tr.final.p)
    ensures tr.rules.seeds == SeedSet(seeds) && tr.rules.mastered == Mastered(t)
    ensures PairwiseDisjoint(tr.pending) && forall c | c in tr.pending :: IsClass(tr.adj, c)
  {
    hide Safe, AliasesFollow, IsReordering, Ready, AllKnown, AllStayInside, ApplyClusters, Plan;
    var lone := LoneSeeds(tr.rules.seeds, tr.clusters);
    var plan := Plan(deciding, tr.pending, cfg.batchSize, 0);
    PendingDisjoint(cfg, tr.adj, tr.clusters, tr.rules.seeds, llmCalls);
    PlanStaysInside(deciding, tr.pending, cfg.batchSize, 0);
    BeginsSafe(tr.rules, tr.pending, t, lone);
    ApplyClustersSafe(tr.rules, tr.pending, t, BeginRun(t, lone), plan, |tr.pending|);
    ApplyClustersFollow(tr.rules, tr.pending, t, BeginRun(t, lone), plan, |tr.pending|);
  }

  /** The inputs and the replies determine the whole run. */
  lemma TraceIsUnique(cfg: RunConfig, t: Tables, seeds: seq<int>, candidates: seq<seq<int>>, deciding: Deciding,
                      llmCalls: int, a: Trace, b: Trace)
    requires |seeds| == |candidates|
    requires Fits(cfg, t, seeds, candidates, llmCalls, a) && Fits(cfg, t, seeds, candidates, llmCalls, b)
    ensures a.(final := b.final) == b
    ensures (IsRun(cfg, t, seeds, candidates, deciding, llmCalls, a) &&
             IsRun(cfg, t, seeds, candidates, deciding, llmCalls, b)) ==> a == b
  {
    hide IsClustering, Load, Pending, AllKnown, IsReordering, Ready, Linked;
    assert a.adj == b.adj by {
      assert forall k :: k in a.adj <==> k in b.adj;
      forall k | k in a.adj ensures a.adj[k] == b.adj[k] {
        assert forall v :: v in Neighbours(a.adj, k) <==> v in Neighbours(b.adj, k);
        assert forall v :: v in a.adj[k] <==> v in b.adj[k];
      }
    }
    ClusteringUnique(a.adj, a.clusters, b.clusters);
  }

  /** Following the merges from any active concept ends, inside its cluster, at a concept the run left active:
      no cluster loses its last active concept to merging. */
  lemma MergedConceptsSurvive(rules: Rules, clusters: seq<set<int>>, start: Tables, p: Progress, c: int, k: nat)
    requires Safe(rules, clusters, start, p) && PairwiseDisjoint(clusters)
    requires IsActive(start, c) && k < |clusters| && c in clusters[k]
    ensures IsActive(p.t, Follow(p.merges, c)) && Follow(p.merges, c) in clusters[k]
    ensures IsActive(p.t, c) <==> Follow(p.merges, c) == c
  {
    var stay := set x | x in clusters[k] && IsActive(start, x);
    forall i | 0 <= i < |p.merges| && p.merges[i].from in stay ensures p.merges[i].to in stay {
      var m := p.merges[i];
      assert m in p.merges && IsSafeMerge(rules, clusters, start, m);
      var j :| 0 <= j < |clusters| && m.from in clusters[j] && m.to in clusters[j];
      OneCluster(clusters, j, k, m.from);
    }
    FollowMeaning(p.merges, c, stay);
  }

  lemma OneCluster(clusters: seq<set<int>>, j: nat, k: nat, x: int)
    requires PairwiseDisjoint(clusters) && j < |clusters| && k < |clusters|
    requires x in clusters[j] && x in clusters[k]
    ensures j == k
  {
  }

  // ---- what the closing prune leaves ----

  /** A concept whose edges outlast a run with these merges: not merged away, and supported if it is active. */
  ghost predicate HoldsEdges(t: Tables, merges: seq<Merge>, c: int) {
    c !in Sources(merges) && (IsActive(t, c) ==> HasProvenance(t, ConceptTarget(c)))
  }

  /** A row that outlasts a run: it was there with provenance, and both its ends hold their edges. */
  ghost predicate Outlasts(t: Tables, merges: seq<Merge>, e: int) {
    && e in t.edges && HasProvenance(t, EdgeTarget(e))
    && HoldsEdges(t, merges, t.edges[e].key.src) && HoldsEdges(t, merges, t.edges[e].key.tgt)
  }

  /** The edge rows after a run are exactly rows from before it, with the keys they had: those with provenance whose
      ends were not merged away and are supported. The closing prune removes every row the run inserted, because none
      of them has provenance. */
  lemma RunsAddNoEdges(cfg: RunConfig, t: Tables, seeds: seq<int>, candidates: seq<seq<int>>, deciding: Deciding,
                       llmCalls: int, tr: Trace)
    requires IsRun(cfg, t, seeds, candidates, deciding, llmCalls, tr)
    ensures var after := Pruned(Settled(tr));
            && (forall e :: e in after.edges <==> Outlasts(t, tr.final.p.merges, e))
            && (forall e | e in after.edges :: after.edges[e].key == t.edges[e].key)
  {
    EveryRunIsSafe(cfg, t, seeds, candidates, deciding, llmCalls, tr);
    SettledActive(t, tr);
    hide IsForest, IsSafeMerge, AliasesFollow, IsActive, IsRun, Sources;
    SurvivingEdges(t, Settled(tr), tr.final.p.merges);
  }

  /** Marking clean changes neither who is active nor any edge. */
  lemma SettledActive(t: Tables, tr: Trace)
    requires Safe(tr.rules, tr.pending, t, tr.final.p)
    ensures forall c :: IsActive(Settled(tr), c) <==> IsActive(t, c) && c !in Sources(tr.final.p.merges)
    ensures Settled(tr).edges == tr.final.p.t.edges && Settled(tr).aliases == tr.final.p.t.aliases
    ensures Settled(tr).provenance == t.provenance && Settled(tr).studied == t.studied
  {
    hide IsForest, IsSafeMerge, NoEdgeAt, Sources, OldEdgesStay, RowsKept, AliasesActive;
  }

  lemma SurvivingEdges(t: Tables, settled: Tables, merges: seq<Merge>)
    requires Valid(t) && settled.provenance == t.provenance
    requires OldEdgesStay(t, settled) && RowsKept(t, settled, Sources(merges)) && NoEdgeAt(settled, Sources(merges))
    requires forall c :: IsActive(settled, c) <==> IsActive(t, c) && c !in Sources(merges)
    ensures forall e :: e in Pruned(settled).edges <==> Outlasts(t, merges, e)
    ensures forall e | e in Pruned(settled).edges :: Pruned(settled).edges[e].key == t.edges[e].key
  {
    PruneSurvivors(settled);
    OrphansAre(t, settled, merges);
    hide Pruned, Sources, OrphanConcepts;
    forall e | e in Pruned(settled).edges
      ensures Outlasts(t, merges, e) && Pruned(settled).edges[e].key == t.edges[e].key
    {
      var q :| q in settled.provenance && q.0 == EdgeTarget(e);
      assert q in t.provenance && e < t.nextEdge;
      PrunedRow(settled, e);
    }
    forall e | Outlasts(t, merges, e) ensures e in Pruned(settled).edges {
      assert HasProvenance(settled, EdgeTarget(e));
    }
  }

  lemma OrphansAre(t: Tables, settled: Tables, merges: seq<Merge>)
    requires settled.provenance == t.provenance
    requires forall c :: IsActive(settled, c) <==> IsActive(t, c) && c !in Sources(merges)
    ensures forall c | c !in Sources(merges) :: c in OrphanConcepts(settled) <==> !HoldsEdges(t, merges, c)
  {
    forall c | c !in Sources(merges) ensures c in OrphanConcepts(settled) <==> !HoldsEdges(t, merges, c) {
      assert c in OrphanConcepts(settled) <==> IsActive(settled, c) && !HasProvenance(settled, ConceptTarget(c));
    }
  }

  lemma PrunedRow(t: Tables, e: int)
    requires e in Pruned(t).edges
    ensures e in t.edges && Pruned(t).edges[e] == t.edges[e]
  {
  }

  /** So a relation is there after the run exactly when a row with its key outlasts it. One that the gardener links
      anew, or carries over from a merged concept, is gone unless a row with exactly that key was there before. */
  lemma NewRelationsAreLost(cfg: RunConfig, t: Tables, seeds: seq<int>, candidates: seq<seq<int>>, deciding: Deciding,
                            llmCalls: int, tr: Trace, key: EdgeKey)
    requires IsRun(cfg, t, seeds, candidates, deciding, llmCalls, tr)
    ensures Has(Pruned(Settled(tr)).edges, key) <==>
            exists e | e in t.edges :: t.edges[e].key == key && Outlasts(t, tr.final.p.merges, e)
    ensures !Has(t.edges, key) ==> !Has(Pruned(Settled(tr)).edges, key)
  {
    RunsAddNoEdges(cfg, t, seeds, candidates, deciding, llmCalls, tr);
    hide IsRun, Settled, Outlasts, Pruned;
    var after := Pruned(Settled(tr)).edges;
    if Has(after, key) {
      var e :| e in after && after[e].key == key;
      assert Outlasts(t, tr.final.p.merges, e);
      OutlastingIsOld(t, tr.final.p.merges, e);
    }
  }

  lemma OutlastingIsOld(t: Tables, merges: seq<Merge>, e: int)
    requires Outlasts(t, merges, e)
    ensures e in t.edges
  {
  }

  /** Merging moves no provenance, so the concept that a merged one was absorbed into is active after the closing prune
      exactly when it has provenance of its own. */
  lemma MergedConceptsAfterPrune(cfg: RunConfig, t: Tables, seeds: seq<int>, candidates: seq<seq<int>>,
                                 deciding: Deciding, llmCalls: int, tr: Trace, c: int, k: nat)
    requires IsRun(cfg, t, seeds, candidates, deciding, llmCalls, tr)
    requires IsActive(t, c) && k < |tr.pending| && c in tr.pending[k]
    ensures var target := Follow(tr.final.p.merges, c);
            target in tr.pending[k] &&
              (IsActive(Pruned(Settled(tr)), target) <==> HasProvenance(t, ConceptTarget(target)))
  {
    EveryRunIsSafe(cfg, t, seeds, candidates, deciding, llmCalls, tr);
    MergedConceptsSurvive(tr.rules, tr.pending, t, tr.final.p, c, k);
    hide IsRun, Pruned, Settled, IsForest, IsSafeMerge, NoEdgeAt, AliasesFollow, OldEdgesStay, RowsKept, Sources;
    SettledActive(t, tr);
    PruneSurvivors(Settled(tr));
  }

  /** So a decided cluster keeps an active concept through the whole run exactly when one of its active concepts was
      absorbed into a supported one, or was supported and not merged. */
  lemma ClustersAfterPrune(cfg: RunConfig, t: Tables, seeds: seq<int>, candidates: seq<seq<int>>,
                           deciding: Deciding, llmCalls: int, tr: Trace, k: nat)
    requires IsRun(cfg, t, seeds, candidates, deciding, llmCalls, tr) && k < |tr.pending|
    ensures (exists x | x in tr.pending[k] :: IsActive(Pruned(Settled(tr)), x)) <==>
            exists c | c in tr.pending[k] ::
              IsActive(t, c) && HasProvenance(t, ConceptTarget(Follow(tr.final.p.merges, c)))
  {
    EveryRunIsSafe(cfg, t, seeds, candidates, deciding, llmCalls, tr);
    SettledActive(t, tr);
    PruneSurvivors(Settled(tr));
    hide Safe, Pruned, Settled, AliasesFollow, Follow, Sources, HasProvenance;
    if x :| x in tr.pending[k] && IsActive(Pruned(Settled(tr)), x) {
      assert IsActive(t, x);
      MergedConceptsSurvive(tr.rules, tr.pending, t, tr.final.p, x, k);
      FollowOfUnmerged(tr.rules, tr.pending, t, tr.final.p, x);
      MergedConceptsAfterPrune(cfg, t, seeds, candidates, deciding, llmCalls, tr, x, k);
    }
    if c :| c in tr.pending[k] && IsActive(t, c) && HasProvenance(t, ConceptTarget(Follow(tr.final.p.merges, c))) {
      MergedConceptsAfterPrune(cfg, t, seeds, candidates, deciding, llmCalls, tr, c, k);
    }
  }

  lemma FollowOfUnmerged(rules: Rules, clusters: seq<set<int>>, start: Tables, p: Progress, c: int)
    requires Safe(rules, clusters, start, p) && c !in Sources(p.merges)
    ensures Follow(p.merges, c) == c
  {
    FollowUntouched(p.merges, c);
  }

  /** After the run exactly those aliases are left that have an anchor whose target is supported or inactive, and each
      points where the merges lead from its anchor. */
  lemma AliasesAfterRun(cfg: RunConfig, t: Tables, seeds: seq<int>, candidates: seq<seq<int>>, deciding: Deciding,
                        llmCalls: int, tr: Trace, a: string)
    requires IsRun(cfg, t, seeds, candidates, deciding, llmCalls, tr)
    ensures var after, merges := Pruned(Settled(tr)), tr.final.p.merges;
            var anchor := Anchor(cfg.policy.names, t, merges, a);
            && (a in after.aliases <==> anchor.Some? && HoldsEdges(t, merges, Follow(merges, anchor.value)))
            && (a in after.aliases ==> after.aliases[a] == Follow(merges, anchor.value))
  {
    EveryRunIsSafe(cfg, t, seeds, candidates, deciding, llmCalls, tr);
    SettledActive(t, tr);
    var merges := tr.final.p.merges;
    OrphansAre(t, Settled(tr), merges);
    var anchor := Anchor(cfg.policy.names, t, merges, a);
    if anchor.Some? { FollowLeavesSources(merges, anchor.value); }
    hide IsRun, IsForest, IsSafeMerge, NoEdgeAt, OldEdgesStay, RowsKept, Anchor, Follow, Sources, HoldsEdges,
      OrphanConcepts, Settled;
  }

  /** After the run the alias map still points only at active concepts, and no edge touches a merged concept. */
  lemma RunKeepsAliases(cfg: RunConfig, t: Tables, seeds: seq<int>, candidates: seq<seq<int>>, deciding: Deciding,
                        llmCalls: int, tr: Trace)
    requires IsRun(cfg, t, seeds, candidates, deciding, llmCalls, tr)
    ensures AliasesActive(t) ==> AliasesActive(Pruned(Settled(tr)))
    ensures NoEdgeAt(Pruned(Settled(tr)), Sources(tr.final.p.merges))
  {
    EveryRunIsSafe(cfg, t, seeds, candidates, deciding, llmCalls, tr);
    SettledActive(t, tr);
    hide IsRun, AliasesFollow, IsForest, IsSafeMerge, OldEdgesStay, RowsKept, Settled, Sources, IsActive;
    StillPointing(tr.final.p.t, Settled(tr), Sources(tr.final.p.merges));
  }

  lemma StillPointing(t: Tables, settled: Tables, retired: set<int>)
    requires settled.edges == t.edges && settled.aliases == t.aliases && NoEdgeAt(t, retired)
    requires forall c :: IsActive(settled, c) <==> IsActive(t, c)
    ensures AliasesActive(t) ==> AliasesActive(Pruned(settled))
    ensures NoEdgeAt(Pruned(settled), retired)
  {
    PruneSurvivors(settled);
    hide HasProvenance;
    forall a | AliasesActive(t) && a in Pruned(settled).aliases
      ensures IsActive(Pruned(settled), Pruned(settled).aliases[a]) {
      assert IsActive(settled, settled.aliases[a]);
    }
  }

  /** Two clusters of two, a batch size of one and a budget of one call: selection takes both clusters, and the second
      batch cannot be registered. */
  lemma SelectionCanOverrunTheCallBudget(cfg: RunConfig, a: set<int>, b: set<int>)
    requires cfg.maxLlmCalls == 1 && cfg.maxClusters == 2 && cfg.batchSize == 1 && |a| == 2 && |b| == 2
    ensures Pending(cfg, a + b, [a, b], 0) == [a, b]
    ensures 0 + BatchCount(|Pending(cfg, a + b, [a, b], 0)|, cfg.batchSize) > cfg.maxLlmCalls
  {
    var x := Member(a);
    var y := Member(b);
    assert x in (a + b) * a && y in (a + b) * b;
    assert [a, b][..1] == [a] && [a][..0] == [];
    assert Eligible(a + b, []) == [];
    assert Eligible(a + b, [a]) == [a];
    assert Eligible(a + b, [a, b]) == [a, b];
    assert BatchCount(2, 1) == 1 + BatchCount(1, 1);
  }
}
