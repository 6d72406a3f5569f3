/** One bounded gardener run: budgets, tier backfill, cluster selection, batched decisions and the closing prune
    (domain/graph/gardener.py). */
module GardenerRun {
  import opened Numbers
  import opened Wrappers
  import opened Ordering
  import opened Sequences
  import opened GraphTables
  import opened EdgeTable
  import opened GardenerMerge
  import opened GardenerDecisions
  import opened GardenerClusters
  import opened MergeForest
  import opened Components
  import opened Pruner

  /** Hard-stop counters; registering past a bound is the source's RuntimeError. */
  class GardenerBudgets {
    const maxLlmCalls: int
    const maxClusters: int
    var llmCalls: int
    var clustersProcessed: int

    constructor (maxLlmCalls: int, maxClusters: int)
      ensures this.maxLlmCalls == maxLlmCalls && this.maxClusters == maxClusters
      ensures llmCalls == 0 && clustersProcessed == 0
    {
      this.maxLlmCalls, this.maxClusters := maxLlmCalls, maxClusters;
      llmCalls, clustersProcessed := 0, 0;
    }

    predicate CanProcessCluster()
      reads this
    {
      clustersProcessed < maxClusters
    }

    predicate CanCallLlm()
      reads this
    {
      llmCalls < maxLlmCalls
    }

    method RegisterCluster() returns (ok: bool)
      modifies this`clustersProcessed
      ensures ok == old(CanProcessCluster())
      ensures clustersProcessed == old(clustersProcessed) + if ok then 1 else 0
    {
      ok := CanProcessCluster();
      if ok { clustersProcessed := clustersProcessed + 1; }
    }

    method RegisterLlmCall() returns (ok: bool)
      modifies this`llmCalls
      ensures ok == old(CanCallLlm())
      ensures llmCalls == old(llmCalls) + if ok then 1 else 0
    {
      ok := CanCallLlm();
      if ok { llmCalls := llmCalls + 1; }
    }
  }

  // ---- tier backfill ----

  /** Active concepts without a tier, by ascending id, at most limit of them. */
  function NullTierConcepts(t: Tables, limit: int): seq<int> {
    var ids := SortedInts(set c | c in t.concepts && t.concepts[c].active && t.concepts[c].tier.None?);
    ids[..Min(Max(limit, 0), |ids|)]
  }

  /** The tier taken from a reply: anything unusable, or a failed call, becomes granular. */
  function InferredTier(reply: Option<Tier>): Tier {
    match reply case Some(tier) => tier case None => Granular
  }

  function Backfilled(t: Tables, ids: seq<int>, replies: int -> Option<Tier>): Tables {
    if ids == [] then t
    else
      var c := ids[|ids| - 1];
      Retiered(Backfilled(t, ids[..|ids| - 1], replies), c, InferredTier(replies(c)))
  }

  /** _backfill_null_tiers: one registered call per concept, until the call budget is used up. */
  method BackfillNullTiers(db: Session, budgets: GardenerBudgets, limit: int, replies: int -> Option<Tier>)
    returns (backfilled: nat)
    modifies db, budgets`llmCalls
    ensures backfilled == Min(|NullTierConcepts(old(db.tables), limit)|,
                              Max(0, budgets.maxLlmCalls - old(budgets.llmCalls)))
    ensures budgets.llmCalls == old(budgets.llmCalls) + backfilled
    ensures db.tables == Backfilled(old(db.tables), NullTierConcepts(old(db.tables), limit)[..backfilled], replies)
  {
    var concepts := NullTierConcepts(db.tables, limit);
    backfilled := 0;
    while backfilled < |concepts|
      invariant backfilled <= |concepts| && backfilled <= Max(0, budgets.maxLlmCalls - old(budgets.llmCalls))
      invariant budgets.llmCalls == old(budgets.llmCalls) + backfilled
      invariant db.tables == Backfilled(old(db.tables), concepts[..backfilled], replies)
    {
      if !budgets.CanCallLlm() {
        break;
      }
      var _ := budgets.RegisterLlmCall();
      SplitAt(concepts, backfilled);
      assert concepts[..backfilled + 1][..backfilled] == concepts[..backfilled];
      db.tables := Retiered(db.tables, concepts[backfilled], InferredTier(replies(concepts[backfilled])));
      backfilled := backfilled + 1;
    }
  }

  lemma {:induction false} BackfillKeeps(t: Tables, ids: seq<int>, replies: int -> Option<Tier>)
    ensures Valid(t) ==> Valid(Backfilled(t, ids, replies))
    ensures OnlyGraphWritten(t, Backfilled(t, ids, replies))
    ensures Backfilled(t, ids, replies).edges == t.edges && Backfilled(t, ids, replies).nextEdge == t.nextEdge
    ensures Backfilled(t, ids, replies).aliases == t.aliases
    ensures forall c :: IsActive(Backfilled(t, ids, replies), c) <==> IsActive(t, c)
  {
    if ids != [] {
      var before := Backfilled(t, ids[..|ids| - 1], replies);
      var c := ids[|ids| - 1];
      BackfillKeeps(t, ids[..|ids| - 1], replies);
      RetierKeeps(before, c, InferredTier(replies(c)));
      RetierWrites(before, c, InferredTier(replies(c)));
      hide Valid, Retiered;
    }
  }

  // ---- selecting clusters ----

  predicate IsEligible(seeds: set<int>, cluster: set<int>) { seeds * cluster != {} && |cluster| >= 2 }

  /** The clusters worth deciding about, in order. */
  function Eligible(seeds: set<int>, clusters: seq<set<int>>): seq<set<int>> {
    if clusters == [] then []
    else Eligible(seeds, clusters[..|clusters| - 1]) +
         if IsEligible(seeds, clusters[|clusters| - 1]) then [clusters[|clusters| - 1]] else []
  }

  /** Seeds that have no one to be merged with. */
  function LoneSeeds(seeds: set<int>, clusters: seq<set<int>>): set<int> {
    set s | s in seeds && {s} in clusters
  }

  /** How many clusters the cluster budget still has room for. */
  function Room(budgets: GardenerBudgets): int
    reads budgets
  {
    Max(0, budgets.maxClusters - budgets.clustersProcessed)
  }

  lemma EligibleAppend(seeds: set<int>, front: seq<set<int>>, c: set<int>)
    ensures Eligible(seeds, front + [c]) == Eligible(seeds, front) + if IsEligible(seeds, c) then [c] else []
  {
    assert (front + [c])[..|front|] == front;
  }

  lemma {:induction false} EligiblePrefix(seeds: set<int>, clusters: seq<set<int>>, i: nat)
    requires i <= |clusters|
    ensures Eligible(seeds, clusters[..i]) <= Eligible(seeds, clusters)
    decreases |clusters| - i
  {
    if i < |clusters| {
      SplitAt(clusters, i);
      EligibleAppend(seeds, clusters[..i], clusters[i]);
      EligiblePrefix(seeds, clusters, i + 1);
    } else {
      assert clusters[..i] == clusters;
    }
  }

  lemma LoneSeedsAppend(seeds: set<int>, front: seq<set<int>>, c: set<int>)
    ensures LoneSeeds(seeds, front + [c]) == LoneSeeds(seeds, front) + if |c| == 1 then seeds * c else {}
  {
    var all := front + [c];
    forall s | s in seeds ensures {s} in all <==> {s} in front || {s} == c { }
    if |c| == 1 {
      var x := Member(c);
      assert |c - {x}| == 0;
      assert c == {x};
    }
    forall s ensures s in LoneSeeds(seeds, all) <==>
                     s in LoneSeeds(seeds, front) + if |c| == 1 then seeds * c else {} { }
  }

  /** Clusters come by size, so none after a larger one is a lone seed. */
  lemma NoLoneSeedsLater(seeds: set<int>, clusters: seq<set<int>>, i: nat)
    requires Ascending(clusters, Before) && i < |clusters| && |clusters[i]| >= 2
    ensures LoneSeeds(seeds, clusters[..i]) == LoneSeeds(seeds, clusters)
  {
    forall j | i <= j < |clusters| ensures |clusters[j]| >= 2 {
      assert i < j ==> Before(clusters[i], clusters[j]);
    }
    forall s | s in seeds && {s} in clusters ensures {s} in clusters[..i] {
      var j :| 0 <= j < |clusters| && clusters[j] == {s};
      assert |{s}| == 1;
      assert clusters[..i][j] == {s};
    }
  }

  lemma NothingSelected(seeds: set<int>)
    ensures Eligible(seeds, []) == [] && LoneSeeds(seeds, []) == {}
  {
  }

  lemma SomeOfIt(seeds: set<int>, cluster: set<int>)
    requires seeds * cluster != {}
    ensures |cluster| >= 1
  {
    var x := Member(seeds * cluster);
    assert x in cluster;
  }

  /** What one more cluster adds to the eligible clusters and to the lone seeds. */
  lemma SelectStep(seeds: set<int>, clusters: seq<set<int>>, i: nat)
    requires i < |clusters|
    ensures var c, e, lone := clusters[i], Eligible(seeds, clusters[..i]), LoneSeeds(seeds, clusters[..i]);
            && Eligible(seeds, clusters[..i + 1]) == (if seeds * c == {} || |c| < 2 then e else e + [c])
            && LoneSeeds(seeds, clusters[..i + 1]) == (if seeds * c == {} || |c| >= 2 then lone else lone + seeds * c)
            && e <= Eligible(seeds, clusters) && Eligible(seeds, clusters[..i + 1]) <= Eligible(seeds, clusters)
  {
    hide Eligible, LoneSeeds;
    var c := clusters[i];
    SplitAt(clusters, i);
    EligibleAppend(seeds, clusters[..i], c);
    LoneSeedsAppend(seeds, clusters[..i], c);
    EligiblePrefix(seeds, clusters, i);
    EligiblePrefix(seeds, clusters, i + 1);
    if seeds * c != {} { SomeOfIt(seeds, c); }
  }

  /** The first eligible clusters that the cluster budget's room allows, none when no call is left; the lone seeds; and
      which budget cut the list. */
  ghost predicate IsSelection(seeds: set<int>, clusters: seq<set<int>>, room: int, callable: bool,
                              pending: seq<set<int>>, stabilized: set<int>, byCluster: bool, byLlm: bool)
    requires room >= 0
  {
    var all := Eligible(seeds, clusters);
    && pending == all[..Min(|all|, if callable then room else 0)]
    && byCluster == (|pending| < |all| && |pending| == room)
    && byLlm == (|pending| < |all| && |pending| < room)
    && stabilized == LoneSeeds(seeds, clusters)
  }

  /** What the loop has collected after some clusters. */
  ghost predicate IsCollecting(seeds: set<int>, clusters: seq<set<int>>, i: nat, room: int, callable: bool,
                               pending: seq<set<int>>, stabilized: set<int>) {
    && i <= |clusters| && pending == Eligible(seeds, clusters[..i]) && stabilized == LoneSeeds(seeds, clusters[..i])
    && 0 <= |pending| <= if callable then room else 0
  }

  lemma CollectStep(seeds: set<int>, clusters: seq<set<int>>, i: nat, room: int, callable: bool,
                    pending: seq<set<int>>, stabilized: set<int>)
    requires i < |clusters| && Ascending(clusters, Before) && room >= 0
    requires IsCollecting(seeds, clusters, i, room, callable, pending, stabilized)
    ensures var c := clusters[i]; var own := seeds * c;
            && (own == {} ==> IsCollecting(seeds, clusters, i + 1, room, callable, pending, stabilized))
            && (own != {} && |c| < 2 ==>
                IsCollecting(seeds, clusters, i + 1, room, callable, pending, stabilized + own))
            && (own != {} && |c| >= 2 && |pending| == room ==>
                IsSelection(seeds, clusters, room, callable, pending, stabilized, true, false))
            && (own != {} && |c| >= 2 && |pending| < room && !callable ==>
                IsSelection(seeds, clusters, room, callable, pending, stabilized, false, true))
            && (own != {} && |c| >= 2 && |pending| < room && callable ==>
                IsCollecting(seeds, clusters, i + 1, room, callable, pending + [c], stabilized))
  {
    hide Eligible, LoneSeeds, Ascending, Before;
    SelectStep(seeds, clusters, i);
    if |clusters[i]| >= 2 { NoLoneSeedsLater(seeds, clusters, i); }
  }

  lemma CollectedAll(seeds: set<int>, clusters: seq<set<int>>, room: int, callable: bool, pending: seq<set<int>>,
                     stabilized: set<int>)
    requires room >= 0 && IsCollecting(seeds, clusters, |clusters|, room, callable, pending, stabilized)
    ensures IsSelection(seeds, clusters, room, callable, pending, stabilized, false, false)
  {
    hide Eligible, LoneSeeds;
    assert clusters[..|clusters|] == clusters;
  }

  lemma NothingCollected(seeds: set<int>, clusters: seq<set<int>>, room: int, callable: bool)
    requires room >= 0
    ensures IsCollecting(seeds, clusters, 0, room, callable, [], {})
  {
    NothingSelected(seeds);
    assert clusters[..0] == [];
  }

  /** The loop that collects clusters; the two flags report its break. */
  method SelectClusters(budgets: GardenerBudgets, seeds: set<int>, clusters: seq<set<int>>)
    returns (pending: seq<set<int>>, stabilized: set<int>, byCluster: bool, byLlm: bool)
    requires Ascending(clusters, Before)
    modifies budgets`clustersProcessed
    ensures IsSelection(seeds, clusters, old(Room(budgets)), old(budgets.CanCallLlm()), pending, stabilized, byCluster,
                        byLlm)
    ensures budgets.clustersProcessed == old(budgets.clustersProcessed) + |pending|
  {
    pending, stabilized, byCluster, byLlm := [], {}, false, false;
    ghost var room, callable := Room(budgets), budgets.CanCallLlm();
    NothingCollected(seeds, clusters, room, callable);
    CollectedWithin(seeds, clusters, 0, room, callable, pending, stabilized);
    hide IsCollecting, IsSelection, Ascending, Before;
    for i := 0 to |clusters|
      invariant budgets.clustersProcessed == old(budgets.clustersProcessed) + |pending|
      invariant IsCollecting(seeds, clusters, i, room, callable, pending, stabilized) && !byCluster && !byLlm
    {
      var cluster := clusters[i];
      CollectStep(seeds, clusters, i, room, callable, pending, stabilized);
      CollectedWithin(seeds, clusters, i, room, callable, pending, stabilized);
      var clusterSeeds := seeds * cluster;
      if clusterSeeds == {} {
        continue;
      }
      if |cluster| < 2 {
        stabilized := stabilized + clusterSeeds;
        continue;
      }
      if !budgets.CanProcessCluster() {
        byCluster := true;
        return;
      }
      if !budgets.CanCallLlm() {
        byLlm := true;
        return;
      }
      var _ := budgets.RegisterCluster();
      pending := pending + [cluster];
    }
    CollectedAll(seeds, clusters, room, callable, pending, stabilized);
  }

  lemma CollectedWithin(seeds: set<int>, clusters: seq<set<int>>, i: nat, room: int, callable: bool,
                        pending: seq<set<int>>, stabilized: set<int>)
    requires IsCollecting(seeds, clusters, i, room, callable, pending, stabilized) && room >= 0
    ensures |pending| <= room
  {
  }

  // ---- deciding in batches ----

  /** The number of batches of the given size needed for n clusters. */
  function BatchCount(n: nat, size: nat): nat
    requires size > 0
  {
    if n == 0 then 0 else 1 + BatchCount(n - Min(size, n), size)
  }

  /** It is the least number of batches that holds them all: ceil(n / size). */
  lemma {:induction false} BatchCountIsCeiling(n: nat, size: nat)
    requires size > 0
    ensures n <= BatchCount(n, size) * size < n + size
  {
    if n > 0 {
      var b := BatchCount(n - Min(size, n), size);
      BatchCountIsCeiling(n - Min(size, n), size);
      OneMoreTimes(b, size);
      assert n <= size ==> b == 0;
    }
  }

  lemma OneMoreTimes(b: nat, size: nat)
    ensures (1 + b) * size == size + b * size
  {
  }

  /** How replies are turned into decisions: the shortlisting and what the model answers to each batch. */
  datatype Deciding = Deciding(relevance: Relevance, maxCandidates: nat, replies: nat -> Option<seq<seq<Op>>>)

  /** The decisions for the pending clusters, batch by batch from batch j on. */
  function Plan(deciding: Deciding, pending: seq<set<int>>, size: nat, j: nat): (plan: seq<seq<MemberDecision>>)
    requires size > 0 && IsReordering(deciding.relevance)
    ensures |plan| == |pending|
  {
    if pending == [] then []
    else
      var m := Min(size, |pending|);
      Decided(deciding.relevance, deciding.maxCandidates, pending[..m], deciding.replies(j))
        + Plan(deciding, pending[m..], size, j + 1)
  }

  lemma PlanStep(deciding: Deciding, pending: seq<set<int>>, size: nat, j: nat)
    requires size > 0 && IsReordering(deciding.relevance) && pending != []
    ensures var m := Min(size, |pending|);
            Plan(deciding, pending, size, j) ==
            Decided(deciding.relevance, deciding.maxCandidates, pending[..m], deciding.replies(j))
              + Plan(deciding, pending[m..], size, j + 1)
  {
    hide Decided, IsReordering;
  }

  lemma {:induction false} PlanStaysInside(deciding: Deciding, pending: seq<set<int>>, size: nat, j: nat)
    requires size > 0 && IsReordering(deciding.relevance)
    ensures AllStayInside(pending, Plan(deciding, pending, size, j))
    decreases |pending|
  {
    if pending != [] {
      var m := Min(size, |pending|);
      DecisionsStayInside(deciding.relevance, deciding.maxCandidates, pending[..m], deciding.replies(j));
      PlanStaysInside(deciding, pending[m..], size, j + 1);
      PlanStep(deciding, pending, size, j);
      hide AllInside, Decided, IsReordering, Plan;
      StayInsideConcat(pending, m,
                       Decided(deciding.relevance, deciding.maxCandidates, pending[..m], deciding.replies(j)),
                       Plan(deciding, pending[m..], size, j + 1));
    }
  }

  lemma StayInsideConcat(pending: seq<set<int>>, m: nat, first: seq<seq<MemberDecision>>,
                         rest: seq<seq<MemberDecision>>)
    requires m <= |pending| && AllStayInside(pending[..m], first) && AllStayInside(pending[m..], rest)
    ensures AllStayInside(pending, first + rest)
  {
    hide AllInside;
    var plan := first + rest;
    forall k | 0 <= k < |plan| ensures AllInside(pending[k], plan[k]) {
      if k < m {
        assert AllInside(pending[..m][k], first[k]);
      } else {
        assert AllInside(pending[m..][k - m], rest[k - m]);
      }
    }
  }

  /** What the run has done: the graph work, the clusters without any decision, and the seeds to mark clean. */
  datatype RunState = RunState(p: Progress, skipped: nat, stabilized: set<int>)

  ghost predicate AllKnown(rules: Rules, pending: seq<set<int>>, t: Tables) {
    forall k | 0 <= k < |pending| :: Known(rules, pending[k], t)
  }

  /** One pending cluster with its decisions. */
  function ApplyCluster(rules: Rules, cluster: set<int>, s: RunState, ds: seq<MemberDecision>): RunState
    requires Known(rules, cluster, s.p.t) && AllInside(cluster, ds)
  {
    if ds == [] then s.(skipped := s.skipped + 1)
    else s.(p := ApplyDecisions(rules, cluster, s.p.(merged := {}), ds),
            stabilized := s.stabilized + rules.seeds * cluster)
  }

  /** What applying a cluster's decisions leaves unchanged about the rest of the tables. */
  lemma {:induction false} DecisionsKeepRows(rules: Rules, cluster: set<int>, p: Progress, ds: seq<MemberDecision>)
    requires Known(rules, cluster, p.t) && AllInside(cluster, ds)
    ensures ApplyDecisions(rules, cluster, p, ds).t.concepts.Keys == p.t.concepts.Keys
  {
    if ds != [] {
      DecisionsKeepRows(rules, cluster, p, ds[..|ds| - 1]);
      DecisionKeepsRows(rules, cluster, ApplyDecisions(rules, cluster, p, ds[..|ds| - 1]), ds[|ds| - 1]);
    }
  }

  lemma DecisionKeepsRows(rules: Rules, cluster: set<int>, p: Progress, d: MemberDecision)
    requires Known(rules, cluster, p.t) && StaysInside(cluster, d)
    ensures ApplyDecision(rules, cluster, p, d).t.concepts.Keys == p.t.concepts.Keys
  {
    if !(d.own in p.merged || d.op == None || d.op.value.confidence < rules.floor) {
      var op := d.op.value;
      hide ApplyLink, ApplyMerge, CorrectTier, Known;
      if op.kind == LinkOnly {
        LinkRowsStay(rules, cluster, p, d.own, op);
        TierRowsStay(rules, cluster, ApplyLink(rules, cluster, p, d.own, op), d.own, op);
      } else if MayMerge(rules, cluster, p, d.own, op.mergeInto.value) {
        MergeRowsStay(rules, cluster, p, d.own, op.mergeInto.value);
        TierRowsStay(rules, cluster, ApplyMerge(rules, cluster, p, d.own, op.mergeInto.value), d.own, op);
      }
    }
  }

  lemma LinkRowsStay(rules: Rules, cluster: set<int>, p: Progress, own: int, op: Op)
    requires Known(rules, cluster, p.t) && own in cluster && op.Op? && op.linkTo.Some?
    ensures ApplyLink(rules, cluster, p, own, op).t.concepts == p.t.concepts
  {
    hide Upsert, LinkEdge, Valid;
  }

  lemma TierRowsStay(rules: Rules, cluster: set<int>, p: Progress, own: int, op: Op)
    requires Known(rules, cluster, p.t) && own in cluster && op.Op?
    ensures CorrectTier(rules, cluster, p, own, op).t.concepts.Keys == p.t.concepts.Keys
  {
    hide Valid;
  }

  lemma MergeRowsStay(rules: Rules, cluster: set<int>, p: Progress, own: int, target: int)
    requires Known(rules, cluster, p.t)
    ensures ApplyMerge(rules, cluster, p, own, target).t.concepts.Keys == p.t.concepts.Keys
  {
    if CanMerge(p.t, own, target) { MergeMeaning(rules.policy, p.t, own, target); }
    hide Merged, Valid;
  }

  lemma ApplyClusterKeeps(rules: Rules, pending: seq<set<int>>, k: nat, s: RunState, ds: seq<MemberDecision>)
    requires k < |pending| && AllKnown(rules, pending, s.p.t) && AllInside(pending[k], ds)
    ensures AllKnown(rules, pending, ApplyCluster(rules, pending[k], s, ds).p.t)
  {
    assert Known(rules, pending[k], s.p.t);
    if ds != [] {
      hide StaysInside, ApplyDecisions, Ready;
      DecisionsKeepRows(rules, pending[k], s.p.(merged := {}), ds);
    }
  }

  /** The first n pending clusters with their decisions. */
  function ApplyClusters(rules: Rules, pending: seq<set<int>>, s: RunState, plan: seq<seq<MemberDecision>>,
                         n: nat): (r: RunState)
    requires AllKnown(rules, pending, s.p.t) && AllStayInside(pending, plan) && n <= |pending|
    ensures AllKnown(rules, pending, r.p.t)
  {
    if n == 0 then s
    else
      var before := ApplyClusters(rules, pending, s, plan, n - 1);
      ApplyClusterKeeps(rules, pending, n - 1, before, plan[n - 1]);
      ApplyCluster(rules, pending[n - 1], before, plan[n - 1])
  }

  /** One pending cluster keeps the run safe, and retires members of that cluster only. */
  lemma ClusterKeepsSafe(rules: Rules, pending: seq<set<int>>, k: nat, start: Tables, s: RunState,
                         ds: seq<MemberDecision>)
    requires k < |pending| && Known(rules, pending[k], s.p.t) && AllInside(pending[k], ds)
    requires Safe(rules, pending, start, s.p) && Sources(s.p.merges) !! pending[k]
    ensures var r := ApplyCluster(rules, pending[k], s, ds);
            Safe(rules, pending, start, r.p) && Sources(r.p.merges) <= Sources(s.p.merges) + pending[k]
  {
    if ds != [] {
      var p := s.p.(merged := {});
      StartsSafe(rules, pending, start, s.p);
      hide Safe, Known, AllInside, Sources, ApplyDecisions;
      assert p.merged == Sources(p.merges) * pending[k];
      DecisionsKeepSafe(rules, pending, k, start, p, ds);
    }
  }

  /** What was merged in earlier clusters does not matter for the safety of a run. */
  lemma StartsSafe(rules: Rules, pending: seq<set<int>>, start: Tables, p: Progress)
    requires Safe(rules, pending, start, p)
    ensures Safe(rules, pending, start, p.(merged := {}))
  {
    hide IsForest, IsSafeMerge, Sources, NoEdgeAt, AliasesActive, OldEdgesStay, RowsKept, OnlyGraphWritten, SameCluster,
      IsActive;
  }

  /** The whole decision phase keeps the run safe, for every stream of replies. */
  lemma {:induction false} ApplyClustersSafe(rules: Rules, pending: seq<set<int>>, start: Tables, s: RunState,
                                             plan: seq<seq<MemberDecision>>, n: nat)
    requires AllKnown(rules, pending, s.p.t) && AllStayInside(pending, plan) && n <= |pending|
    requires PairwiseDisjoint(pending) && Safe(rules, pending, start, s.p) && Sources(s.p.merges) == {}
    ensures var r := ApplyClusters(rules, pending, s, plan, n);
            Safe(rules, pending, start, r.p) && forall k | n <= k < |pending| :: Sources(r.p.merges) !! pending[k]
  {
    hide Safe, Known, AllInside, Sources, ApplyCluster;
    if n > 0 {
      ApplyClustersSafe(rules, pending, start, s, plan, n - 1);
      var before := ApplyClusters(rules, pending, s, plan, n - 1);
      ClusterKeepsSafe(rules, pending, n - 1, start, before, plan[n - 1]);
      var after := ApplyCluster(rules, pending[n - 1], before, plan[n - 1]);
      forall k | n <= k < |pending| ensures Sources(after.p.merges) !! pending[k] {
        assert pending[n - 1] !! pending[k];
        assert Sources(before.p.merges) !! pending[k];
      }
    }
  }

  /** Through the whole decision phase aliases follow the merges. */
  lemma {:induction false} ApplyClustersFollow(rules: Rules, pending: seq<set<int>>, start: Tables, s: RunState,
                                               plan: seq<seq<MemberDecision>>, n: nat)
    requires AllKnown(rules, pending, s.p.t) && AllStayInside(pending, plan) && n <= |pending|
    requires AliasesFollow(rules.policy.names, start, s.p)
    ensures AliasesFollow(rules.policy.names, start, ApplyClusters(rules, pending, s, plan, n).p)
  {
    hide Known, AllInside, ApplyDecisions, Anchor, Follow, IsActive;
    if n > 0 {
      ApplyClustersFollow(rules, pending, start, s, plan, n - 1);
      var before := ApplyClusters(rules, pending, s, plan, n - 1);
      if plan[n - 1] != [] {
        DecisionsKeepFollow(rules, pending[n - 1], start, before.p.(merged := {}), plan[n - 1]);
      }
    }
  }

  method ApplyOneCluster(db: Session, rules: Rules, cluster: set<int>, s: RunState, ds: seq<MemberDecision>)
    returns (r: RunState)
    requires db.tables == s.p.t && Known(rules, cluster, s.p.t) && AllInside(cluster, ds)
    modifies db
    ensures r == ApplyCluster(rules, cluster, s, ds) && db.tables == r.p.t
  {
    if ds == [] {
      return s.(skipped := s.skipped + 1);
    }
    hide Known, AllInside;
    var p := ProcessCluster(db, rules, cluster, ds, s.p.(merged := {}));
    r := s.(p := p, stabilized := s.stabilized + rules.seeds * cluster);
  }

  lemma PlanSplits(deciding: Deciding, pending: seq<set<int>>, size: nat, plan: seq<seq<MemberDecision>>, first: nat,
                   j: nat)
    requires size > 0 && IsReordering(deciding.relevance) && first < |pending| == |plan|
    requires plan[first..] == Plan(deciding, pending[first..], size, j)
    ensures var m := Min(size, |pending| - first);
            && Decided(deciding.relevance, deciding.maxCandidates, pending[first..first + m], deciding.replies(j)) ==
                 plan[first..first + m]
            && plan[first + m..] == Plan(deciding, pending[first + m..], size, j + 1)
  {
    hide IsReordering, Decided, Plan;
    var m := Min(size, |pending| - first);
    PlanStep(deciding, pending[first..], size, j);
    assert pending[first..][..m] == pending[first..first + m] && pending[first..][m..] == pending[first + m..];
    assert plan[first..][..m] == plan[first..first + m] && plan[first..][m..] == plan[first + m..];
  }

  lemma NextCluster(rules: Rules, pending: seq<set<int>>, s0: RunState, plan: seq<seq<MemberDecision>>, n: nat)
    requires AllKnown(rules, pending, s0.p.t) && AllStayInside(pending, plan) && n < |pending|
    ensures |plan| == |pending|
    ensures var s := ApplyClusters(rules, pending, s0, plan, n);
            && Known(rules, pending[n], s.p.t) && AllInside(pending[n], plan[n])
            && ApplyClusters(rules, pending, s0, plan, n + 1) == ApplyCluster(rules, pending[n], s, plan[n])
  {
    hide Known, AllInside, ApplyCluster;
  }

  /** One batch: the clusters from first on, with the plan's decisions. */
  method ApplyBatch(db: Session, rules: Rules, pending: seq<set<int>>, ghost plan: seq<seq<MemberDecision>>,
                    ghost s0: RunState,
                    first: nat, decisions: seq<seq<MemberDecision>>, s: RunState) returns (r: RunState)
    requires first + |decisions| <= |pending| == |plan| && decisions == plan[first..first + |decisions|]
    requires AllStayInside(pending, plan)
    requires AllKnown(rules, pending, s0.p.t) && s == ApplyClusters(rules, pending, s0, plan, first)
    requires db.tables == s.p.t
    modifies db
    ensures r == ApplyClusters(rules, pending, s0, plan, first + |decisions|) && db.tables == r.p.t
  {
    hide Known, AllInside, ApplyCluster, AllKnown, AllStayInside, ApplyClusters;
    r := s;
    for k := 0 to |decisions|
      invariant r == ApplyClusters(rules, pending, s0, plan, first + k) && db.tables == r.p.t
    {
      NextCluster(rules, pending, s0, plan, first + k);
      assert decisions[k] == plan[first + k];
      r := ApplyOneCluster(db, rules, pending[first + k], r, decisions[k]);
    }
  }

  lemma NothingApplied(rules: Rules, pending: seq<set<int>>, s0: RunState, plan: seq<seq<MemberDecision>>)
    requires AllKnown(rules, pending, s0.p.t) && AllStayInside(pending, plan)
    ensures ApplyClusters(rules, pending, s0, plan, 0) == s0
  {
  }

  function BeginRun(t: Tables, stabilized: set<int>): RunState { RunState(Progress(t, {}, [], [], 0), 0, stabilized) }

  /** What the decision phase makes of the pending clusters. */
  function DecisionPhase(rules: Rules, pending: seq<set<int>>, t: Tables, stabilized: set<int>, deciding: Deciding,
                         size: nat): RunState
    requires size > 0 && IsReordering(deciding.relevance) && AllKnown(rules, pending, t)
  {
    PlanStaysInside(deciding, pending, size, 0);
    ApplyClusters(rules, pending, BeginRun(t, stabilized), Plan(deciding, pending, size, 0), |pending|)
  }

  /** The batch loop: each batch is put to the model, then registered, then applied. Registering past the budget
      ends the run (ok is false, the source's RuntimeError), exactly when the batches do not all fit. */
  method ProcessBatches(db: Session, budgets: GardenerBudgets, rules: Rules, pending: seq<set<int>>,
                        stabilized: set<int>,
                        deciding: Deciding, size: nat) returns (ok: bool, s: RunState)
    requires size > 0 && IsReordering(deciding.relevance) && AllKnown(rules, pending, db.tables)
    requires budgets.llmCalls <= budgets.maxLlmCalls
    modifies db, budgets`llmCalls
    ensures ok <==> old(budgets.llmCalls) + BatchCount(|pending|, size) <= budgets.maxLlmCalls
    ensures ok ==> budgets.llmCalls == old(budgets.llmCalls) + BatchCount(|pending|, size)
    ensures ok ==> s == DecisionPhase(rules, pending, old(db.tables), stabilized, deciding, size) && db.tables == s.p.t
    ensures !ok ==> budgets.llmCalls == budgets.maxLlmCalls
  {
    hide AllKnown, AllStayInside, Plan, IsReordering, Decided, ApplyClusters;
    PlanStaysInside(deciding, pending, size, 0);
    ghost var plan := Plan(deciding, pending, size, 0);
    ghost var s0 := BeginRun(db.tables, stabilized);
    NothingApplied(rules, pending, s0, plan);
    s := BeginRun(db.tables, stabilized);
    ok := true;
    var first, j := 0, 0;
    assert plan[0..] == plan && pending[0..] == pending;
    while first < |pending|
      invariant first <= |pending| == |plan|
      invariant budgets.llmCalls == old(budgets.llmCalls) + j && budgets.llmCalls <= budgets.maxLlmCalls
      invariant BatchCount(|pending|, size) == j + BatchCount(|pending| - first, size)
      invariant plan[first..] == Plan(deciding, pending[first..], size, j)
      invariant s == ApplyClusters(rules, pending, s0, plan, first) && db.tables == s.p.t
    {
      PlanSplits(deciding, pending, size, plan, first, j);
      var m := Min(size, |pending| - first);
      var decisions := BatchClusterDecisions(deciding.relevance, deciding.maxCandidates, pending[first..first + m],
                                             deciding.replies(j));
      var registered := budgets.RegisterLlmCall();
      if !registered {
        return false, s;
      }
      s := ApplyBatch(db, rules, pending, plan, s0, first, decisions, s);
      first, j := first + m, j + 1;
    }
  }
}
