/** The passes of a gardener run, said of the tables, the clusters and the replies alone (domain/graph/gardener.py). */
module GardenerRunMeaning {
  import opened Numbers
  import opened Wrappers
  import opened Ordering
  import opened Sequences
  import opened GraphTables
  import opened GardenerMerge
  import opened GardenerDecisions
  import opened GardenerClusters
  import opened GardenerMeaning
  import opened GardenerRun
  import opened Gardener
  import opened MergeForest

  // ---- the backfill ----

  predicate IsUntiered(t: Tables, c: int) { c in t.concepts && t.concepts[c].active && t.concepts[c].tier == None }

  /** The untiered active concepts below an id. */
  function UntieredBelow(t: Tables, c: int): set<int> { set u | u in t.concepts && IsUntiered(t, u) && u < c }

  /** The first concepts that the backfill takes, in the order of their ids, get the tier of their reply, granular if
      there is none usable; every other row, and every other table, stays. */
  lemma BackfillMeaning(t: Tables, limit: int, n: nat, replies: int -> Option<Tier>)
    requires n <= |NullTierConcepts(t, limit)|
    ensures var after := Backfilled(t, NullTierConcepts(t, limit)[..n], replies);
            && after == t.(concepts := after.concepts) && after.concepts.Keys == t.concepts.Keys
            && forall c | c in t.concepts ::
                 after.concepts[c] ==
                 if IsUntiered(t, c) && |UntieredBelow(t, c)| < n
                 then t.concepts[c].(tier := Some(if replies(c).Some? then replies(c).value else Granular))
                 else t.concepts[c]
    ensures |NullTierConcepts(t, limit)| ==
            var all := |set c | c in t.concepts && IsUntiered(t, c)|;
            if limit < 0 then 0 else if limit < all then limit else all
  {
    var all := set c | c in t.concepts && IsUntiered(t, c);
    var ids, taken := SortedInts(all), NullTierConcepts(t, limit)[..n];
    TakenFirst(t, limit, n, all);
    BackfilledRows(t, taken, replies);
    hide SortedInts, Backfilled, IsUntiered, UntieredBelow, NullTierConcepts;
    forall c | c in t.concepts ensures c in taken <==> IsUntiered(t, c) && |UntieredBelow(t, c)| < n {
      IsTaken(t, all, ids, n, c);
    }
  }

  lemma TakenFirst(t: Tables, limit: int, n: nat, all: set<int>)
    requires n <= |NullTierConcepts(t, limit)| && all == set c | c in t.concepts && IsUntiered(t, c)
    ensures n <= |SortedInts(all)| && NullTierConcepts(t, limit)[..n] == SortedInts(all)[..n]
    ensures |NullTierConcepts(t, limit)| == if limit < 0 then 0 else if limit < |all| then limit else |all|
  {
    assert all == set c | c in t.concepts && t.concepts[c].active && t.concepts[c].tier.None?;
    AscendingCount(SortedInts(all), all);
    hide SortedInts;
  }

  lemma IsTaken(t: Tables, all: set<int>, ids: seq<int>, n: nat, c: int)
    requires all == (set c | c in t.concepts && IsUntiered(t, c)) && ids == SortedInts(all) && n <= |ids|
    requires c in t.concepts
    ensures c in ids[..n] <==> IsUntiered(t, c) && |UntieredBelow(t, c)| < n
  {
    hide IsUntiered, UntieredBelow, SortedInts;
    SortedRises(all);
    if IsUntiered(t, c) {
      assert c in ids;
      var k :| 0 <= k < |ids| && ids[k] == c;
      FirstOnes(t, ids, k);
      if k < n { assert ids[..n][k] == c; }
      if c in ids[..n] {
        var j :| 0 <= j < n && ids[j] == c;
        assert j == k;
      }
    } else {
      assert c !in ids;
    }
  }

  lemma SortedRises(s: set<int>)
    ensures var xs := SortedInts(s);
            (forall x :: x in xs <==> x in s) && forall i, j | 0 <= i < j < |xs| :: xs[i] < xs[j]
  {
  }

  /** In the sorted ids of the untiered concepts each has as many before it as there are smaller ones. */
  lemma FirstOnes(t: Tables, ids: seq<int>, k: nat)
    requires k < |ids| && (forall i, j | 0 <= i < j < |ids| :: ids[i] < ids[j])
    requires forall c :: c in ids <==> c in t.concepts && IsUntiered(t, c)
    ensures |UntieredBelow(t, ids[k])| == k
  {
    var below := UntieredBelow(t, ids[k]);
    forall c ensures c in below <==> c in ids[..k] {
      if c in below {
        var j :| 0 <= j < |ids| && ids[j] == c;
        assert ids[..k][j] == c;
      }
      if c in ids[..k] {
        var j :| 0 <= j < k && ids[j] == c;
        assert c in ids;
      }
    }
    AscendingCount(ids[..k], below);
  }

  lemma {:induction false} AscendingCount(xs: seq<int>, s: set<int>)
    requires (forall c :: c in xs <==> c in s) && forall i, j | 0 <= i < j < |xs| :: xs[i] < xs[j]
    ensures |xs| == |s|
  {
    if xs == [] {
      forall c ensures c !in s { assert c in xs <==> c in s; }
      assert s == {};
    } else {
      var front, last := xs[..|xs| - 1], xs[|xs| - 1];
      assert last in xs;
      forall c ensures c in front <==> c in s - {last} {
        if c in s - {last} {
          var i :| 0 <= i < |xs| && xs[i] == c;
          assert front[i] == c;
        }
      }
      AscendingCount(front, s - {last});
    }
  }

  lemma {:induction false} BackfilledRows(t: Tables, ids: seq<int>, replies: int -> Option<Tier>)
    ensures var after := Backfilled(t, ids, replies);
            && after == t.(concepts := after.concepts) && after.concepts.Keys == t.concepts.Keys
            && forall c | c in t.concepts ::
                 after.concepts[c] ==
                 if c in ids then t.concepts[c].(tier := Some(if replies(c).Some? then replies(c).value else Granular))
                 else t.concepts[c]
  {
    if ids != [] {
      var front, last := ids[..|ids| - 1], ids[|ids| - 1];
      BackfilledRows(t, front, replies);
      RetierRow(Backfilled(t, front, replies), last, InferredTier(replies(last)));
      hide Retiered;
      assert forall c :: c in ids <==> c in front || c == last by { assert ids == front + [last]; }
    }
  }

  lemma RetierRow(t: Tables, id: int, tier: Tier)
    ensures var after := Retiered(t, id, tier);
            && after == t.(concepts := after.concepts) && after.concepts.Keys == t.concepts.Keys
            && forall c | c in t.concepts ::
                 after.concepts[c] == if c == id then t.concepts[c].(tier := Some(tier)) else t.concepts[c]
  {
  }

  // ---- the clusters taken ----

  /** A cluster worth deciding about has a seed and at least one more member. */
  predicate IsWorth(seeds: set<int>, c: set<int>) { |c| >= 2 && exists s :: s in c && s in seeds }

  /** The positions of the clusters worth deciding about, and those clusters. */
  ghost predicate AreWorth(seeds: set<int>, clusters: seq<set<int>>, worth: seq<set<int>>, at: seq<nat>) {
    && |at| == |worth|
    && (forall m | 0 <= m < |at| :: at[m] < |clusters| && worth[m] == clusters[at[m]] && IsWorth(seeds, worth[m]))
    && (forall m, l | 0 <= m < l < |at| :: at[m] < at[l])
    && (forall k: nat | k < |clusters| && IsWorth(seeds, clusters[k]) :: k in at)
  }

  lemma {:induction false} EligibleMeaning(seeds: set<int>, clusters: seq<set<int>>) returns (at: seq<nat>)
    ensures AreWorth(seeds, clusters, Eligible(seeds, clusters), at)
  {
    at := [];
    if clusters != [] {
      var n := |clusters| - 1;
      var front, c := clusters[..n], clusters[n];
      var before := EligibleMeaning(seeds, front);
      EligibleIsWorth(seeds, c);
      hide IsWorth, IsEligible;
      at := before + if IsWorth(seeds, c) then [n] else [];
      OneMoreWorth(seeds, clusters, Eligible(seeds, front), before, Eligible(seeds, clusters), at);
    }
  }

  lemma OneMoreWorth(seeds: set<int>, clusters: seq<set<int>>, worth: seq<set<int>>, before: seq<nat>,
                     now: seq<set<int>>, at: seq<nat>)
    requires clusters != [] && AreWorth(seeds, clusters[..|clusters| - 1], worth, before)
    requires var c := clusters[|clusters| - 1];
             if IsWorth(seeds, c) then now == worth + [c] && at == before + [|clusters| - 1]
             else now == worth && at == before
    ensures AreWorth(seeds, clusters, now, at)
  {
    hide IsWorth;
    var n, front := |clusters| - 1, clusters[..|clusters| - 1];
    assert forall k | 0 <= k < n :: front[k] == clusters[k];
    forall k: nat | k < |clusters| && IsWorth(seeds, clusters[k]) ensures k in at {
      if k < n { assert k in before; } else { assert at[|before|] == n; }
    }
  }

  lemma EligibleIsWorth(seeds: set<int>, c: set<int>)
    ensures IsEligible(seeds, c) <==> IsWorth(seeds, c)
  {
    if IsWorth(seeds, c) {
      var s :| s in c && s in seeds;
      assert s in seeds * c;
    }
    if seeds * c != {} {
      var s := Member(seeds * c);
      assert s in c && s in seeds;
    }
  }

  /** A run takes the first clusters worth deciding about, as many as the cluster budget has, and none without a
      call. */
  lemma PendingMeaning(cfg: RunConfig, seeds: set<int>, clusters: seq<set<int>>, llmCalls: int)
    returns (at: seq<nat>, worth: seq<set<int>>)
    ensures AreWorth(seeds, clusters, worth, at)
    ensures var pending := Pending(cfg, seeds, clusters, llmCalls);
            && pending <= worth
            && (llmCalls >= cfg.maxLlmCalls || cfg.maxClusters <= 0 ==> pending == [])
            && (llmCalls < cfg.maxLlmCalls && cfg.maxClusters > 0 ==>
                  |pending| == if |worth| <= cfg.maxClusters then |worth| else cfg.maxClusters)
  {
    worth := Eligible(seeds, clusters);
    at := EligibleMeaning(seeds, clusters);
    hide Eligible, AreWorth;
  }

  // ---- the decisions of the batches ----

  /** The number of the batch that holds position k. */
  function BatchOf(size: nat, k: nat): (batch: nat)
    requires size > 0
    ensures batch * size <= k < batch * size + size
  {
    if k < size then 0
    else
      var earlier := BatchOf(size, k - size);
      OneMoreTimes(earlier, size);
      1 + earlier
  }

  /** Where that batch starts. */
  function StartOf(size: nat, k: nat): (start: nat)
    requires size > 0
    ensures start == BatchOf(size, k) * size && start <= k < start + size
  {
    BatchOf(size, k) * size
  }

  lemma NextBatch(size: nat, k: nat)
    requires size > 0
    ensures k < size ==> BatchOf(size, k) == StartOf(size, k) == 0
    ensures k >= size ==>
              BatchOf(size, k) == 1 + BatchOf(size, k - size) && StartOf(size, k) == StartOf(size, k - size) + size
  {
    if k >= size { OneMoreTimes(BatchOf(size, k - size), size); }
  }

  ghost predicate IsPlanned(deciding: Deciding, pending: seq<set<int>>, plan: seq<seq<MemberDecision>>, k: nat,
                            start: nat, end: nat, batch: nat)
    requires IsReordering(deciding.relevance)
  {
    && start <= k < end <= |pending| && k < |plan|
    && plan[k] == Decided(deciding.relevance, deciding.maxCandidates, pending[start..end],
                          deciding.replies(batch))[k - start]
  }

  function EndOf(size: nat, start: nat, total: nat): nat { if start + size <= total then start + size else total }

  lemma PlanParts(deciding: Deciding, pending: seq<set<int>>, size: nat, j: nat, k: nat)
    requires size > 0 && IsReordering(deciding.relevance) && k < |pending|
    ensures k < size ==>
              var m := EndOf(size, 0, |pending|);
              IsPlanned(deciding, pending, Plan(deciding, pending, size, j), k, 0, m, j)
    ensures k >= size ==>
              && k - size < |Plan(deciding, pending[size..], size, j + 1)|
              && Plan(deciding, pending, size, j)[k] == Plan(deciding, pending[size..], size, j + 1)[k - size]
  {
    PlanStep(deciding, pending, size, j);
    hide IsReordering, Decided, Plan;
    var m := EndOf(size, 0, |pending|);
    assert pending[0..m] == pending[..m];
  }

  lemma PlannedLater(deciding: Deciding, pending: seq<set<int>>, plan: seq<seq<MemberDecision>>,
                     rest: seq<seq<MemberDecision>>, size: nat, k: nat, start: nat, end: nat, batch: nat)
    requires IsReordering(deciding.relevance) && size <= |pending| && |plan| == |pending|
    requires IsPlanned(deciding, pending[size..], rest, k, start, end, batch) && plan[k + size] == rest[k]
    ensures IsPlanned(deciding, pending, plan, k + size, start + size, end + size, batch)
  {
    hide IsReordering, Decided;
    assert pending[size..][start..end] == pending[start + size..end + size];
  }

  /** The decisions for a pending cluster are those its batch gets from the reply to that batch. */
  lemma {:induction false} PlanMeaning(deciding: Deciding, pending: seq<set<int>>, size: nat, j: nat, k: nat)
    requires size > 0 && IsReordering(deciding.relevance) && k < |pending|
    ensures IsPlanned(deciding, pending, Plan(deciding, pending, size, j), k, StartOf(size, k),
                      EndOf(size, StartOf(size, k), |pending|), j + BatchOf(size, k))
    decreases k
  {
    hide IsReordering, IsPlanned, Plan, BatchOf, StartOf;
    PlanParts(deciding, pending, size, j, k);
    NextBatch(size, k);
    if k >= size {
      PlanMeaning(deciding, pending[size..], size, j + 1, k - size);
      var start := StartOf(size, k - size);
      PlannedLater(deciding, pending, Plan(deciding, pending, size, j), Plan(deciding, pending[size..], size, j + 1),
                   size, k - size, start, EndOf(size, start, |pending| - size), j + 1 + BatchOf(size, k - size));
    }
  }

  // ---- what a run marks clean ----

  /** A pending cluster without any decision is skipped; the seeds of the others become stable. */
  lemma {:induction false} StableMeaning(rules: Rules, pending: seq<set<int>>, s: RunState,
                                         plan: seq<seq<MemberDecision>>, n: nat)
    requires AllKnown(rules, pending, s.p.t) && AllStayInside(pending, plan) && n <= |pending|
    ensures |plan| == |pending|
    ensures var r := ApplyClusters(rules, pending, s, plan, n);
            && (forall c :: c in r.stabilized <==>
                  c in s.stabilized || (c in rules.seeds && exists k: nat :: k < n && plan[k] != [] && c in pending[k]))
            && r.skipped == s.skipped + |Skipped(plan, n)|
  {
    hide AllKnown, AllInside, ApplyClusters, ApplyDecisions;
    if n == 0 {
      NothingApplied(rules, pending, s, plan);
    } else {
      StableMeaning(rules, pending, s, plan, n - 1);
      NextCluster(rules, pending, s, plan, n - 1);
      SkippedStep(plan, n - 1);
    }
  }

  /** The clusters among the first n without any decision. */
  function Skipped(plan: seq<seq<MemberDecision>>, n: nat): set<nat>
    requires n <= |plan|
  {
    set k: nat | k < n && plan[k] == []
  }

  lemma SkippedStep(plan: seq<seq<MemberDecision>>, n: nat)
    requires n < |plan|
    ensures Skipped(plan, n + 1) == Skipped(plan, n) + if plan[n] == [] then {n} else {}
    ensures n !in Skipped(plan, n)
  {
  }

  /** After the decisions the dirty flag is cleared for exactly the stable seeds: those alone in their cluster, and
      those of the pending clusters with decisions. Nothing else of the rows changes. */
  lemma CleanMeaning(t: Tables, ids: set<int>)
    ensures var after := Cleaned(t, ids);
            && after == t.(concepts := after.concepts) && after.concepts.Keys == t.concepts.Keys
            && forall c | c in t.concepts ::
                 && after.concepts[c] == t.concepts[c].(dirty := after.concepts[c].dirty)
                 && (after.concepts[c].dirty <==> t.concepts[c].dirty && c !in ids)
  {
  }

  // ---- a whole run ----

  /** What a run goes by: its seeds, the concepts with recorded progress, the names of the clustered concepts, and the
      tiers of the seeds among them. */
  lemma LoadMeaning(cfg: RunConfig, t: Tables, seeds: set<int>, nodes: set<int>)
    requires nodes <= t.concepts.Keys
    ensures var rules := Load(cfg, t, seeds, nodes);
            && rules.policy == cfg.policy && rules.floor == cfg.floor && rules.seeds == seeds
            && (forall c :: c in rules.mastered <==> exists k :: k in t.mastery && k.concept == c && t.mastery[k])
            && rules.names.Keys == nodes && rules.tiers.Keys == nodes
            && (forall c | c in nodes :: rules.names[c] == t.concepts[c].name)
            && (forall c | c in nodes :: rules.tiers[c] == if c in seeds then t.concepts[c].tier else None)
  {
  }

  /** The state in which a run judges decision i of pending cluster k. */
  function JudgedIn(rules: Rules, pending: seq<set<int>>, s: RunState, plan: seq<seq<MemberDecision>>, k: nat,
                    i: nat): Progress
    requires AllKnown(rules, pending, s.p.t) && AllStayInside(pending, plan) && k < |pending| && i <= |plan[k]|
  {
    var before := ApplyClusters(rules, pending, s, plan, k);
    assert Known(rules, pending[k], before.p.t) && AllInside(pending[k], plan[k]);
    ApplyDecisions(rules, pending[k], before.p.(merged := {}), plan[k][..i])
  }

  /** Every decision of a run that Merges or Relates, in the state it is judged in, makes its merge or its link, and
      these stay in the run's lists in that order; in each cluster the judging starts with nobody merged away. */
  lemma RunDecides(rules: Rules, pending: seq<set<int>>, s: RunState, plan: seq<seq<MemberDecision>>, k: nat, i: nat)
    requires AllKnown(rules, pending, s.p.t) && AllStayInside(pending, plan) && k < |pending| && i < |plan[k]|
    ensures var before, d := JudgedIn(rules, pending, s, plan, k, i), plan[k][i];
            var r := ApplyClusters(rules, pending, s, plan, |pending|).p;
            && (i == 0 ==> before.merged == {})
            && before.merges + (if Merges(rules, before, d) then [Merge(d.own, d.op.value.mergeInto.value)] else [])
                 <= r.merges
            && before.links + (if Relates(rules, before, d) then [RelationOf(d)] else []) <= r.links
  {
    hide *;
    JudgedAt(rules, pending, s, plan, k, i);
    ListsGrow(rules, pending, s, plan, k + 1, |pending|);
  }

  lemma JudgedAt(rules: Rules, pending: seq<set<int>>, s: RunState, plan: seq<seq<MemberDecision>>, k: nat, i: nat)
    requires AllKnown(rules, pending, s.p.t) && AllStayInside(pending, plan) && k < |pending| && i < |plan[k]|
    ensures var before, d := JudgedIn(rules, pending, s, plan, k, i), plan[k][i];
            var r := ApplyClusters(rules, pending, s, plan, k + 1).p;
            && (i == 0 ==> before.merged == {})
            && before.merges + (if Merges(rules, before, d) then [Merge(d.own, d.op.value.mergeInto.value)] else [])
                 <= r.merges
            && before.links + (if Relates(rules, before, d) then [RelationOf(d)] else []) <= r.links
  {
    hide Known, AllInside, Merges, Relates, ApplyDecisions, ApplyDecision, AllStayInside, AllKnown, ApplyClusters;
    NextCluster(rules, pending, s, plan, k);
    var start := ApplyClusters(rules, pending, s, plan, k).p.(merged := {});
    ClusterDecides(rules, pending[k], start, plan[k], i);
  }

  lemma ClusterDecides(rules: Rules, cluster: set<int>, p: Progress, ds: seq<MemberDecision>, i: nat)
    requires Known(rules, cluster, p.t) && AllInside(cluster, ds) && i < |ds|
    ensures AllInside(cluster, ds[..i])
    ensures var before, q := ApplyDecisions(rules, cluster, p, ds[..i]), ApplyDecisions(rules, cluster, p, ds);
            && (i == 0 ==> before == p)
            && before.merges + (if Merges(rules, before, ds[i])
                                then [Merge(ds[i].own, ds[i].op.value.mergeInto.value)] else []) <= q.merges
            && before.links + (if Relates(rules, before, ds[i]) then [RelationOf(ds[i])] else []) <= q.links
  {
    hide Known, StaysInside, Merges, Relates, ApplyDecisions, ApplyDecision;
    DecisionsMeaning(rules, cluster, p, ds, i);
    NoDecisionYet(rules, cluster, p, ds);
  }

  lemma {:induction false} ListsGrow(rules: Rules, pending: seq<set<int>>, s: RunState, plan: seq<seq<MemberDecision>>,
                                     k: nat, n: nat)
    requires AllKnown(rules, pending, s.p.t) && AllStayInside(pending, plan) && k <= n <= |pending|
    ensures var early, late := ApplyClusters(rules, pending, s, plan, k).p, ApplyClusters(rules, pending, s, plan, n).p;
            early.merges <= late.merges && early.links <= late.links
    decreases n
  {
    hide Known, AllInside, ApplyDecisions, ApplyClusters, AllKnown, AllStayInside;
    if k < n {
      ListsGrow(rules, pending, s, plan, k, n - 1);
      NextCluster(rules, pending, s, plan, n - 1);
      var before := ApplyClusters(rules, pending, s, plan, n - 1);
      if plan[n - 1] != [] { DecisionsGrow(rules, pending[n - 1], before.p.(merged := {}), plan[n - 1]); }
    }
  }

  lemma DecisionsGrow(rules: Rules, cluster: set<int>, p: Progress, ds: seq<MemberDecision>)
    requires Known(rules, cluster, p.t) && AllInside(cluster, ds) && ds != []
    ensures var q := ApplyDecisions(rules, cluster, p, ds); p.merges <= q.merges && p.links <= q.links
  {
    hide Known, StaysInside, Merges, Relates, ApplyDecisions;
    DecisionsMeaning(rules, cluster, p, ds, 0);
    NoDecisionYet(rules, cluster, p, ds);
  }
}
