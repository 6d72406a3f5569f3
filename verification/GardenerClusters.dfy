/** Applying the decisions for one cluster: merges, links and tier corrections
    (domain/graph/gardener.py, the decision loop of run_graph_gardener). */
module GardenerClusters {
  import opened Wrappers
  import opened Sequences
  import Text
  import opened GraphTables
  import opened EdgeTable
  import opened GardenerMerge
  import opened GardenerDecisions
  import opened MergeForest

  /** What one run knows before it starts deciding: edge policy, confidence floor, seeds, concepts with learning
      progress, and the tiers and names loaded for the clustered concepts. */
  datatype Rules = Rules(policy: EdgePolicy, floor: real, seeds: set<int>, mastered: set<int>,
                         tiers: map<int, Option<Tier>>, names: map<int, string>)

  /** The tables, the members merged away in this cluster, all merges and links of the run so far, and the tier
      counter. */
  datatype Progress = Progress(t: Tables, merged: set<int>, merges: seq<Merge>, links: seq<EdgeKey>, tierUpdates: nat)

  /** Clustered concepts have rows, and were loaded. */
  ghost predicate Known(rules: Rules, cluster: set<int>, t: Tables) {
    && Ready(rules.policy, t)
    && cluster <= t.concepts.Keys && cluster <= rules.tiers.Keys && cluster <= rules.names.Keys
  }

  function Spaced(relation: string): string {
    if relation == "" then "" else (if relation[0] == '_' then " " else [relation[0]]) + Spaced(relation[1..])
  }

  function LinkEdge(rules: Rules, own: int, target: int, op: Op): Edge
    requires op.Op? && own in rules.names && target in rules.names
  {
    var relation := if op.relation.Some? && op.relation.value != "" then op.relation.value else "related_to";
    Edge(EdgeKey(own, target, relation), rules.names[own] + " " + Spaced(relation) + " " + rules.names[target], [], 1.0)
  }

  function WithLink(policy: EdgePolicy, t: Tables, edge: Edge): Tables
    requires Ready(policy, t)
  {
    var rows := Upsert(policy, Rows(t), edge).0;
    t.(edges := rows.rows, nextEdge := rows.next)
  }

  function Retiered(t: Tables, id: int, tier: Tier): Tables {
    if id in t.concepts then t.(concepts := t.concepts[id := t.concepts[id].(tier := Some(tier))]) else t
  }

  lemma RetierKeeps(t: Tables, id: int, tier: Tier)
    ensures Valid(t) ==> Valid(Retiered(t, id, tier))
    ensures forall c :: IsActive(Retiered(t, id, tier), c) <==> IsActive(t, c)
    ensures Retiered(t, id, tier).edges == t.edges && Retiered(t, id, tier).aliases == t.aliases
  {
    RetierFields(t, id, tier);
    hide RowsAreSound, ConceptKeysHold, ChunkKeysHold, Retiered, IsActive;
    if Valid(t) {
      RetierRows(t, id, tier);
      RetierKeys(t, id, tier);
    }
  }

  lemma RetierFields(t: Tables, id: int, tier: Tier)
    ensures forall c :: IsActive(Retiered(t, id, tier), c) <==> IsActive(t, c)
    ensures Retiered(t, id, tier).edges == t.edges && Retiered(t, id, tier).aliases == t.aliases
  {
  }

  lemma RetierWrites(t: Tables, id: int, tier: Tier)
    ensures OnlyGraphWritten(t, Retiered(t, id, tier)) && OldEdgesStay(t, Retiered(t, id, tier))
  {
  }

  lemma RetierRows(t: Tables, id: int, tier: Tier)
    requires RowsAreSound(t)
    ensures RowsAreSound(Retiered(t, id, tier))
  {
    hide EdgesAreSound;
  }

  lemma RetierKeys(t: Tables, id: int, tier: Tier)
    requires ConceptKeysHold(t) && ChunkKeysHold(t)
    ensures ConceptKeysHold(Retiered(t, id, tier)) && ChunkKeysHold(Retiered(t, id, tier))
  {
  }

  /** The tier correction that follows a link or a merge attempt. */
  function CorrectTier(rules: Rules, cluster: set<int>, p: Progress, own: int, op: Op): (q: Progress)
    requires op.Op? && own in cluster && Known(rules, cluster, p.t)
    ensures Known(rules, cluster, q.t)
  {
    if op.proposedTier.Some? && own !in p.merged && op.proposedTier != rules.tiers[own] then
      RetierKeeps(p.t, own, op.proposedTier.value);
      p.(t := Retiered(p.t, own, op.proposedTier.value), tierUpdates := p.tierUpdates + 1)
    else p
  }

  predicate MayLink(cluster: set<int>, p: Progress, own: int, target: int) {
    target in cluster && own != target && target !in p.merged
  }

  predicate MayMerge(rules: Rules, cluster: set<int>, p: Progress, own: int, target: int) {
    && target != own && target in cluster && target !in p.merged
    && own in rules.seeds && own !in rules.mastered
  }

  function ApplyLink(rules: Rules, cluster: set<int>, p: Progress, own: int, op: Op): (q: Progress)
    requires Known(rules, cluster, p.t) && own in cluster && op.Op? && op.linkTo.Some?
    ensures Known(rules, cluster, q.t)
  {
    if MayLink(cluster, p, own, op.linkTo.value) then
      var edge := LinkEdge(rules, own, op.linkTo.value, op);
      LinkKeeps(rules.policy, p.t, edge);
      p.(t := WithLink(rules.policy, p.t, edge), links := p.links + [edge.key])
    else p
  }

  function ApplyMerge(rules: Rules, cluster: set<int>, p: Progress, own: int, target: int): (q: Progress)
    requires Known(rules, cluster, p.t)
    ensures Known(rules, cluster, q.t)
  {
    if CanMerge(p.t, own, target) then
      MergeMeaning(rules.policy, p.t, own, target);
      p.(t := Merged(rules.policy, p.t, own, target), merged := p.merged + {own},
         merges := p.merges + [Merge(own, target)])
    else p
  }

  /** One decision, as the loop body treats it. */
  function ApplyDecision(rules: Rules, cluster: set<int>, p: Progress, d: MemberDecision): (q: Progress)
    requires Known(rules, cluster, p.t) && StaysInside(cluster, d)
    ensures Known(rules, cluster, q.t)
  {
    hide Known, ApplyLink, ApplyMerge, CorrectTier;
    if d.own in p.merged || d.op == None || d.op.value.confidence < rules.floor then p
    else
      var op := d.op.value;
      if op.kind == LinkOnly then CorrectTier(rules, cluster, ApplyLink(rules, cluster, p, d.own, op), d.own, op)
      else if MayMerge(rules, cluster, p, d.own, op.mergeInto.value) then
        CorrectTier(rules, cluster, ApplyMerge(rules, cluster, p, d.own, op.mergeInto.value), d.own, op)
      else p
  }

  /** A proposed tier is written exactly when its operation reaches the confidence floor, the loop body does not leave
      early on a refused merge, the concept was not merged away, now or before, and the loaded tier differs. */
  lemma TierIsWritten(rules: Rules, cluster: set<int>, p: Progress, d: MemberDecision)
    requires Known(rules, cluster, p.t) && StaysInside(cluster, d)
    ensures var q := ApplyDecision(rules, cluster, p, d);
            q.tierUpdates == p.tierUpdates + (if WritesTier(rules, cluster, p, d) then 1 else 0)
    ensures WritesTier(rules, cluster, p, d) ==>
              var q := ApplyDecision(rules, cluster, p, d);
              d.own in q.t.concepts && q.t.concepts[d.own].tier == d.op.value.proposedTier
  {
    hide Valid, Merged, WithLink, LinkEdge;
  }

  predicate WritesTier(rules: Rules, cluster: set<int>, p: Progress, d: MemberDecision)
    requires StaysInside(cluster, d) && cluster <= rules.tiers.Keys
  {
    && d.own !in p.merged && d.op.Some? && d.op.value.confidence >= rules.floor
    && d.op.value.proposedTier.Some? && d.op.value.proposedTier != rules.tiers[d.own]
    && (d.op.value.kind == MergeInto ==>
          MayMerge(rules, cluster, p, d.own, d.op.value.mergeInto.value) &&
            !CanMerge(p.t, d.own, d.op.value.mergeInto.value))
  }

  /** A link between two existing concepts keeps the tables as the schema promises. */
  lemma LinkKeeps(policy: EdgePolicy, t: Tables, edge: Edge)
    requires Ready(policy, t) && edge.key.src != edge.key.tgt
    requires edge.key.src in t.concepts && edge.key.tgt in t.concepts
    ensures var after := WithLink(policy, t, edge);
            && Valid(after) && t.nextEdge <= after.nextEdge
            && (forall e | e in after.edges && e < t.nextEdge :: e in t.edges && after.edges[e].key == t.edges[e].key)
            && (forall e | e in after.edges ::
                after.edges[e].key == edge.key || (e in t.edges && after.edges[e] == t.edges[e]))
  {
    UpsertMeaning(policy, Rows(t), edge);
    hide Upsert;
  }

  function ApplyDecisions(rules: Rules, cluster: set<int>, p: Progress, ds: seq<MemberDecision>): (q: Progress)
    requires Known(rules, cluster, p.t) && AllInside(cluster, ds)
    ensures Known(rules, cluster, q.t)
  {
    if ds == [] then p
    else ApplyDecision(rules, cluster, ApplyDecisions(rules, cluster, p, ds[..|ds| - 1]), ds[|ds| - 1])
  }

  // ---- what holds after every decision of a run ----

  ghost predicate SameCluster(clusters: seq<set<int>>, a: int, b: int) {
    exists k :: 0 <= k < |clusters| && a in clusters[k] && b in clusters[k]
  }

  ghost predicate IsSafeMerge(rules: Rules, clusters: seq<set<int>>, start: Tables, m: Merge) {
    && m.from in rules.seeds && m.from !in rules.mastered
    && IsActive(start, m.from) && IsActive(start, m.to)
    && SameCluster(clusters, m.from, m.to)
  }

  /** Rows whose id was already issued when the run began were there then, with the same key. */
  ghost predicate OldEdgesStay(start: Tables, t: Tables) {
    && start.nextEdge <= t.nextEdge
    && (forall e | e in t.edges && e < start.nextEdge :: e in start.edges && t.edges[e].key == start.edges[e].key)
  }

  /** Rows with no end among the given concepts are still there, with the same key. */
  ghost predicate RowsKept(t: Tables, after: Tables, retired: set<int>) {
    forall e | e in t.edges && t.edges[e].key.src !in retired && t.edges[e].key.tgt !in retired ::
      e in after.edges && after.edges[e].key == t.edges[e].key
  }

  lemma RowsKeptCompose(a: Tables, b: Tables, c: Tables, before: set<int>, now: set<int>)
    requires RowsKept(a, b, before) && RowsKept(b, c, now)
    ensures RowsKept(a, c, before + now)
  {
  }

  /** Nothing but concepts' flags and tiers, edges, aliases and the merge log is written. */
  ghost predicate OnlyGraphWritten(start: Tables, t: Tables) {
    && t.concepts.Keys == start.concepts.Keys && t.provenance == start.provenance && t.mastery == start.mastery
    && t.studied == start.studied
    && t.documents == start.documents && t.chunks == start.chunks
    && t.rawConcepts == start.rawConcepts && t.rawEdges == start.rawEdges
  }

  /** The state of a run that began with the given tables: its merges form a forest of safe merges, exactly their
      sources were retired, no edge or alias is left on them, every row away from them is kept, and links stay inside
      clusters. */
  ghost predicate Safe(rules: Rules, clusters: seq<set<int>>, start: Tables, p: Progress) {
    && IsForest(p.merges)
    && (forall m | m in p.merges :: IsSafeMerge(rules, clusters, start, m))
    && (forall c :: IsActive(p.t, c) <==> IsActive(start, c) && c !in Sources(p.merges))
    && NoEdgeAt(p.t, Sources(p.merges))
    && (AliasesActive(start) ==> AliasesActive(p.t))
    && (forall l | l in p.links :: l.src != l.tgt && SameCluster(clusters, l.src, l.tgt))
    && OldEdgesStay(start, p.t)
    && RowsKept(start, p.t, Sources(p.merges))
    && OnlyGraphWritten(start, p.t)
  }

  lemma TierKeepsSafe(rules: Rules, clusters: seq<set<int>>, k: nat, start: Tables, p: Progress, own: int, op: Op)
    requires k < |clusters| && Safe(rules, clusters, start, p) && Known(rules, clusters[k], p.t)
    requires op.Op? && own in clusters[k]
    ensures var q := CorrectTier(rules, clusters[k], p, own, op);
            Safe(rules, clusters, start, q) && q.merged == p.merged && q.merges == p.merges
  {
    hide IsForest, Sources, IsSafeMerge, Known, SameCluster, OnlyGraphWritten, OldEdgesStay, Retiered, IsActive,
      RowsKept;
    if op.proposedTier.Some? {
      RetierKeeps(p.t, own, op.proposedTier.value);
      RetierWrites(p.t, own, op.proposedTier.value);
      WritesCompose(start, p.t, Retiered(p.t, own, op.proposedTier.value));
      SameRowsKept(start, p.t, Retiered(p.t, own, op.proposedTier.value), Sources(p.merges));
    }
  }

  lemma SameRowsKept(start: Tables, t: Tables, after: Tables, retired: set<int>)
    requires RowsKept(start, t, retired) && after.edges == t.edges
    ensures RowsKept(start, after, retired)
  {
  }

  lemma LinkWrites(policy: EdgePolicy, t: Tables, edge: Edge, retired: set<int>)
    requires Ready(policy, t) && edge.key.src != edge.key.tgt && edge.key.src in t.concepts
    requires edge.key.tgt in t.concepts
    requires NoEdgeAt(t, retired) && edge.key.src !in retired && edge.key.tgt !in retired
    ensures var after := WithLink(policy, t, edge);
            && NoEdgeAt(after, retired) && OnlyGraphWritten(t, after) && OldEdgesStay(t, after)
            && RowsKept(t, after, {})
            && after.concepts == t.concepts && after.aliases == t.aliases
  {
    hide Valid, Upsert;
    LinkKeeps(policy, t, edge);
    LinkKeepsRows(policy, t, edge);
  }

  lemma LinkKeepsRows(policy: EdgePolicy, t: Tables, edge: Edge)
    requires Ready(policy, t) && edge.key.src != edge.key.tgt
    ensures RowsKept(t, WithLink(policy, t, edge), {})
  {
    UpsertMeaning(policy, Rows(t), edge);
    hide Upsert;
  }

  lemma LinkKeepsSafe(rules: Rules, clusters: seq<set<int>>, k: nat, start: Tables, p: Progress, own: int, op: Op)
    requires k < |clusters| && Safe(rules, clusters, start, p) && Known(rules, clusters[k], p.t)
    requires p.merged == Sources(p.merges) * clusters[k]
    requires own in clusters[k] && own !in p.merged && op.Op? && op.linkTo.Some?
    ensures var q := ApplyLink(rules, clusters[k], p, own, op);
            Safe(rules, clusters, start, q) && q.merged == p.merged && q.merges == p.merges
  {
    if MayLink(clusters[k], p, own, op.linkTo.value) {
      hide WithLink, IsForest, Sources, IsSafeMerge, Valid, NoEdgeAt, OnlyGraphWritten, OldEdgesStay, RowsKept,
        ApplyLink, Safe, IsActive, AliasesActive;
      AppliedLink(rules, clusters[k], p, own, op);
      assert SameCluster(clusters, own, op.linkTo.value);
      LinkIsSafe(rules, clusters, k, start, p, LinkEdge(rules, own, op.linkTo.value, op));
    }
  }

  lemma AppliedLink(rules: Rules, cluster: set<int>, p: Progress, own: int, op: Op)
    requires Known(rules, cluster, p.t) && own in cluster && op.Op? && op.linkTo.Some?
    requires MayLink(cluster, p, own, op.linkTo.value)
    ensures var edge := LinkEdge(rules, own, op.linkTo.value, op);
            ApplyLink(rules, cluster, p, own, op) ==
            p.(t := WithLink(rules.policy, p.t, edge), links := p.links + [edge.key])
  {
    hide WithLink, Valid;
  }

  lemma LinkIsSafe(rules: Rules, clusters: seq<set<int>>, k: nat, start: Tables, p: Progress, edge: Edge)
    requires k < |clusters| && Safe(rules, clusters, start, p) && Known(rules, clusters[k], p.t)
    requires edge.key.src in clusters[k] && edge.key.tgt in clusters[k] && edge.key.src != edge.key.tgt
    requires edge.key.src !in Sources(p.merges) && edge.key.tgt !in Sources(p.merges)
    requires SameCluster(clusters, edge.key.src, edge.key.tgt)
    ensures Safe(rules, clusters, start,
                 p.(t := WithLink(rules.policy, p.t, edge), links := p.links + [edge.key]))
  {
    hide WithLink, IsForest, Sources, IsSafeMerge, Valid, NoEdgeAt, OnlyGraphWritten, OldEdgesStay, RowsKept,
      SameCluster;
    LinkWrites(rules.policy, p.t, edge, Sources(p.merges));
    WritesCompose(start, p.t, WithLink(rules.policy, p.t, edge));
    RowsKeptCompose(start, p.t, WithLink(rules.policy, p.t, edge), Sources(p.merges), {});
    assert Sources(p.merges) + {} == Sources(p.merges);
  }

  lemma AppliedMerge(rules: Rules, cluster: set<int>, p: Progress, own: int, target: int)
    requires Known(rules, cluster, p.t) && CanMerge(p.t, own, target)
    ensures ApplyMerge(rules, cluster, p, own, target) ==
            p.(t := Merged(rules.policy, p.t, own, target), merged := p.merged + {own},
               merges := p.merges + [Merge(own, target)])
  {
    hide Merged, Valid;
  }

  lemma MergeKeepsSafe(rules: Rules, clusters: seq<set<int>>, k: nat, start: Tables, p: Progress, own: int, target: int)
    requires k < |clusters| && Safe(rules, clusters, start, p) && Known(rules, clusters[k], p.t)
    requires p.merged == Sources(p.merges) * clusters[k]
    requires own in clusters[k] && own !in p.merged && MayMerge(rules, clusters[k], p, own, target)
    ensures var q := ApplyMerge(rules, clusters[k], p, own, target);
            && Safe(rules, clusters, start, q) && q.merged == Sources(q.merges) * clusters[k]
            && Sources(q.merges) <= Sources(p.merges) + clusters[k]
  {
    if CanMerge(p.t, own, target) {
      AppliedMerge(rules, clusters[k], p, own, target);
      SourcesAppend(p.merges, Merge(own, target));
      OneMore(Sources(p.merges), clusters[k], own);
      MergeIsSafe(rules, clusters, k, start, p, own, target);
    }
    hide Safe, Known, Sources, Merged, ApplyMerge, CanMerge;
  }

  lemma MergeIsSafe(rules: Rules, clusters: seq<set<int>>, k: nat, start: Tables, p: Progress, own: int, target: int)
    requires k < |clusters| && Safe(rules, clusters, start, p) && Known(rules, clusters[k], p.t)
    requires p.merged == Sources(p.merges) * clusters[k] && CanMerge(p.t, own, target)
    requires own in clusters[k] && own !in p.merged && MayMerge(rules, clusters[k], p, own, target)
    ensures Safe(rules, clusters, start,
                 p.(t := Merged(rules.policy, p.t, own, target), merged := p.merged + {own},
                    merges := p.merges + [Merge(own, target)]))
  {
    hide IsForest, Sources, Merged, Valid, IsSafeMerge, NoEdgeAt, AliasesActive, OldEdgesStay, OnlyGraphWritten,
      SameCluster, RowsKept, IsActive;
    var m := Merge(own, target);
    SourcesAppend(p.merges, m);
    ForestAppend(p.merges, m);
    SafeMergeAppend(rules, clusters, k, start, p, m);
    MergedTables(rules, clusters, start, p, own, target);
  }

  /** What a merge leaves in the tables, relative to the start of the run. */
  lemma MergedTables(rules: Rules, clusters: seq<set<int>>, start: Tables, p: Progress, own: int, target: int)
    requires Safe(rules, clusters, start, p) && Ready(rules.policy, p.t) && CanMerge(p.t, own, target)
    ensures var after := Merged(rules.policy, p.t, own, target);
            && (forall c :: IsActive(after, c) <==> IsActive(start, c) && c !in Sources(p.merges) && c != own)
            && NoEdgeAt(after, Sources(p.merges) + {own})
            && (AliasesActive(start) ==> AliasesActive(after))
            && OldEdgesStay(start, after) && OnlyGraphWritten(start, after)
            && RowsKept(start, after, Sources(p.merges) + {own})
  {
    hide IsForest, Sources, Merged, Valid, IsSafeMerge, NoEdgeAt, AliasesActive, OldEdgesStay, OnlyGraphWritten,
      SameCluster, RowsKept, IsActive, ConceptKeysHold, RowsAreSound, ChunkKeysHold;
    MergeMeaning(rules.policy, p.t, own, target);
    MergeKeepsAliases(rules.policy, p.t, own, target, Sources(p.merges));
    MergeWritesGraph(rules.policy, p.t, own, target);
    WritesCompose(start, p.t, Merged(rules.policy, p.t, own, target));
    MergeKeepsRows(rules.policy, p.t, own, target);
    RowsKeptCompose(start, p.t, Merged(rules.policy, p.t, own, target), Sources(p.merges), {own});
  }

  /** A merge keeps every row that does not touch its source. */
  lemma MergeKeepsRows(policy: EdgePolicy, t: Tables, from: int, to: int)
    requires Ready(policy, t) && CanMerge(t, from, to)
    ensures RowsKept(t, Merged(policy, t, from, to), {from})
  {
    ReadyProper(policy, t);
    MergedEdges(policy, t, from, to);
    hide Repoint, Merged, Mentions, MovedEdges, Valid;
    RepointRows(policy, Rows(t), from, to);
  }

  lemma OneMore(s: set<int>, cluster: set<int>, x: int)
    requires x in cluster
    ensures (s + {x}) * cluster == s * cluster + {x}
  {
  }

  lemma SafeMergeAppend(rules: Rules, clusters: seq<set<int>>, k: nat, start: Tables, p: Progress, m: Merge)
    requires k < |clusters| && Safe(rules, clusters, start, p)
    requires m.from in clusters[k] && MayMerge(rules, clusters[k], p, m.from, m.to) && CanMerge(p.t, m.from, m.to)
    ensures forall n | n in p.merges + [m] :: IsSafeMerge(rules, clusters, start, n)
  {
    assert SameCluster(clusters, m.from, m.to);
    hide IsForest, Sources, NoEdgeAt, AliasesActive, OldEdgesStay, OnlyGraphWritten, SameCluster;
  }

  lemma WritesCompose(start: Tables, t: Tables, after: Tables)
    requires OnlyGraphWritten(start, t) && OnlyGraphWritten(t, after)
    requires OldEdgesStay(start, t) && OldEdgesStay(t, after)
    ensures OnlyGraphWritten(start, after) && OldEdgesStay(start, after)
  {
  }

  lemma MergeWritesGraph(policy: EdgePolicy, t: Tables, from: int, to: int)
    requires Ready(policy, t) && CanMerge(t, from, to)
    ensures OnlyGraphWritten(t, Merged(policy, t, from, to)) && OldEdgesStay(t, Merged(policy, t, from, to))
  {
    hide Repoint, Realiased, AliasNorms, Valid;
    MergeMeaning(policy, t, from, to);
  }

  /** Every decision keeps the run safe, whatever the model replied. */
  lemma DecisionKeepsSafe(rules: Rules, clusters: seq<set<int>>, k: nat, start: Tables, p: Progress, d: MemberDecision)
    requires k < |clusters| && Safe(rules, clusters, start, p) && Known(rules, clusters[k], p.t)
    requires p.merged == Sources(p.merges) * clusters[k] && StaysInside(clusters[k], d)
    ensures var q := ApplyDecision(rules, clusters[k], p, d);
            && Safe(rules, clusters, start, q) && q.merged == Sources(q.merges) * clusters[k] && p.merges <= q.merges
            && Sources(q.merges) <= Sources(p.merges) + clusters[k]
  {
    hide Safe, Known, Sources, ApplyLink, CorrectTier;
    if !(d.own in p.merged || d.op == None || d.op.value.confidence < rules.floor) {
      var op := d.op.value;
      if op.kind == LinkOnly {
        LinkKeepsSafe(rules, clusters, k, start, p, d.own, op);
        TierKeepsSafe(rules, clusters, k, start, ApplyLink(rules, clusters[k], p, d.own, op), d.own, op);
      } else if MayMerge(rules, clusters[k], p, d.own, op.mergeInto.value) {
        MergeKeepsSafe(rules, clusters, k, start, p, d.own, op.mergeInto.value);
        TierKeepsSafe(rules, clusters, k, start, ApplyMerge(rules, clusters[k], p, d.own, op.mergeInto.value), d.own,
                      op);
      }
    }
  }

  lemma {:induction false} DecisionsKeepSafe(rules: Rules, clusters: seq<set<int>>, k: nat, start: Tables, p: Progress,
                                             ds: seq<MemberDecision>)
    requires k < |clusters| && Safe(rules, clusters, start, p) && Known(rules, clusters[k], p.t)
    requires p.merged == Sources(p.merges) * clusters[k]
    requires AllInside(clusters[k], ds)
    ensures var q := ApplyDecisions(rules, clusters[k], p, ds);
            && Safe(rules, clusters, start, q) && q.merged == Sources(q.merges) * clusters[k] && p.merges <= q.merges
            && Sources(q.merges) <= Sources(p.merges) + clusters[k]
  {
    hide Safe, Known, Sources, ApplyDecision, StaysInside;
    if ds != [] {
      var front := ds[..|ds| - 1];
      DecisionsKeepSafe(rules, clusters, k, start, p, front);
      DecisionKeepsSafe(rules, clusters, k, start, ApplyDecisions(rules, clusters[k], p, front), ds[|ds| - 1]);
    }
  }

  // ---- where aliases end up ----

  /** Where an alias starts to be followed from: the last merged concept that lists it, else where it pointed before. */
  ghost function Anchor(names: Text.Names, start: Tables, merges: seq<Merge>, alias: string): Option<int> {
    if merges == [] then (if alias in start.aliases then Some(start.aliases[alias]) else None)
    else
      var from := merges[|merges| - 1].from;
      if from in start.concepts && alias in AliasNorms(names, start.concepts[from].aliases) then Some(from)
      else Anchor(names, start, merges[..|merges| - 1], alias)
  }

  /** Concepts keep their alias lists, merged concepts are inactive, and exactly the aliases with an anchor are mapped:
      to where the merges lead from it. */
  ghost predicate AliasesFollow(names: Text.Names, start: Tables, p: Progress) {
    && p.t.concepts.Keys == start.concepts.Keys
    && (forall c | c in start.concepts :: p.t.concepts[c].aliases == start.concepts[c].aliases)
    && (forall m | m in p.merges :: !IsActive(p.t, m.from))
    && (forall a :: a in p.t.aliases <==> Anchor(names, start, p.merges, a).Some?)
    && (forall a | a in p.t.aliases :: p.t.aliases[a] == Follow(p.merges, Anchor(names, start, p.merges, a).value))
  }

  lemma AnchorAppend(names: Text.Names, start: Tables, merges: seq<Merge>, m: Merge, alias: string)
    ensures Anchor(names, start, merges + [m], alias) ==
            if m.from in start.concepts && alias in AliasNorms(names, start.concepts[m.from].aliases) then Some(m.from)
            else Anchor(names, start, merges, alias)
  {
    hide AliasNorms;
    assert (merges + [m])[..|merges|] == merges;
  }

  lemma MergeKeepsFollow(rules: Rules, cluster: set<int>, start: Tables, p: Progress, own: int, target: int)
    requires Known(rules, cluster, p.t) && AliasesFollow(rules.policy.names, start, p)
    ensures AliasesFollow(rules.policy.names, start, ApplyMerge(rules, cluster, p, own, target))
  {
    if CanMerge(p.t, own, target) {
      hide ApplyMerge, Merged, AliasNorms, Anchor, Follow, Valid, AliasesFollow;
      AppliedMerge(rules, cluster, p, own, target);
      MergedConceptRows(rules.policy, p.t, own, target);
      MergedAliasRows(rules.policy, p.t, own, target);
      MergedActive(rules.policy, p.t, own, target);
      FollowStep(rules.policy.names, start, p, ApplyMerge(rules, cluster, p, own, target), Merge(own, target));
    }
  }

  /** Aliases follow through a merge, given what it does to the rows. */
  lemma FollowStep(names: Text.Names, start: Tables, p: Progress, q: Progress, m: Merge)
    requires AliasesFollow(names, start, p) && q.merges == p.merges + [m] && IsActive(p.t, m.from)
    requires q.t.concepts.Keys == p.t.concepts.Keys
    requires forall c | c in p.t.concepts :: q.t.concepts[c].aliases == p.t.concepts[c].aliases
    requires forall c :: IsActive(q.t, c) <==> IsActive(p.t, c) && c != m.from
    requires var norms := AliasNorms(names, p.t.concepts[m.from].aliases);
             && (forall a :: a in q.t.aliases <==> a in p.t.aliases || a in norms)
             && (forall a | a in q.t.aliases ::
                   q.t.aliases[a] == if a in norms || p.t.aliases[a] == m.from then m.to else p.t.aliases[a])
    ensures AliasesFollow(names, start, q)
  {
    hide AliasNorms, Anchor, Follow;
    FollowUntouched(p.merges, m.from);
    AllAliasesStep(names, start, p, q, m);
    assert forall n | n in q.merges :: n in p.merges || n == m;
  }

  lemma AllAliasesStep(names: Text.Names, start: Tables, p: Progress, q: Progress, m: Merge)
    requires q.merges == p.merges + [m] && m.from in start.concepts && Follow(p.merges, m.from) == m.from
    requires AliasesFollow(names, start, p)
    requires var norms := AliasNorms(names, start.concepts[m.from].aliases);
             && (forall a :: a in q.t.aliases <==> a in p.t.aliases || a in norms)
             && (forall a | a in q.t.aliases ::
                   q.t.aliases[a] == if a in norms || p.t.aliases[a] == m.from then m.to else p.t.aliases[a])
    ensures forall a :: a in q.t.aliases <==> Anchor(names, start, q.merges, a).Some?
    ensures forall a | a in q.t.aliases :: q.t.aliases[a] == Follow(q.merges, Anchor(names, start, q.merges, a).value)
  {
    hide AliasNorms, Anchor, Follow, IsActive;
    forall a
      ensures a in q.t.aliases <==> Anchor(names, start, q.merges, a).Some?
      ensures a in q.t.aliases ==> q.t.aliases[a] == Follow(q.merges, Anchor(names, start, q.merges, a).value)
    {
      AliasStep(names, start, p, q, m, a);
    }
  }

  lemma AliasStep(names: Text.Names, start: Tables, p: Progress, q: Progress, m: Merge, a: string)
    requires q.merges == p.merges + [m] && m.from in start.concepts && Follow(p.merges, m.from) == m.from
    requires a in p.t.aliases <==> Anchor(names, start, p.merges, a).Some?
    requires a in p.t.aliases ==> p.t.aliases[a] == Follow(p.merges, Anchor(names, start, p.merges, a).value)
    requires var norms := AliasNorms(names, start.concepts[m.from].aliases);
             && (a in q.t.aliases <==> a in p.t.aliases || a in norms)
             && (a in q.t.aliases ==>
                 q.t.aliases[a] ==
                 if a in norms || p.t.aliases[a] == m.from then m.to else p.t.aliases[a])
    ensures a in q.t.aliases <==> Anchor(names, start, q.merges, a).Some?
    ensures a in q.t.aliases ==> q.t.aliases[a] == Follow(q.merges, Anchor(names, start, q.merges, a).value)
  {
    AnchorAppend(names, start, p.merges, m, a);
    FollowAppend(p.merges, m, m.from);
    var old_ := Anchor(names, start, p.merges, a);
    if old_.Some? { FollowAppend(p.merges, m, old_.value); }
    hide Anchor, Follow, AliasNorms;
  }

  lemma MergedActive(policy: EdgePolicy, t: Tables, from: int, to: int)
    requires Ready(policy, t) && CanMerge(t, from, to)
    ensures forall c :: IsActive(Merged(policy, t, from, to), c) <==> IsActive(t, c) && c != from
  {
    hide Merged, Valid;
    MergeMeaning(policy, t, from, to);
  }

  lemma MergedConceptRows(policy: EdgePolicy, t: Tables, from: int, to: int)
    requires Ready(policy, t) && CanMerge(t, from, to)
    ensures Merged(policy, t, from, to).concepts.Keys == t.concepts.Keys
    ensures forall c | c in t.concepts :: Merged(policy, t, from, to).concepts[c].aliases == t.concepts[c].aliases
  {
    hide Repoint, Realiased, AliasNorms, Valid;
    MergeMeaning(policy, t, from, to);
  }

  lemma MergedAliasRows(policy: EdgePolicy, t: Tables, from: int, to: int)
    requires Ready(policy, t) && CanMerge(t, from, to)
    ensures var after, norms := Merged(policy, t, from, to), AliasNorms(policy.names, t.concepts[from].aliases);
            && (forall a :: a in after.aliases <==> a in t.aliases || a in norms)
            && (forall a | a in after.aliases ::
                  after.aliases[a] == if a in norms || t.aliases[a] == from then to else t.aliases[a])
  {
    hide Repoint, AliasNorms, Valid;
  }

  lemma DecisionKeepsFollow(rules: Rules, cluster: set<int>, start: Tables, p: Progress, d: MemberDecision)
    requires Known(rules, cluster, p.t) && StaysInside(cluster, d) && AliasesFollow(rules.policy.names, start, p)
    ensures AliasesFollow(rules.policy.names, start, ApplyDecision(rules, cluster, p, d))
  {
    hide Known, AliasesFollow, ApplyMerge, ApplyLink, CorrectTier;
    if !(d.own in p.merged || d.op == None || d.op.value.confidence < rules.floor) {
      var op := d.op.value;
      if op.kind == LinkOnly {
        LinkKeepsFollow(rules, cluster, start, p, d.own, op);
        TierKeepsFollow(rules, cluster, start, ApplyLink(rules, cluster, p, d.own, op), d.own, op);
      } else if MayMerge(rules, cluster, p, d.own, op.mergeInto.value) {
        MergeKeepsFollow(rules, cluster, start, p, d.own, op.mergeInto.value);
        TierKeepsFollow(rules, cluster, start, ApplyMerge(rules, cluster, p, d.own, op.mergeInto.value), d.own, op);
      }
    }
  }

  lemma LinkKeepsFollow(rules: Rules, cluster: set<int>, start: Tables, p: Progress, own: int, op: Op)
    requires Known(rules, cluster, p.t) && own in cluster && op.Op? && op.linkTo.Some?
    requires AliasesFollow(rules.policy.names, start, p)
    ensures AliasesFollow(rules.policy.names, start, ApplyLink(rules, cluster, p, own, op))
  {
    hide Known, Anchor, Follow, ApplyLink;
    LinkKeepsConcepts(rules, cluster, p, own, op);
  }

  lemma LinkKeepsConcepts(rules: Rules, cluster: set<int>, p: Progress, own: int, op: Op)
    requires Known(rules, cluster, p.t) && own in cluster && op.Op? && op.linkTo.Some?
    ensures var q := ApplyLink(rules, cluster, p, own, op);
            q.t.concepts == p.t.concepts && q.t.aliases == p.t.aliases && q.merges == p.merges
  {
    hide Upsert, LinkEdge, Valid;
  }

  lemma TierKeepsFollow(rules: Rules, cluster: set<int>, start: Tables, p: Progress, own: int, op: Op)
    requires op.Op? && own in cluster && Known(rules, cluster, p.t) && AliasesFollow(rules.policy.names, start, p)
    ensures AliasesFollow(rules.policy.names, start, CorrectTier(rules, cluster, p, own, op))
  {
    hide Known, Anchor, Follow;
  }

  lemma {:induction false} DecisionsKeepFollow(rules: Rules, cluster: set<int>, start: Tables, p: Progress,
                                               ds: seq<MemberDecision>)
    requires Known(rules, cluster, p.t) && AllInside(cluster, ds) && AliasesFollow(rules.policy.names, start, p)
    ensures AliasesFollow(rules.policy.names, start, ApplyDecisions(rules, cluster, p, ds))
  {
    hide Known, AliasesFollow, ApplyDecision, StaysInside;
    if ds != [] {
      DecisionsKeepFollow(rules, cluster, start, p, ds[..|ds| - 1]);
      DecisionKeepsFollow(rules, cluster, start, ApplyDecisions(rules, cluster, p, ds[..|ds| - 1]), ds[|ds| - 1]);
    }
  }

  lemma ApplyDecisionsAppend(rules: Rules, cluster: set<int>, p: Progress, ds: seq<MemberDecision>, d: MemberDecision)
    requires Known(rules, cluster, p.t) && StaysInside(cluster, d) && AllInside(cluster, ds)
    ensures ApplyDecisions(rules, cluster, p, ds + [d]) ==
              ApplyDecision(rules, cluster, ApplyDecisions(rules, cluster, p, ds), d)
  {
    hide Known, StaysInside, ApplyDecision;
    assert (ds + [d])[..|ds|] == ds;
  }

  /** upsert_canonical_edge on the session. */
  method WriteLink(db: Session, policy: EdgePolicy, edge: Edge)
    requires Ready(policy, db.tables)
    modifies db
    ensures db.tables == WithLink(policy, old(db.tables), edge)
  {
    var (rows, _) := Upsert(policy, Rows(db.tables), edge);
    db.tables := db.tables.(edges := rows.rows, nextEdge := rows.next);
  }

  /** The body of the decision loop, leaving early where the source continues. */
  method Decide(db: Session, rules: Rules, cluster: set<int>, p: Progress, d: MemberDecision) returns (q: Progress)
    requires db.tables == p.t && Known(rules, cluster, p.t) && StaysInside(cluster, d)
    modifies db
    ensures q == ApplyDecision(rules, cluster, p, d) && db.tables == q.t
  {
    hide WithLink, Merged, Retiered, LinkEdge, Valid, SameCluster;
    q := p;
    if d.own in p.merged || d.op == None {
      return;
    }
    var op := d.op.value;
    if op.confidence < rules.floor {
      return;
    }
    if op.kind == LinkOnly {
      var target := op.linkTo.value;
      if target in cluster && d.own != target && target !in p.merged {
        var edge := LinkEdge(rules, d.own, target, op);
        WriteLink(db, rules.policy, edge);
        q := q.(t := db.tables, links := q.links + [edge.key]);
      }
    } else if op.kind == MergeInto {
      var target := op.mergeInto.value;
      if target == d.own || target !in cluster || target in p.merged || d.own !in rules.seeds ||
         d.own in rules.mastered {
        return;
      }
      var applied := ExecuteMerge(db, rules.policy, d.own, target);
      if applied {
        q := q.(t := db.tables, merged := q.merged + {d.own}, merges := q.merges + [Merge(d.own, target)]);
      }
    }
    if op.proposedTier.Some? && d.own !in q.merged && op.proposedTier != rules.tiers[d.own] {
      db.tables := Retiered(db.tables, d.own, op.proposedTier.value);
      q := q.(t := db.tables, tierUpdates := q.tierUpdates + 1);
    }
  }

  /** The decision loop for one cluster. */
  method ProcessCluster(db: Session, rules: Rules, cluster: set<int>, ds: seq<MemberDecision>, start: Progress)
    returns (p: Progress)
    requires db.tables == start.t
    requires Known(rules, cluster, start.t) && AllInside(cluster, ds)
    modifies db
    ensures p == ApplyDecisions(rules, cluster, start, ds) && db.tables == p.t
  {
    p := start;
    assert ApplyDecisions(rules, cluster, start, []) == start;
    hide Known, StaysInside, ApplyDecision, ApplyDecisions;
    for i := 0 to |ds|
      invariant db.tables == p.t
      invariant p == ApplyDecisions(rules, cluster, start, ds[..i])
    {
      SplitAt(ds, i);
      ApplyDecisionsAppend(rules, cluster, start, ds[..i], ds[i]);
      p := Decide(db, rules, cluster, p, ds[i]);
    }
    assert ds[..|ds|] == ds;
  }
}
