/** What the gardener's decisions do, said of the rules, the decision and the tables alone
    (domain/graph/gardener.py). */
module GardenerMeaning {
  import opened Wrappers
  import opened Sequences
  import opened GraphTables
  import opened EdgeTable
  import opened GardenerMerge
  import opened GardenerDecisions
  import opened GardenerClusters
  import opened MergeForest

  // ---- one decision ----

  /** The decision reaches the floor and concerns a member that was not merged away. */
  predicate Counts(rules: Rules, p: Progress, d: MemberDecision) {
    d.own !in p.merged && d.op.Some? && d.op.value.Op? && d.op.value.confidence >= rules.floor
  }

  /** The member is an unmastered seed, the target was not merged away in this cluster, and both are active. */
  predicate Merges(rules: Rules, p: Progress, d: MemberDecision) {
    && Counts(rules, p, d) && d.op.value.kind == MergeInto && d.op.value.mergeInto.Some?
    && d.op.value.mergeInto.value !in p.merged && d.own in rules.seeds && d.own !in rules.mastered
    && IsActive(p.t, d.own) && IsActive(p.t, d.op.value.mergeInto.value)
  }

  /** The target was not merged away in this cluster. */
  predicate Relates(rules: Rules, p: Progress, d: MemberDecision) {
    && Counts(rules, p, d) && d.op.value.kind == LinkOnly && d.op.value.linkTo.Some?
    && d.op.value.linkTo.value !in p.merged
  }

  /** From the member to the target, under the given relation or the default one. */
  function RelationOf(d: MemberDecision): EdgeKey
    requires d.op.Some? && d.op.value.Op? && d.op.value.linkTo.Some?
  {
    var given := d.op.value.relation;
    EdgeKey(d.own, d.op.value.linkTo.value, if given.Some? && given.value != "" then given.value else "related_to")
  }

  /** A decision that does not count changes nothing. One that counts merges its member exactly when Merges, links it
      exactly when Relates, and does neither otherwise. */
  lemma DecisionMeaning(rules: Rules, cluster: set<int>, p: Progress, d: MemberDecision)
    requires Known(rules, cluster, p.t) && StaysInside(cluster, d)
    ensures var q := ApplyDecision(rules, cluster, p, d);
            && (!Counts(rules, p, d) ==> q == p)
            && q.merges == (if Merges(rules, p, d) then p.merges + [Merge(d.own, d.op.value.mergeInto.value)]
                            else p.merges)
            && q.merged == (if Merges(rules, p, d) then p.merged + {d.own} else p.merged)
            && q.links == (if Relates(rules, p, d) then p.links + [RelationOf(d)] else p.links)
  {
    hide Merged, WithLink, Retiered, Valid, Spaced;
  }

  /** What that does to the tables: a merge retires the member, a link writes its row, and nothing else is retired,
      removed, inserted or re-keyed. */
  lemma DecisionWrites(rules: Rules, cluster: set<int>, p: Progress, d: MemberDecision)
    requires Known(rules, cluster, p.t) && StaysInside(cluster, d)
    ensures var t := ApplyDecision(rules, cluster, p, d).t;
            && (forall c :: IsActive(t, c) <==> IsActive(p.t, c) && !(Merges(rules, p, d) && c == d.own))
            && (!Merges(rules, p, d) ==>
                  && t.aliases == p.t.aliases && t.mergeLog == p.t.mergeLog
                  && (forall key :: Has(t.edges, key) <==>
                        Has(p.t.edges, key) || (Relates(rules, p, d) && key == RelationOf(d)))
                  && (!Relates(rules, p, d) ==> t.edges == p.t.edges))
  {
    if Counts(rules, p, d) {
      var op := d.op.value;
      hide Merged, WithLink, Retiered, Valid, Spaced, Known, CanMerge;
      if op.kind == LinkOnly {
        if op.linkTo.value !in p.merged { LinkedRows(rules, cluster, p, d); }
        TierWrites(rules, cluster, ApplyLink(rules, cluster, p, d.own, op), d.own, op);
      } else if MayMerge(rules, cluster, p, d.own, op.mergeInto.value) {
        MergeWrites(rules, cluster, p, d);
        TierWrites(rules, cluster, ApplyMerge(rules, cluster, p, d.own, op.mergeInto.value), d.own, op);
      }
    }
  }

  lemma TierWrites(rules: Rules, cluster: set<int>, p: Progress, own: int, op: Op)
    requires op.Op? && own in cluster && Known(rules, cluster, p.t)
    ensures var t := CorrectTier(rules, cluster, p, own, op).t;
            && (forall c :: IsActive(t, c) <==> IsActive(p.t, c))
            && t.edges == p.t.edges && t.aliases == p.t.aliases && t.mergeLog == p.t.mergeLog
  {
    hide Valid;
  }

  lemma LinkedRows(rules: Rules, cluster: set<int>, p: Progress, d: MemberDecision)
    requires Known(rules, cluster, p.t) && StaysInside(cluster, d) && Relates(rules, p, d)
    ensures var t := ApplyLink(rules, cluster, p, d.own, d.op.value).t;
            && t.concepts == p.t.concepts && t.aliases == p.t.aliases && t.mergeLog == p.t.mergeLog
            && (forall key :: Has(t.edges, key) <==> Has(p.t.edges, key) || key == RelationOf(d))
  {
    AppliedLink(rules, cluster, p, d.own, d.op.value);
    var edge := LinkEdge(rules, d.own, d.op.value.linkTo.value, d.op.value);
    assert edge.key == RelationOf(d);
    RowUpserted(rules.policy, p.t, edge);
    hide Known, LinkEdge, Has, Relates;
  }

  lemma RowUpserted(policy: EdgePolicy, t: Tables, edge: Edge)
    requires Ready(policy, t) && edge.key.src != edge.key.tgt
    ensures var after := WithLink(policy, t, edge);
            && after.concepts == t.concepts && after.aliases == t.aliases && after.mergeLog == t.mergeLog
            && (forall key :: Has(after.edges, key) <==> Has(t.edges, key) || key == edge.key)
  {
    ReadyProper(policy, t);
    hide Valid, Has, Upsert;
    forall key ensures Has(WithLink(policy, t, edge).edges, key) <==> Has(t.edges, key) || key == edge.key {
      UpsertWeight(policy, Rows(t), edge, key);
    }
  }

  lemma MergeWrites(rules: Rules, cluster: set<int>, p: Progress, d: MemberDecision)
    requires Known(rules, cluster, p.t) && StaysInside(cluster, d) && Counts(rules, p, d)
    requires d.op.value.kind == MergeInto
    requires MayMerge(rules, cluster, p, d.own, d.op.value.mergeInto.value)
    ensures var t := ApplyMerge(rules, cluster, p, d.own, d.op.value.mergeInto.value).t;
            && (forall c :: IsActive(t, c) <==> IsActive(p.t, c) && !(Merges(rules, p, d) && c == d.own))
            && (!Merges(rules, p, d) ==> t == p.t)
  {
    var target := d.op.value.mergeInto.value;
    if CanMerge(p.t, d.own, target) { MergeMeaning(rules.policy, p.t, d.own, target); }
    hide Merged, Valid;
  }

  /** The edge of a link: from the member to the target, described by their names around the relation with blanks for
      its underscores, without keywords and of weight one. */
  ghost predicate IsLinkEdge(rules: Rules, d: MemberDecision, edge: Edge)
    requires d.op.Some? && d.op.value.Op? && d.op.value.linkTo.Some?
    requires d.own in rules.names && d.op.value.linkTo.value in rules.names
  {
    && edge.key == RelationOf(d) && edge.keywords == [] && edge.weight == 1.0
    && exists words :: IsSpaced(edge.key.relation, words) &&
         edge.description == rules.names[d.own] + " " + words + " " + rules.names[d.op.value.linkTo.value]
  }

  predicate IsSpaced(relation: string, words: string) {
    |words| == |relation| &&
    forall i | 0 <= i < |words| :: words[i] == if relation[i] == '_' then ' ' else relation[i]
  }

  /** A decision that relates upserts that edge, and one that merges executes that merge: nothing else is written to
      edges, aliases or the log. */
  lemma DecisionTables(rules: Rules, cluster: set<int>, p: Progress, d: MemberDecision)
    requires Known(rules, cluster, p.t) && StaysInside(cluster, d)
    ensures Ready(rules.policy, p.t)
    ensures Relates(rules, p, d) ==>
              && d.own in rules.names && d.op.value.linkTo.value in rules.names
              && var t := ApplyDecision(rules, cluster, p, d).t;
                 exists edge :: IsLinkEdge(rules, d, edge) &&
                   EdgeRows(t.edges, t.nextEdge) == Upsert(rules.policy, EdgeRows(p.t.edges, p.t.nextEdge), edge).0
    ensures Merges(rules, p, d) ==>
              && CanMerge(p.t, d.own, d.op.value.mergeInto.value)
              && ApplyDecision(rules, cluster, p, d).t == Merged(rules.policy, p.t, d.own, d.op.value.mergeInto.value)
  {
    if Relates(rules, p, d) {
      LinkUpserted(rules, cluster, p, d);
    } else if Merges(rules, p, d) {
      hide Merged, Valid, Retiered;
      AppliedMerge(rules, cluster, p, d.own, d.op.value.mergeInto.value);
    }
  }

  lemma LinkUpserted(rules: Rules, cluster: set<int>, p: Progress, d: MemberDecision)
    requires Known(rules, cluster, p.t) && StaysInside(cluster, d) && Relates(rules, p, d)
    ensures d.own in rules.names && d.op.value.linkTo.value in rules.names
    ensures var t := ApplyDecision(rules, cluster, p, d).t;
            exists edge :: IsLinkEdge(rules, d, edge) &&
              EdgeRows(t.edges, t.nextEdge) == Upsert(rules.policy, EdgeRows(p.t.edges, p.t.nextEdge), edge).0
  {
    var op := d.op.value;
    var edge := LinkEdge(rules, d.own, op.linkTo.value, op);
    SpacedMeaning(edge.key.relation);
    AppliedLink(rules, cluster, p, d.own, op);
    assert IsLinkEdge(rules, d, edge);
    hide LinkEdge, Valid, Upsert, Spaced, IsLinkEdge, RelationOf;
    TierWrites(rules, cluster, ApplyLink(rules, cluster, p, d.own, op), d.own, op);
    TierKeepsNext(rules, cluster, ApplyLink(rules, cluster, p, d.own, op), d.own, op);
  }

  lemma TierKeepsNext(rules: Rules, cluster: set<int>, p: Progress, own: int, op: Op)
    requires op.Op? && own in cluster && Known(rules, cluster, p.t)
    ensures CorrectTier(rules, cluster, p, own, op).t.nextEdge == p.t.nextEdge
  {
    hide Valid;
  }

  lemma {:induction false} SpacedMeaning(relation: string)
    ensures IsSpaced(relation, Spaced(relation))
  {
    if relation != "" { SpacedMeaning(relation[1..]); }
  }

  /** A proposed tier is written exactly when its decision counts, does not merge its member, and is not a merge that
      the rules exclude, and the tier differs from the loaded one. */
  lemma TierMeaning(rules: Rules, cluster: set<int>, p: Progress, d: MemberDecision)
    requires Known(rules, cluster, p.t) && StaysInside(cluster, d)
    ensures var q := ApplyDecision(rules, cluster, p, d);
            var writes := && Counts(rules, p, d)
                          && d.op.value.proposedTier.Some? && d.op.value.proposedTier != rules.tiers[d.own]
                          && (d.op.value.kind == MergeInto ==>
                                && d.op.value.mergeInto.value !in p.merged && d.own in rules.seeds
                                && d.own !in rules.mastered
                                && !(IsActive(p.t, d.own) && IsActive(p.t, d.op.value.mergeInto.value)));
            && q.tierUpdates == p.tierUpdates + (if writes then 1 else 0)
            && (writes ==>
                  && d.own in p.t.concepts
                  && q.t.concepts == p.t.concepts[d.own := p.t.concepts[d.own].(tier := d.op.value.proposedTier)])
            && (!writes && !Merges(rules, p, d) ==> q.t.concepts == p.t.concepts)
  {
    hide Merged, WithLink, LinkEdge, Valid;
    if Counts(rules, p, d) && Relates(rules, p, d) { LinkedRows(rules, cluster, p, d); }
  }

  // ---- a list of decisions ----

  /** The merges and links of a list of decisions are exactly those its decisions make, in order, each judged by what
      the ones before it left. */
  lemma {:induction false} DecisionsMeaning(rules: Rules, cluster: set<int>, p: Progress, ds: seq<MemberDecision>,
                                            i: nat)
    requires Known(rules, cluster, p.t) && AllInside(cluster, ds) && i < |ds|
    ensures var before := ApplyDecisions(rules, cluster, p, ds[..i]);
            var after := ApplyDecisions(rules, cluster, p, ds[..i + 1]);
            var all := ApplyDecisions(rules, cluster, p, ds);
            && after.merges == (if Merges(rules, before, ds[i])
                                then before.merges + [Merge(ds[i].own, ds[i].op.value.mergeInto.value)]
                                else before.merges)
            && after.links == (if Relates(rules, before, ds[i]) then before.links + [RelationOf(ds[i])]
                               else before.links)
            && after.merges <= all.merges && after.links <= all.links
    decreases |ds| - i
  {
    hide Known, StaysInside, ApplyDecision, Merges, Relates;
    SplitAt(ds, i);
    ApplyDecisionsAppend(rules, cluster, p, ds[..i], ds[i]);
    DecisionMeaning(rules, cluster, ApplyDecisions(rules, cluster, p, ds[..i]), ds[i]);
    if i + 1 < |ds| {
      DecisionsMeaning(rules, cluster, p, ds, i + 1);
    } else {
      assert ds[..i + 1] == ds;
    }
    hide ApplyDecisions;
  }

  /** Before the first decision there is nothing to judge it by but the start. */
  lemma NoDecisionYet(rules: Rules, cluster: set<int>, p: Progress, ds: seq<MemberDecision>)
    requires Known(rules, cluster, p.t) && AllInside(cluster, ds)
    ensures ApplyDecisions(rules, cluster, p, ds[..0]) == p
  {
    assert ds[..0] == [];
  }
}
