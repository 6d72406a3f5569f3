/** Merging one canonical concept into another (domain/graph/gardener.py _execute_merge,
    adapters/db/graph/merge_map.py). */
module GardenerMerge {
  import opened Wrappers
  import opened Sequences
  import opened Text
  import opened GraphTables
  import opened EdgeTable

  function Rows(t: Tables): EdgeRows { EdgeRows(t.edges, t.nextEdge) }

  /** The tables are as the schema promises and edge weights are capped by a non-negative bound. */
  ghost predicate Ready(policy: EdgePolicy, t: Tables) { Valid(t) && policy.weightCap >= 0.0 }

  /** The non-empty normal forms of a concept's aliases. */
  function AliasNorms(names: Names, aliases: seq<string>): set<string> { names.NormSet(aliases) - {""} }

  /** The alias map after a merge: the source's rows and all its aliases point at the target. */
  function Realiased(aliases: map<string, int>, norms: set<string>, from: int, to: int): map<string, int> {
    map a | a in aliases.Keys + norms :: if a in norms || aliases[a] == from then to else aliases[a]
  }

  /** The more general known tier of the two. */
  function MergedTier(source: Option<Tier>, target: Option<Tier>): Option<Tier> {
    if TierRank(source) > 0 && (TierRank(target) == 0 || TierRank(source) < TierRank(target)) then source else target
  }

  predicate CanMerge(t: Tables, from: int, to: int) { from != to && IsActive(t, from) && IsActive(t, to) }

  /** The tables after a merge. */
  function Merged(policy: EdgePolicy, t: Tables, from: int, to: int): Tables
    requires Ready(policy, t) && CanMerge(t, from, to)
  {
    var source, target := t.concepts[from], t.concepts[to];
    var edges := Repoint(policy, Rows(t), from, to);
    t.(mergeLog := t.mergeLog + {(from, to)},
       edges := edges.rows,
       nextEdge := edges.next,
       aliases := Realiased(t.aliases, AliasNorms(policy.names, source.aliases), from, to),
       concepts := t.concepts[to := target.(tier := MergedTier(source.tier, target.tier), dirty := false)]
                             [from := source.(active := false, dirty := false)])
  }

  /** repoint_alias_map */
  function RepointAliasMap(aliases: map<string, int>, from: int, to: int): map<string, int> {
    map a | a in aliases :: if aliases[a] == from then to else aliases[a]
  }

  function WithAliases(m: map<string, int>, norms: set<string>, concept: int): map<string, int> {
    m + map a | a in norms :: concept
  }

  lemma AliasNormsAppend(names: Names, aliases: seq<string>, alias: string)
    ensures AliasNorms(names, aliases + [alias]) ==
            AliasNorms(names, aliases) + if names.Normalize(alias) == "" then {} else {names.Normalize(alias)}
    ensures AliasNorms(names, []) == {}
  {
    names.NormSetAppend(aliases, alias);
  }

  lemma WithOneMore(m: map<string, int>, norms: set<string>, alias: string, concept: int)
    ensures WithAliases(m, norms + {alias}, concept) == WithAliases(m, norms, concept)[alias := concept]
    ensures WithAliases(m, {}, concept) == m
  {
  }

  /** ensure_aliases_map_to_concept */
  method EnsureAliases(names: Names, start: map<string, int>, aliases: seq<string>, concept: int)
    returns (m: map<string, int>)
    ensures m == WithAliases(start, AliasNorms(names, aliases), concept)
  {
    hide AliasNorms, WithAliases;
    m := start;
    var seen: set<string> := {};
    AliasNormsAppend(names, [], "");
    WithOneMore(start, {}, "", concept);
    for i := 0 to |aliases|
      invariant seen == AliasNorms(names, aliases[..i])
      invariant m == WithAliases(start, seen, concept)
    {
      var alias := names.Normalize(aliases[i]);
      SplitAt(aliases, i);
      AliasNormsAppend(names, aliases[..i], aliases[i]);
      if alias == "" || alias in seen {
        continue;
      }
      WithOneMore(start, seen, alias, concept);
      seen := seen + {alias};
      m := m[alias := concept];
    }
    assert aliases[..|aliases|] == aliases;
  }

  lemma RealiasedSteps(aliases: map<string, int>, norms: set<string>, from: int, to: int)
    ensures WithAliases(RepointAliasMap(aliases, from, to), norms, to) == Realiased(aliases, norms, from, to)
  {
  }

  /** _execute_merge: refuses unless both concepts exist and are active; reports whether it merged. */
  method ExecuteMerge(db: Session, policy: EdgePolicy, from: int, to: int) returns (merged: bool)
    requires Ready(policy, db.tables)
    modifies db
    ensures merged == CanMerge(old(db.tables), from, to)
    ensures db.tables == if merged then Merged(policy, old(db.tables), from, to) else old(db.tables)
  {
    hide Merged, Repoint, Realiased, AliasNorms, RepointAliasMap, WithAliases, Touching, ChunkKeysHold, ConceptKeysHold;
    var t := db.tables;
    if from == to {
      return false;
    }
    if from !in t.concepts || to !in t.concepts || !t.concepts[from].active || !t.concepts[to].active {
      return false;
    }
    var source, target := t.concepts[from], t.concepts[to];
    var logged := (from, to) !in db.tables.mergeLog;
    db.tables := db.tables.(mergeLog := db.tables.mergeLog + {(from, to)});
    var edges, _ := RepointEdges(policy, Rows(t), from, to);
    db.tables := db.tables.(edges := edges.rows, nextEdge := edges.next);
    var aliases := RepointAliasMap(db.tables.aliases, from, to);
    aliases := EnsureAliases(policy.names, aliases, source.aliases, to);
    RealiasedSteps(t.aliases, AliasNorms(policy.names, source.aliases), from, to);
    db.tables := db.tables.(aliases := aliases);
    var srcRank, tgtRank := TierRank(source.tier), TierRank(target.tier);
    if srcRank > 0 && (tgtRank == 0 || srcRank < tgtRank) {
      db.tables := db.tables.(concepts := db.tables.concepts[to := db.tables.concepts[to].(tier := source.tier)]);
    }
    var deactivated := db.tables.concepts[from].active;
    var retired := db.tables.concepts[from].(active := false, dirty := false);
    db.tables := db.tables.(concepts := db.tables.concepts[from := retired]);
    db.tables := db.tables.(concepts := db.tables.concepts[to := db.tables.concepts[to].(dirty := false)]);
    MergedIs(policy, t, from, to, edges);
    return logged || deactivated;
  }

  lemma MergedIs(policy: EdgePolicy, t: Tables, from: int, to: int, edges: EdgeRows)
    requires Ready(policy, t) && CanMerge(t, from, to) && edges == Repoint(policy, Rows(t), from, to)
    ensures var source, target := t.concepts[from], t.concepts[to];
            Merged(policy, t, from, to) ==
            t.(mergeLog := t.mergeLog + {(from, to)}, edges := edges.rows, nextEdge := edges.next,
               aliases := Realiased(t.aliases, AliasNorms(policy.names, source.aliases), from, to),
               concepts := t.concepts[to := target.(tier := MergedTier(source.tier, target.tier))]
                                     [from := source.(active := false, dirty := false)]
                                     [to := target.(tier := MergedTier(source.tier, target.tier), dirty := false)])
  {
    hide Repoint, Realiased, AliasNorms, MergedTier, Valid;
    assert Merged(policy, t, from, to).concepts.Keys == t.concepts.Keys;
  }

  /** No edge has an end among the given concepts. */
  ghost predicate NoEdgeAt(t: Tables, ids: set<int>) {
    forall e | e in t.edges :: t.edges[e].key.src !in ids && t.edges[e].key.tgt !in ids
  }

  /** A merge keeps the schema constraints, retires exactly the source, and leaves no edge and no alias on it. */
  lemma MergeMeaning(policy: EdgePolicy, t: Tables, from: int, to: int)
    requires Ready(policy, t) && CanMerge(t, from, to)
    ensures var after := Merged(policy, t, from, to);
            && Valid(after)
            && (forall c :: IsActive(after, c) <==> IsActive(t, c) && c != from)
            && after.concepts.Keys == t.concepts.Keys
            && NoEdgeAt(after, {from})
            && (forall a | a in after.aliases :: after.aliases[a] != from)
            && t.nextEdge <= after.nextEdge
            && (forall e | e in after.edges && e < t.nextEdge :: e in t.edges && after.edges[e].key == t.edges[e].key)
  {
    MergeKeepsKeys(policy, t, from, to);
    MergedRowsSound(policy, t, from, to);
    MergeEdges(policy, t, from, to);
    hide Repoint, RowsAreSound, ConceptKeysHold, Realiased, AliasNorms;
    MergedAliasesAre(policy, t, from, to);
  }

  lemma MergedAliasesAre(policy: EdgePolicy, t: Tables, from: int, to: int)
    requires Ready(policy, t) && CanMerge(t, from, to)
    ensures var after := Merged(policy, t, from, to); forall a | a in after.aliases :: after.aliases[a] != from
  {
    hide Repoint, AliasNorms, Valid;
  }

  lemma MergeEdges(policy: EdgePolicy, t: Tables, from: int, to: int)
    requires Ready(policy, t) && CanMerge(t, from, to)
    ensures var after := Merged(policy, t, from, to);
            && NoEdgeAt(after, {from}) && t.nextEdge <= after.nextEdge && EdgesAreSound(after.edges, after.nextEdge)
            && (forall e | e in after.edges && e < t.nextEdge :: e in t.edges && after.edges[e].key == t.edges[e].key)
  {
    ReadyProper(policy, t);
    hide Ready, EdgesAreSound, Repoint, Realiased, AliasNorms, MovedEdges, Mentions;
    RepointRows(policy, Rows(t), from, to);
    MergedEdges(policy, t, from, to);
  }

  lemma ReadyProper(policy: EdgePolicy, t: Tables)
    requires Ready(policy, t)
    ensures Proper(Rows(t), policy)
  {
  }

  lemma MergedEdges(policy: EdgePolicy, t: Tables, from: int, to: int)
    requires Ready(policy, t) && CanMerge(t, from, to)
    ensures Proper(Rows(t), policy) && Rows(Merged(policy, t, from, to)) == Repoint(policy, Rows(t), from, to)
  {
    hide Repoint, Realiased;
  }

  lemma MergedRowsSound(policy: EdgePolicy, t: Tables, from: int, to: int)
    requires Ready(policy, t) && CanMerge(t, from, to)
    ensures RowsAreSound(Merged(policy, t, from, to))
  {
    MergeEdges(policy, t, from, to);
    hide Repoint, Realiased, EdgesAreSound, NoEdgeAt;
  }

  lemma MergeKeepsKeys(policy: EdgePolicy, t: Tables, from: int, to: int)
    requires Ready(policy, t) && CanMerge(t, from, to)
    ensures ConceptKeysHold(Merged(policy, t, from, to))
  {
    var after := Merged(policy, t, from, to);
    RepointRows(policy, Rows(t), from, to);
    forall e | e in after.edges
      ensures after.edges[e].key.src in after.concepts && after.edges[e].key.tgt in after.concepts
    {
      if !(e in t.edges && !Touches(t.edges[e].key, from)) {
        MovedAvoid(t.edges, from, to, after.edges[e].key);
      }
    }
  }

  /** A merge preserves an alias map that points only at active concepts, and edges stay away from retired concepts. */
  lemma MergeKeepsAliases(policy: EdgePolicy, t: Tables, from: int, to: int, retired: set<int>)
    requires Ready(policy, t) && CanMerge(t, from, to) && to !in retired
    ensures AliasesActive(t) ==> AliasesActive(Merged(policy, t, from, to))
    ensures NoEdgeAt(t, retired) ==> NoEdgeAt(Merged(policy, t, from, to), retired + {from})
  {
    if AliasesActive(t) { MergeKeepsActive(policy, t, from, to); }
    if NoEdgeAt(t, retired) { MergeStaysAway(policy, t, from, to, retired); }
    hide Merged, Valid, NoEdgeAt, AliasesActive;
  }

  lemma MergeKeepsActive(policy: EdgePolicy, t: Tables, from: int, to: int)
    requires Ready(policy, t) && CanMerge(t, from, to) && AliasesActive(t)
    ensures AliasesActive(Merged(policy, t, from, to))
  {
    MergeMeaning(policy, t, from, to);
    hide Valid, Repoint, AliasNorms, NoEdgeAt;
    var after := Merged(policy, t, from, to);
    forall a | a in after.aliases ensures IsActive(after, after.aliases[a]) {
      assert after.aliases[a] == to || (a in t.aliases && after.aliases[a] == t.aliases[a]);
    }
  }

  lemma MergeStaysAway(policy: EdgePolicy, t: Tables, from: int, to: int, retired: set<int>)
    requires Ready(policy, t) && CanMerge(t, from, to) && to !in retired && NoEdgeAt(t, retired)
    ensures NoEdgeAt(Merged(policy, t, from, to), retired + {from})
  {
    ReadyProper(policy, t);
    MergedEdges(policy, t, from, to);
    hide Repoint, Merged, Valid, Proper;
    RepointStaysAway(policy, Rows(t), from, to, retired);
  }

  lemma RepointStaysAway(policy: EdgePolicy, es: EdgeRows, from: int, to: int, retired: set<int>)
    requires Proper(es, policy) && from != to && to !in retired
    requires forall e | e in es.rows :: es.rows[e].key.src !in retired && es.rows[e].key.tgt !in retired
    ensures var after := Repoint(policy, es, from, to).rows;
            forall e | e in after :: after[e].key.src !in retired + {from} && after[e].key.tgt !in retired + {from}
  {
    RepointRows(policy, es, from, to);
    hide Repoint, Proper, Mentions, MovedEdges, Sound;
    var after := Repoint(policy, es, from, to).rows;
    forall e | e in after ensures after[e].key.src !in retired + {from} && after[e].key.tgt !in retired + {from} {
      if !(e in es.rows && !Touches(es.rows[e].key, from)) { MovedAvoid(es.rows, from, to, after[e].key); }
    }
  }
}
