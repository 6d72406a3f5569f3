/** The rows after an edge upsert and after a merge of two concepts, said of the rows before alone
    (adapters/db/graph/edges.py, domain/graph/gardener.py _execute_merge). */
module MergeRows {
  import opened Wrappers
  import opened Ordering
  import opened Sequences
  import opened Text
  import opened GraphTables
  import opened EdgeTable
  import opened GardenerMerge

  // ---- an upserted edge ----

  /** The row with a key after an upsert: the longer description, the old one on a tie, the keywords of both without
      repetition, and the sum of the weights up to the cap. */
  lemma UpsertedRow(policy: EdgePolicy, es: EdgeRows, incoming: Edge)
    requires Sound(es)
    ensures var (after, id) := Upsert(policy, es, incoming);
            var text := TruncateText(Some(incoming.description), policy.maxChars);
            var weight := if incoming.weight > 0.0 then incoming.weight else 0.0;
            && id in after.rows && after.rows[id].key == incoming.key
            && policy.names.IsDeduped(after.rows[id].keywords)
            && (id !in es.rows ==>
                  && (forall e | e in es.rows :: es.rows[e].key != incoming.key)
                  && after.rows[id].description == text
                  && policy.names.NormSet(after.rows[id].keywords) == policy.names.NormSet(incoming.keywords) - {""}
                  && after.rows[id].weight == if weight <= policy.weightCap then weight else policy.weightCap)
            && (id in es.rows ==>
                  && es.rows[id].key == incoming.key
                  && after.rows[id].description ==
                       (if |text| > |es.rows[id].description| then text else es.rows[id].description)
                  && policy.names.NormSet(after.rows[id].keywords) ==
                       policy.names.NormSet(es.rows[id].keywords) + policy.names.NormSet(incoming.keywords) - {""}
                  && var sum := es.rows[id].weight + weight;
                     after.rows[id].weight == if sum <= policy.weightCap then sum else policy.weightCap)
  {
    var names, keywords := policy.names, policy.names.Dedupe(incoming.keywords);
    names.DedupeMeaning(incoming.keywords);
    match Find(es.rows, incoming.key) {
      case None => hide Names.Dedupe, Names.NormSet, Names.IsDeduped, TruncateText;
      case Some(id) =>
        names.DedupeMeaning(es.rows[id].keywords + keywords);
        names.NormSetConcat(es.rows[id].keywords, keywords);
        hide Names.Dedupe, Names.NormSet, Names.IsDeduped, TruncateText;
    }
  }

  // ---- repointed edges ----

  /** The key that becomes the given one, which has an end at to, when from is replaced by to. */
  function OriginOf(key: EdgeKey, from: int, to: int): EdgeKey {
    if key.src == to then EdgeKey(from, key.tgt, key.relation) else EdgeKey(key.src, from, key.relation)
  }

  /** After repointing, a key away from the merged concept has a row exactly when it had one or its origin had one. */
  lemma RepointedKey(policy: EdgePolicy, es: EdgeRows, from: int, to: int, key: EdgeKey)
    requires Proper(es, policy) && from != to && key.src != key.tgt && !Touches(key, from)
    ensures Has(Repoint(policy, es, from, to).rows, key) <==>
              Has(es.rows, key) || (Touches(key, to) && Has(es.rows, OriginOf(key, from, to)))
  {
    MovedOnce(policy, es, from, to, key);
    RepointedHas(policy, es, from, to, key);
    hide Repoint, MovedEdges, Weight, Mentions, WeightAt, Has, OriginOf, Touches, UniqueKeys, Proper;
  }

  /** The weight of a key: that of its row, or nothing. */
  ghost predicate Weighs(rows: map<int, Edge>, key: EdgeKey, weight: real) {
    if Has(rows, key) then forall e | e in rows && rows[e].key == key :: rows[e].weight == weight else weight == 0.0
  }

  lemma WeightIs(rows: map<int, Edge>, key: EdgeKey, weight: real)
    requires UniqueKeys(rows)
    ensures Weighs(rows, key, weight) <==> WeightAt(rows, key) == weight
  {
  }

  /** It then has the weights of both, up to the cap; a key that nothing moves to keeps its weight. */
  lemma RepointedWeight(policy: EdgePolicy, es: EdgeRows, from: int, to: int, key: EdgeKey, own: real, other: real)
    requires Proper(es, policy) && from != to && key.src != key.tgt && !Touches(key, from)
    requires Weighs(es.rows, key, own) && Weighs(es.rows, OriginOf(key, from, to), other)
    ensures Weighs(Repoint(policy, es, from, to).rows, key,
                   if Touches(key, to) && Has(es.rows, OriginOf(key, from, to))
                   then MinReal(own + other, policy.weightCap) else own)
  {
    hide *;
    RowsUnique(policy, es, from, to);
    var after, origin := Repoint(policy, es, from, to).rows, OriginOf(key, from, to);
    WeightIs(es.rows, key, own);
    WeightIs(es.rows, origin, other);
    RepointWeights(policy, es, from, to, key);
    MovedOnce(policy, es, from, to, key);
    if Touches(key, to) && Has(es.rows, origin) {
      MovedWeight(policy, es, from, to, key);
      WeightIs(after, key, MinReal(own + other, policy.weightCap));
    } else {
      WeightIs(after, key, own);
    }
  }

  lemma RowsUnique(policy: EdgePolicy, es: EdgeRows, from: int, to: int)
    requires Proper(es, policy)
    ensures UniqueKeys(es.rows) && UniqueKeys(Repoint(policy, es, from, to).rows)
  {
    hide Repoint, UniqueKeys;
  }

  lemma RepointedHas(policy: EdgePolicy, es: EdgeRows, from: int, to: int, key: EdgeKey)
    requires Proper(es, policy) && key.src != key.tgt && !Touches(key, from)
    ensures Has(Repoint(policy, es, from, to).rows, key) <==>
              Has(es.rows, key) || Mentions(MovedEdges(es.rows, from, to), key)
  {
    RepointIs(policy, es, from, to);
    hide Repoint, MovedEdges, Detached, UpsertAll, Weight, Mentions, WeightAt, Has, Touches, UniqueKeys;
    UpsertAllWeights(policy, Detached(es, from), MovedEdges(es.rows, from, to), key);
    DetachedHas(es, from, key);
  }

  lemma DetachedHas(es: EdgeRows, id: int, key: EdgeKey)
    requires !Touches(key, id)
    ensures Has(Detached(es, id).rows, key) <==> Has(es.rows, key)
  {
    DetachedRows(es, id);
    hide Detached;
    if Has(es.rows, key) {
      var e :| e in es.rows && es.rows[e].key == key;
      assert e in Detached(es, id).rows;
    }
  }

  /** Exactly the row with the origin moves to a key, with its weight. */
  lemma MovedOnce(policy: EdgePolicy, es: EdgeRows, from: int, to: int, key: EdgeKey)
    requires Proper(es, policy) && from != to && key.src != key.tgt && !Touches(key, from)
    ensures Mentions(MovedEdges(es.rows, from, to), key) <==> Touches(key, to) && Has(es.rows, OriginOf(key, from, to))
  {
    hide MovedEdges, Proper, OriginOf, Touches;
    var ids := MovedIds(es.rows, from, to, key);
    var moved, origin := MovedEdges(es.rows, from, to), OriginOf(key, from, to);
    if Touches(key, to) && Has(es.rows, origin) {
      var e :| e in es.rows && es.rows[e].key == origin;
      var i :| 0 <= i < |ids| && ids[i] == e;
      assert moved[i].key == key;
    }
    if Mentions(moved, key) {
      var i :| 0 <= i < |moved| && moved[i].key == key;
      assert ids[i] in es.rows && es.rows[ids[i]].key == origin;
    }
  }

  lemma MovedWeight(policy: EdgePolicy, es: EdgeRows, from: int, to: int, key: EdgeKey)
    requires Proper(es, policy) && from != to && key.src != key.tgt && !Touches(key, from)
    requires Touches(key, to) && Has(es.rows, OriginOf(key, from, to))
    ensures UniqueKeys(es.rows)
    ensures Weight(MovedEdges(es.rows, from, to), key) == WeightAt(es.rows, OriginOf(key, from, to))
  {
    hide MovedEdges, Proper, OriginOf, Touches, Weight, Find, UniqueKeys, WeightAt;
    RowFacts(policy, es);
    var ids := MovedIds(es.rows, from, to, key);
    var moved, origin := MovedEdges(es.rows, from, to), OriginOf(key, from, to);
    var e :| e in es.rows && es.rows[e].key == origin;
    WeightOfRow(es.rows, e);
    var i :| 0 <= i < |ids| && ids[i] == e;
    forall j | 0 <= j < |moved| && moved[j].key == key ensures j == i {
      SameRow(es.rows, ids[i], ids[j]);
    }
    OneWeight(moved, key, i);
  }

  lemma RowFacts(policy: EdgePolicy, es: EdgeRows)
    requires Proper(es, policy)
    ensures UniqueKeys(es.rows) && forall e | e in es.rows :: es.rows[e].weight >= 0.0
  {
  }

  lemma WeightOfRow(rows: map<int, Edge>, e: int)
    requires UniqueKeys(rows) && e in rows
    ensures WeightAt(rows, rows[e].key) == rows[e].weight
  {
  }

  lemma SameRow(rows: map<int, Edge>, e: int, f: int)
    requires UniqueKeys(rows) && e in rows && f in rows && rows[e].key == rows[f].key
    ensures e == f
  {
  }

  /** The ids of the rows that move, and what becomes of each. */
  lemma MovedIds(rows: map<int, Edge>, from: int, to: int, key: EdgeKey) returns (ids: seq<int>)
    requires from != to && key.src != key.tgt && !Touches(key, from)
    ensures forall e | e in rows && Touches(key, to) && rows[e].key == OriginOf(key, from, to) :: e in ids
    ensures forall i, j | 0 <= i < j < |ids| :: ids[i] < ids[j]
    ensures var moved := MovedEdges(rows, from, to);
            |moved| == |ids| && forall i | 0 <= i < |ids| ::
              && ids[i] in rows && moved[i].weight == rows[ids[i]].weight
              && (moved[i].key == key <==> Touches(key, to) && rows[ids[i]].key == OriginOf(key, from, to))
  {
    ids := SortedInts(Touching(rows, from));
    var moved := MovedEdges(rows, from, to);
    IdsAscend(Touching(rows, from));
    TouchingAre(rows, from);
    hide SortedInts, Touching;
    assert forall i | 0 <= i < |ids| :: ids[i] in ids;
    hide MovedEdges;
    forall i | 0 <= i < |ids|
      ensures ids[i] in rows && moved[i].weight == rows[ids[i]].weight
      ensures moved[i].key == key <==> Touches(key, to) && rows[ids[i]].key == OriginOf(key, from, to)
    {
      assert ids[i] in ids;
      assert moved[i] == Repointed(rows[ids[i]], from, to);
    }
  }

  lemma IdsAscend(s: set<int>)
    ensures var ids := SortedInts(s);
            (forall x :: x in ids <==> x in s) && forall i, j | 0 <= i < j < |ids| :: ids[i] < ids[j]
  {
  }

  lemma TouchingAre(rows: map<int, Edge>, id: int)
    ensures forall e :: e in Touching(rows, id) <==> e in rows && Touches(rows[e].key, id)
  {
  }

  lemma {:induction false} OneWeight(incoming: seq<Edge>, key: EdgeKey, i: nat)
    requires i < |incoming| && incoming[i].key == key
    requires forall j | 0 <= j < |incoming| && incoming[j].key == key :: j == i
    ensures Weight(incoming, key) == if incoming[i].weight > 0.0 then incoming[i].weight else 0.0
  {
    var front := incoming[..|incoming| - 1];
    if i < |front| {
      assert forall j | 0 <= j < |front| :: front[j] == incoming[j];
      OneWeight(front, key, i);
    } else {
      forall j | 0 <= j < |front| ensures front[j].key != key { assert front[j] == incoming[j]; }
      UnmentionedWeight(front, key);
    }
  }

  // ---- a merge ----

  /** The order of the tiers, from the most general to the most specific; a missing one comes before all. */
  lemma TiersAreOrdered()
    ensures TierRank(None) < TierRank(Some(Umbrella)) < TierRank(Some(Topic)) < TierRank(Some(Subtopic))
            < TierRank(Some(Granular))
  {
  }

  /** Some alias of the list has this normal form, which is not blank. */
  ghost predicate Lists(names: Names, aliases: seq<string>, norm: string) {
    norm != "" && exists i :: 0 <= i < |aliases| && names.Normalize(aliases[i]) == norm
  }

  lemma ListsIs(names: Names, aliases: seq<string>, norm: string)
    ensures Lists(names, aliases, norm) <==> norm in AliasNorms(names, aliases)
  {
    hide Names.Normalize;
    if norm in AliasNorms(names, aliases) {
      var k :| k in aliases && names.Normalize(k) == norm;
    }
  }

  /** A merge logs itself, retires the source and leaves the target its name and aliases. The target takes the more
      general of the known tiers, and both are clean. Every alias that the source lists or that pointed at it points at
      the target, and the others stay. */
  lemma MergedTables(policy: EdgePolicy, t: Tables, from: int, to: int)
    requires Ready(policy, t) && CanMerge(t, from, to)
    ensures var after := Merged(policy, t, from, to);
            var source, target := t.concepts[from], t.concepts[to];
            && after.mergeLog == t.mergeLog + {(from, to)}
            && after.concepts.Keys == t.concepts.Keys
            && (forall c | c in t.concepts && c != from && c != to :: after.concepts[c] == t.concepts[c])
            && after.concepts[from] == source.(active := false, dirty := false)
            && after.concepts[to] == target.(tier := after.concepts[to].tier, dirty := false)
            && IsMoreGeneral(after.concepts[to].tier, source.tier, target.tier)
            && (forall a :: a in after.aliases <==> a in t.aliases || Lists(policy.names, source.aliases, a))
            && (forall a | a in after.aliases ::
                  after.aliases[a] ==
                  if Lists(policy.names, source.aliases, a) || t.aliases[a] == from then to else t.aliases[a])
  {
    hide Repoint, Valid, AliasNorms, Lists;
    var source := t.concepts[from];
    forall a ensures Lists(policy.names, source.aliases, a) <==> a in AliasNorms(policy.names, source.aliases) {
      ListsIs(policy.names, source.aliases, a);
    }
  }

  /** The more general of two tiers, of which a missing one does not count. */
  ghost predicate IsMoreGeneral(tier: Option<Tier>, one: Option<Tier>, other: Option<Tier>) {
    && (tier == one || tier == other)
    && (tier.None? <==> one.None? && other.None?)
    && (one.Some? ==> TierRank(tier) <= TierRank(one)) && (other.Some? ==> TierRank(tier) <= TierRank(other))
  }

  /** The relations after a merge: those away from the source that were there, and those of the source with the target
      in its place. */
  lemma MergedRelations(policy: EdgePolicy, t: Tables, from: int, to: int, key: EdgeKey)
    requires Ready(policy, t) && CanMerge(t, from, to) && key.src != key.tgt
    ensures Has(Merged(policy, t, from, to).edges, key) <==>
              !Touches(key, from) && (Has(t.edges, key) || (Touches(key, to) && Has(t.edges, OriginOf(key, from, to))))
  {
    MergedEdges(policy, t, from, to);
    MergeMeaning(policy, t, from, to);
    hide Merged, Valid, Repoint, OriginOf;
    if !Touches(key, from) { RepointedKey(policy, Rows(t), from, to, key); }
  }
}
