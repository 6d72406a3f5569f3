/** Upserting and repointing canonical edges (adapters/db/graph/edges.py). */
module EdgeTable {
  import opened Wrappers
  import opened Ordering
  import opened Sequences
  import opened Text
  import opened GraphTables

  /** edges_canon with its identity counter. */
  datatype EdgeRows = EdgeRows(rows: map<int, Edge>, next: int)

  /** How incoming edges are stored: name normalization, the weight cap and the description bound. */
  datatype EdgePolicy = EdgePolicy(names: Names, weightCap: real, maxChars: int)

  ghost predicate Sound(es: EdgeRows) { EdgesAreSound(es.rows, es.next) }

  function MinReal(a: real, b: real): real { if a <= b then a else b }

  function MaxReal(a: real, b: real): real { if a >= b then a else b }

  /** The row with a key, if any. */
  function Find(rows: map<int, Edge>, key: EdgeKey): (r: Option<int>)
    requires UniqueKeys(rows)
    ensures r.Some? ==> r.value in rows && rows[r.value].key == key
    ensures r.None? ==> forall e | e in rows :: rows[e].key != key
  {
    if exists e | e in rows :: rows[e].key == key then
      var e :| e in rows && rows[e].key == key;
      Some(e)
    else None
  }

  /** The row written by an upsert: a new one, or the existing one with the longer description, the merged keywords
      and the added weight, capped. */
  function Stored(policy: EdgePolicy, existing: Option<Edge>, incoming: Edge): Edge {
    var description := TruncateText(Some(incoming.description), policy.maxChars);
    var keywords := policy.names.Dedupe(incoming.keywords);
    var weight := MaxReal(0.0, incoming.weight);
    match existing
    case None => Edge(incoming.key, description, keywords, MinReal(weight, policy.weightCap))
    case Some(e) => Edge(incoming.key, Longer(e.description, description), policy.names.Dedupe(e.keywords + keywords),
                         MinReal(e.weight + weight, policy.weightCap))
  }

  /** upsert_canonical_edge: the new rows and the id written. */
  function Upsert(policy: EdgePolicy, es: EdgeRows, incoming: Edge): (r: (EdgeRows, int))
    requires Sound(es)
  {
    match Find(es.rows, incoming.key)
    case None => (EdgeRows(es.rows[es.next := Stored(policy, None, incoming)], es.next + 1), es.next)
    case Some(id) => (EdgeRows(es.rows[id := Stored(policy, Some(es.rows[id]), incoming)], es.next), id)
  }

  /** An upsert keeps the table sound and changes the row of one key only. */
  lemma UpsertMeaning(policy: EdgePolicy, es: EdgeRows, incoming: Edge)
    requires Sound(es) && policy.weightCap >= 0.0 && incoming.key.src != incoming.key.tgt
    ensures var (after, id) := Upsert(policy, es, incoming);
            && Sound(after) && es.next <= after.next
            && id in after.rows && after.rows[id].key == incoming.key
            && (forall e | e in es.rows :: e in after.rows && after.rows[e].key == es.rows[e].key)
            && (forall e | e in es.rows && es.rows[e].key != incoming.key :: after.rows[e] == es.rows[e])
            && (forall e | e in after.rows && e !in es.rows :: e == id && e == es.next)
  {
  }

  // ---- repointing the edges of a merged concept ----

  function Swap(id: int, from: int, to: int): int { if id == from then to else id }

  function Repointed(e: Edge, from: int, to: int): Edge {
    e.(key := EdgeKey(Swap(e.key.src, from, to), Swap(e.key.tgt, from, to), e.key.relation))
  }

  function Touching(rows: map<int, Edge>, id: int): set<int> {
    set e | e in rows && (rows[e].key.src == id || rows[e].key.tgt == id)
  }

  /** The rows of the given ids, in that order, repointed. */
  function Moved(rows: map<int, Edge>, ids: seq<int>, from: int, to: int): (es: seq<Edge>)
    requires forall i | 0 <= i < |ids| :: ids[i] in rows
    ensures |es| == |ids| && forall i | 0 <= i < |ids| :: es[i] == Repointed(rows[ids[i]], from, to)
  {
    if ids == [] then [] else Moved(rows, ids[..|ids| - 1], from, to) + [Repointed(rows[ids[|ids| - 1]], from, to)]
  }

  ghost predicate Proper(es: EdgeRows, policy: EdgePolicy) { Sound(es) && policy.weightCap >= 0.0 }

  /** Upserting edges in order, skipping those that became self-loops. */
  function UpsertAll(policy: EdgePolicy, es: EdgeRows, incoming: seq<Edge>): (after: EdgeRows)
    requires Proper(es, policy)
    ensures Proper(after, policy)
  {
    if incoming == [] then es
    else
      var before := UpsertAll(policy, es, incoming[..|incoming| - 1]);
      var e := incoming[|incoming| - 1];
      if e.key.src == e.key.tgt then before
      else
        UpsertMeaning(policy, before, e);
        Upsert(policy, before, e).0
  }

  /** The table without the edges that touch a concept. */
  function Detached(es: EdgeRows, id: int): EdgeRows { EdgeRows(es.rows - Touching(es.rows, id), es.next) }

  /** The edges that touch a concept, by ascending row id, repointed to another one. */
  function MovedEdges(rows: map<int, Edge>, from: int, to: int): seq<Edge> {
    var ids := SortedInts(Touching(rows, from));
    assert forall i | 0 <= i < |ids| :: ids[i] in ids;
    Moved(rows, ids, from, to)
  }

  lemma DetachedProper(policy: EdgePolicy, es: EdgeRows, id: int)
    requires Proper(es, policy)
    ensures Proper(Detached(es, id), policy)
  {
  }

  /** repoint_edges_for_merge */
  function Repoint(policy: EdgePolicy, es: EdgeRows, from: int, to: int): (after: EdgeRows)
    requires Proper(es, policy)
    ensures Proper(after, policy)
  {
    DetachedProper(policy, es, from);
    UpsertAll(policy, Detached(es, from), MovedEdges(es.rows, from, to))
  }

  lemma RepointNothing(policy: EdgePolicy, es: EdgeRows, from: int, to: int)
    requires Proper(es, policy) && MovedEdges(es.rows, from, to) == []
    ensures Repoint(policy, es, from, to) == es
  {
    assert Touching(es.rows, from) == {};
    assert es.rows - {} == es.rows;
  }

  lemma UpsertAllAppend(policy: EdgePolicy, es: EdgeRows, front: seq<Edge>, e: Edge)
    requires Proper(es, policy)
    ensures var before := UpsertAll(policy, es, front);
            UpsertAll(policy, es, front + [e]) == if e.key.src == e.key.tgt then before else Upsert(policy, before, e).0
  {
    assert (front + [e])[..|front|] == front;
  }

  method RepointEdges(policy: EdgePolicy, es: EdgeRows, from: int, to: int) returns (after: EdgeRows, upserts: nat)
    requires Proper(es, policy)
    ensures after == if from == to then es else Repoint(policy, es, from, to)
  {
    upserts := 0;
    if from == to {
      return es, 0;
    }
    var edges := MovedEdges(es.rows, from, to);
    if edges == [] {
      RepointNothing(policy, es, from, to);
      return es, 0;
    }
    DetachedProper(policy, es, from);
    assert UpsertAll(policy, Detached(es, from), []) == Detached(es, from);
    hide UpsertAll, Upsert, Detached, MovedEdges, Sound;
    after := Detached(es, from);
    for k := 0 to |edges|
      invariant Proper(after, policy) && after == UpsertAll(policy, Detached(es, from), edges[..k])
    {
      SplitAt(edges, k);
      UpsertAllAppend(policy, Detached(es, from), edges[..k], edges[k]);
      if edges[k].key.src == edges[k].key.tgt {
        continue;
      }
      var (rows, _) := Upsert(policy, after, edges[k]);
      after := rows;
      upserts := upserts + 1;
    }
    assert edges[..|edges|] == edges;
  }

  // ---- what repointing conserves ----

  function WeightAt(rows: map<int, Edge>, key: EdgeKey): real
    requires UniqueKeys(rows)
  {
    match Find(rows, key)
    case None => 0.0
    case Some(e) => rows[e].weight
  }

  predicate Has(rows: map<int, Edge>, key: EdgeKey) { exists e | e in rows :: rows[e].key == key }

  /** The total weight and the number of incoming edges with a key. */
  function Weight(incoming: seq<Edge>, key: EdgeKey): real {
    if incoming == [] then 0.0
    else Weight(incoming[..|incoming| - 1], key) +
         if incoming[|incoming| - 1].key == key then MaxReal(0.0, incoming[|incoming| - 1].weight) else 0.0
  }

  predicate Mentions(incoming: seq<Edge>, key: EdgeKey) { exists i | 0 <= i < |incoming| :: incoming[i].key == key }

  /** Upserting many edges in any order caps the total once: every key ends with min(cap, old weight + sum). */
  lemma {:induction false} UpsertAllWeights(policy: EdgePolicy, es: EdgeRows, incoming: seq<Edge>, key: EdgeKey)
    requires Proper(es, policy) && key.src != key.tgt
    ensures var after := UpsertAll(policy, es, incoming);
            && (Has(after.rows, key) <==> Has(es.rows, key) || Mentions(incoming, key))
            && WeightAt(after.rows, key) ==
               if Mentions(incoming, key) then MinReal(WeightAt(es.rows, key) + Weight(incoming, key), policy.weightCap)
               else WeightAt(es.rows, key)
  {
    hide UpsertAll, Upsert, Mentions, Weight, WeightAt, Has, MinReal, MaxReal, UniqueKeys, Find;
    if incoming == [] {
      NothingIncoming(policy, es, key);
    } else {
      var front, e := incoming[..|incoming| - 1], incoming[|incoming| - 1];
      assert incoming == front + [e];
      UpsertAllWeights(policy, es, front, key);
      UpsertAllAppend(policy, es, front, e);
      MentionsAppend(front, e, key);
      WeightAppend(front, e, key);
      var mid := UpsertAll(policy, es, front);
      if e.key.src != e.key.tgt { UpsertWeight(policy, mid, e, key); }
      CapOnce(WeightAt(es.rows, key), Weight(front, key), e.weight, policy.weightCap);
    }
  }

  lemma NothingIncoming(policy: EdgePolicy, es: EdgeRows, key: EdgeKey)
    requires Proper(es, policy)
    ensures UpsertAll(policy, es, []) == es && !Mentions([], key) && Weight([], key) == 0.0
  {
  }

  /** Capping after every addition is capping once. */
  lemma CapOnce(base: real, sum: real, weight: real, cap: real)
    ensures MinReal(MinReal(base + sum, cap) + MaxReal(0.0, weight), cap) ==
              MinReal(base + (sum + MaxReal(0.0, weight)), cap)
    ensures sum == 0.0 ==>
              MinReal(base + MaxReal(0.0, weight), cap) == MinReal(base + (sum + MaxReal(0.0, weight)), cap)
  {
  }

  lemma WeightAppend(front: seq<Edge>, e: Edge, key: EdgeKey)
    ensures Weight(front + [e], key) == Weight(front, key) + if e.key == key then MaxReal(0.0, e.weight) else 0.0
    ensures !Mentions(front, key) ==> Weight(front, key) == 0.0
  {
    assert (front + [e])[..|front|] == front;
    if !Mentions(front, key) { UnmentionedWeight(front, key); }
  }

  lemma {:induction false} UnmentionedWeight(incoming: seq<Edge>, key: EdgeKey)
    requires !Mentions(incoming, key)
    ensures Weight(incoming, key) == 0.0
  {
    if incoming != [] { UnmentionedWeight(incoming[..|incoming| - 1], key); }
  }

  lemma MentionsAppend(front: seq<Edge>, e: Edge, key: EdgeKey)
    ensures Mentions(front + [e], key) <==> Mentions(front, key) || e.key == key
  {
    var all := front + [e];
    if Mentions(front, key) {
      var i :| 0 <= i < |front| && front[i].key == key;
      assert all[i].key == key;
    }
    if e.key == key { assert all[|front|].key == key; }
  }

  lemma UpsertWeight(policy: EdgePolicy, es: EdgeRows, e: Edge, key: EdgeKey)
    requires Proper(es, policy) && e.key.src != e.key.tgt
    ensures var after := Upsert(policy, es, e).0;
            && UniqueKeys(after.rows)
            && (Has(after.rows, key) <==> Has(es.rows, key) || e.key == key)
            && WeightAt(after.rows, key) ==
               if e.key == key then MinReal(WeightAt(es.rows, key) + MaxReal(0.0, e.weight), policy.weightCap)
               else WeightAt(es.rows, key)
  {
    UpsertMeaning(policy, es, e);
  }

  /** Rows keep their id and key; every other row is new and carries the key of some incoming edge. */
  ghost predicate Grown(es: EdgeRows, incoming: seq<Edge>, after: EdgeRows) {
    && es.next <= after.next
    && (forall e | e in es.rows :: e in after.rows && after.rows[e].key == es.rows[e].key)
    && (forall e | e in after.rows && e !in es.rows :: es.next <= e && Mentions(incoming, after.rows[e].key))
  }

  lemma {:induction false} UpsertAllRows(policy: EdgePolicy, es: EdgeRows, incoming: seq<Edge>)
    requires Proper(es, policy)
    ensures Grown(es, incoming, UpsertAll(policy, es, incoming))
  {
    if incoming != [] {
      var front, e := incoming[..|incoming| - 1], incoming[|incoming| - 1];
      assert incoming == front + [e];
      UpsertAllRows(policy, es, front);
      UpsertAllAppend(policy, es, front, e);
      var mid := UpsertAll(policy, es, front);
      if e.key.src != e.key.tgt { UpsertMeaning(policy, mid, e); }
      hide UpsertAll, Upsert;
      forall r | r in UpsertAll(policy, es, incoming).rows && r !in es.rows
        ensures Mentions(incoming, UpsertAll(policy, es, incoming).rows[r].key)
      {
        MentionsAppend(front, e, UpsertAll(policy, es, incoming).rows[r].key);
      }
    }
  }

  ghost predicate Touches(key: EdgeKey, id: int) { key.src == id || key.tgt == id }

  /** A key with no end at the given concept. */
  lemma MovedAvoid(rows: map<int, Edge>, from: int, to: int, key: EdgeKey)
    requires from != to && Mentions(MovedEdges(rows, from, to), key)
    ensures !Touches(key, from) && Touches(key, to)
    ensures exists e | e in rows :: Touches(rows[e].key, from) &&
              key == EdgeKey(Swap(rows[e].key.src, from, to), Swap(rows[e].key.tgt, from, to), rows[e].key.relation)
  {
    var ids := SortedInts(Touching(rows, from));
    var moved := MovedEdges(rows, from, to);
    var i :| 0 <= i < |moved| && moved[i].key == key;
    assert ids[i] in ids;
    assert moved[i] == Repointed(rows[ids[i]], from, to);
  }

  /** Repointing a concept's edges: none touches it any more, edges elsewhere keep id and key, and every other row
      takes a fresh id unless it was there with that key already. */
  lemma RepointRows(policy: EdgePolicy, es: EdgeRows, from: int, to: int)
    requires Proper(es, policy) && from != to
    ensures var after := Repoint(policy, es, from, to);
            && Sound(after) && es.next <= after.next
            && (forall e | e in after.rows :: !Touches(after.rows[e].key, from))
            && (forall e | e in es.rows && !Touches(es.rows[e].key, from) ::
                e in after.rows && after.rows[e].key == es.rows[e].key)
            && (forall e | e in after.rows && !(e in es.rows && !Touches(es.rows[e].key, from)) ::
                  es.next <= e && Mentions(MovedEdges(es.rows, from, to), after.rows[e].key))
  {
    var start, moved := Detached(es, from), MovedEdges(es.rows, from, to);
    RepointIs(policy, es, from, to);
    UpsertAllRows(policy, start, moved);
    DetachedRows(es, from);
    hide UpsertAll, MovedEdges, Mentions, Repoint, Detached;
    var after := UpsertAll(policy, start, moved);
    forall e | e in after.rows && e !in start.rows ensures !Touches(after.rows[e].key, from) {
      MovedAvoid(es.rows, from, to, after.rows[e].key);
    }
  }

  lemma DetachedRows(es: EdgeRows, id: int)
    ensures var d := Detached(es, id);
            && d.next == es.next
            && (forall e :: e in d.rows <==> e in es.rows && !Touches(es.rows[e].key, id))
            && (forall e | e in d.rows :: d.rows[e] == es.rows[e])
  {
  }

  /** Weight is conserved up to the cap: on every key away from the merged concept it is the old weight plus
      everything moved there, capped. */
  lemma RepointWeights(policy: EdgePolicy, es: EdgeRows, from: int, to: int, key: EdgeKey)
    requires Proper(es, policy) && from != to
    requires key.src != key.tgt && !Touches(key, from)
    ensures var after, moved := Repoint(policy, es, from, to), MovedEdges(es.rows, from, to);
            WeightAt(after.rows, key) ==
            if Mentions(moved, key) then MinReal(WeightAt(es.rows, key) + Weight(moved, key), policy.weightCap)
            else WeightAt(es.rows, key)
  {
    hide UpsertAll, Upsert, Mentions, Weight, WeightAt, MovedEdges, Find, MinReal, Detached, Repoint, UniqueKeys;
    RepointIs(policy, es, from, to);
    UpsertAllWeights(policy, Detached(es, from), MovedEdges(es.rows, from, to), key);
    DetachedWeight(policy, es, from, key);
  }

  lemma RepointIs(policy: EdgePolicy, es: EdgeRows, from: int, to: int)
    requires Proper(es, policy)
    ensures Proper(Detached(es, from), policy)
    ensures Repoint(policy, es, from, to) == UpsertAll(policy, Detached(es, from), MovedEdges(es.rows, from, to))
  {
    DetachedProper(policy, es, from);
  }

  lemma DetachedWeight(policy: EdgePolicy, es: EdgeRows, id: int, key: EdgeKey)
    requires Proper(es, policy) && !Touches(key, id)
    ensures UniqueKeys(Detached(es, id).rows) && WeightAt(Detached(es, id).rows, key) == WeightAt(es.rows, key)
  {
    var d := Detached(es, id);
    match Find(es.rows, key) {
      case None =>
      case Some(e) => assert e in d.rows && d.rows[e].key == key;
    }
  }
}
