/** The edges of a finished window, said of the extracted edges and the ids of its concepts alone
    (domain/graph/pipeline.py, build_graph_for_chunks). */
module GraphBuildMeaning {
  import opened Wrappers
  import opened Ordering
  import opened Sequences
  import opened Text
  import opened GraphTables
  import opened EdgeTable
  import opened GardenerMerge
  import opened Extraction
  import opened ResolverApply
  import opened Resolver
  import opened MergeRows
  import opened GraphBuild

  /** Concepts i and j of the window are the source and the target of an extracted edge, and are different rows. */
  predicate Joins(env: Resolving, raws: seq<ExtractedConcept>, list: seq<ResolvedConcept>, i: nat, j: nat,
                  e: ExtractedEdge)
    requires |list| == |raws|
  {
    && i < |raws| && j < |raws|
    && env.policy.edges.names.Normalize(raws[i].name) == env.policy.edges.names.Normalize(e.src)
    && env.policy.edges.names.Normalize(raws[j].name) == env.policy.edges.names.Normalize(e.tgt)
    && list[i].id != list[j].id
  }

  ghost predicate IsJoined(env: Resolving, raws: seq<ExtractedConcept>, list: seq<ResolvedConcept>, e: ExtractedEdge)
    requires |list| == |raws|
  {
    exists i: nat, j: nat :: Joins(env, raws, list, i, j, e)
  }

  /** The key an extracted edge is written under: from the concept its source names to the one its target names. */
  ghost predicate IsKeyOf(env: Resolving, raws: seq<ExtractedConcept>, list: seq<ResolvedConcept>, e: ExtractedEdge,
                          key: EdgeKey)
    requires |list| == |raws|
  {
    exists i: nat, j: nat ::
      Joins(env, raws, list, i, j, e) && key == EdgeKey(list[i].id, list[j].id, Strip(e.relation))
  }

  /** The edge handed to the upsert for an extracted one. */
  ghost predicate IsHandedOver(env: Resolving, raws: seq<ExtractedConcept>, list: seq<ResolvedConcept>,
                               e: ExtractedEdge, incoming: Edge)
    requires |list| == |raws|
  {
    var names := env.policy.edges.names;
    && IsKeyOf(env, raws, list, e, incoming.key)
    && incoming.description == TruncateText(Some(e.description), env.policy.edges.maxChars)
    && names.IsDeduped(incoming.keywords) && names.NormSet(incoming.keywords) == names.NormSet(e.keywords) - {""}
    && incoming.weight == if e.weight > 0 then e.weight as real else 0.0
  }

  // ---- the endpoints ----

  lemma {:induction false} EndpointsMeaning(env: Resolving, raws: seq<ExtractedConcept>, list: seq<ResolvedConcept>,
                                            n: nat)
    requires n <= |raws| == |list| && forall i | 0 <= i < |raws| :: Norm(env, raws[i]) != ""
    requires DistinctNames(env, raws)
    ensures var ids := Endpoints(env, raws, list, n);
            && (forall i | 0 <= i < n :: Norm(env, raws[i]) in ids && ids[Norm(env, raws[i])] == list[i].id)
            && (forall a | a in ids :: exists i :: 0 <= i < n && Norm(env, raws[i]) == a)
  {
    hide Norm;
    if n > 0 { EndpointsMeaning(env, raws, list, n - 1); }
  }

  /** An extracted edge has a key exactly when two different concepts of the window are its ends, and then that one. */
  lemma KeyForMeaning(env: Resolving, raws: seq<ExtractedConcept>, list: seq<ResolvedConcept>, ids: map<string, int>,
                      e: ExtractedEdge)
    requires |raws| == |list| && (forall i | 0 <= i < |raws| :: Norm(env, raws[i]) != "") && DistinctNames(env, raws)
    requires ids == Endpoints(env, raws, list, |raws|)
    ensures KeyFor(env, ids, e).Some? <==> IsJoined(env, raws, list, e)
    ensures forall key :: IsKeyOf(env, raws, list, e, key) <==> KeyFor(env, ids, e) == Some(key)
  {
    hide *;
    AreTheEndpoints(env, raws, list);
    NoOtherKey(env, raws, list, ids, e);
    if KeyFor(env, ids, e).Some? { SomeKey(env, raws, list, ids, e); }
  }

  /** The ids of the window's names lead to its concepts. */
  ghost predicate AreEndpoints(env: Resolving, raws: seq<ExtractedConcept>, list: seq<ResolvedConcept>,
                               ids: map<string, int>)
    requires |raws| == |list|
  {
    && (forall i | 0 <= i < |raws| :: Norm(env, raws[i]) in ids && ids[Norm(env, raws[i])] == list[i].id)
    && (forall a | a in ids :: exists i :: 0 <= i < |raws| && Norm(env, raws[i]) == a)
  }

  lemma AreTheEndpoints(env: Resolving, raws: seq<ExtractedConcept>, list: seq<ResolvedConcept>)
    requires |raws| == |list| && (forall i | 0 <= i < |raws| :: Norm(env, raws[i]) != "") && DistinctNames(env, raws)
    ensures AreEndpoints(env, raws, list, Endpoints(env, raws, list, |raws|))
  {
    EndpointsMeaning(env, raws, list, |raws|);
    hide Norm, Endpoints, DistinctNames;
  }

  lemma NoOtherKey(env: Resolving, raws: seq<ExtractedConcept>, list: seq<ResolvedConcept>, ids: map<string, int>,
                   e: ExtractedEdge)
    requires |raws| == |list| && AreEndpoints(env, raws, list, ids)
    ensures forall key | IsKeyOf(env, raws, list, e, key) :: KeyFor(env, ids, e) == Some(key)
    ensures IsJoined(env, raws, list, e) ==> KeyFor(env, ids, e).Some?
  {
    hide Names.Normalize, Strip;
    if IsJoined(env, raws, list, e) {
      var i: nat, j: nat :| Joins(env, raws, list, i, j, e);
      JoinsKey(env, raws, list, ids, i, j, e);
    }
    forall key | IsKeyOf(env, raws, list, e, key) ensures KeyFor(env, ids, e) == Some(key) {
      var k: nat, l: nat :|
        Joins(env, raws, list, k, l, e) && key == EdgeKey(list[k].id, list[l].id, Strip(e.relation));
      JoinsKey(env, raws, list, ids, k, l, e);
    }
  }

  lemma JoinsKey(env: Resolving, raws: seq<ExtractedConcept>, list: seq<ResolvedConcept>, ids: map<string, int>,
                 i: nat, j: nat, e: ExtractedEdge)
    requires |raws| == |list| && AreEndpoints(env, raws, list, ids) && Joins(env, raws, list, i, j, e)
    ensures KeyFor(env, ids, e) == Some(EdgeKey(list[i].id, list[j].id, Strip(e.relation)))
  {
    hide Names.Normalize, Strip;
    assert Norm(env, raws[i]) in ids && Norm(env, raws[j]) in ids;
  }

  lemma SomeKey(env: Resolving, raws: seq<ExtractedConcept>, list: seq<ResolvedConcept>, ids: map<string, int>,
                e: ExtractedEdge)
    requires |raws| == |list| && AreEndpoints(env, raws, list, ids) && KeyFor(env, ids, e).Some?
    ensures IsJoined(env, raws, list, e) && IsKeyOf(env, raws, list, e, KeyFor(env, ids, e).value)
  {
    hide Names.Normalize, Strip;
    var names := env.policy.edges.names;
    var i: nat :| i < |raws| && Norm(env, raws[i]) == names.Normalize(e.src);
    var j: nat :| j < |raws| && Norm(env, raws[j]) == names.Normalize(e.tgt);
    assert Joins(env, raws, list, i, j, e);
  }

  lemma HandedOver(env: Resolving, raws: seq<ExtractedConcept>, list: seq<ResolvedConcept>, key: EdgeKey,
                   e: ExtractedEdge)
    requires |list| == |raws| && IsKeyOf(env, raws, list, e, key)
    ensures IsHandedOver(env, raws, list, e, Incoming(env, key, e))
  {
    hide TruncateText, Names.NormSet, Names.Dedupe, IsKeyOf;
    env.policy.edges.names.DedupeMeaning(e.keywords);
  }

  // ---- the edge loop ----

  /** The positions of the extracted edges that are written, in order, and what is handed to the upsert for each. */
  ghost predicate AreHandedOver(env: Resolving, raws: seq<ExtractedConcept>, list: seq<ResolvedConcept>,
                                es: seq<ExtractedEdge>, n: nat, at: seq<nat>, incoming: seq<Edge>)
    requires |list| == |raws| && n <= |es|
  {
    && |at| == |incoming|
    && (forall m | 0 <= m < |at| :: at[m] < n && IsHandedOver(env, raws, list, es[at[m]], incoming[m]))
    && (forall m, l | 0 <= m < l < |at| :: at[m] < at[l])
    && (forall k: nat | k < n && IsJoined(env, raws, list, es[k]) :: k in at)
  }

  /** The sum of the weights of the extracted edges written under a key. */
  ghost function TotalFor(env: Resolving, raws: seq<ExtractedConcept>, list: seq<ResolvedConcept>,
                          es: seq<ExtractedEdge>, n: nat, key: EdgeKey): real
    requires |list| == |raws| && n <= |es|
  {
    if n == 0 then 0.0
    else
      TotalFor(env, raws, list, es, n - 1, key) +
      if IsKeyOf(env, raws, list, es[n - 1], key) && es[n - 1].weight > 0 then es[n - 1].weight as real else 0.0
  }

  /** Some of the first n extracted edges is written under the key. */
  ghost predicate IsExtracted(env: Resolving, raws: seq<ExtractedConcept>, list: seq<ResolvedConcept>,
                              es: seq<ExtractedEdge>, n: nat, key: EdgeKey)
    requires |list| == |raws| && n <= |es|
  {
    exists k :: 0 <= k < n && IsKeyOf(env, raws, list, es[k], key)
  }

  /** What is handed over adds up to the extracted edges of each key. */
  ghost predicate AddsUp(env: Resolving, raws: seq<ExtractedConcept>, list: seq<ResolvedConcept>,
                         es: seq<ExtractedEdge>, n: nat, incoming: seq<Edge>)
    requires |list| == |raws| && n <= |es|
  {
    forall key :: AddsUpFor(env, raws, list, es, n, incoming, key)
  }

  ghost predicate AddsUpFor(env: Resolving, raws: seq<ExtractedConcept>, list: seq<ResolvedConcept>,
                            es: seq<ExtractedEdge>, n: nat, incoming: seq<Edge>, key: EdgeKey)
    requires |list| == |raws| && n <= |es|
  {
    && Weight(incoming, key) == TotalFor(env, raws, list, es, n, key)
    && (Mentions(incoming, key) <==> IsExtracted(env, raws, list, es, n, key))
  }

  lemma MoreHandedOver(env: Resolving, raws: seq<ExtractedConcept>, list: seq<ResolvedConcept>,
                       es: seq<ExtractedEdge>, n: nat, at: seq<nat>, incoming: seq<Edge>, key: Option<EdgeKey>,
                       last: Edge)
    requires |list| == |raws| && n < |es| && AreHandedOver(env, raws, list, es, n, at, incoming)
    requires key.Some? <==> IsJoined(env, raws, list, es[n])
    requires key.Some? ==> IsHandedOver(env, raws, list, es[n], last)
    ensures AreHandedOver(env, raws, list, es, n + 1, if key.Some? then at + [n] else at,
                          if key.Some? then incoming + [last] else incoming)
  {
    hide IsJoined, IsHandedOver;
    if key.Some? {
      var longer, more := at + [n], incoming + [last];
      forall m: nat | m < |longer| ensures longer[m] < n + 1 && IsHandedOver(env, raws, list, es[longer[m]], more[m]) {
        if m < |at| { assert longer[m] == at[m] && more[m] == incoming[m]; }
      }
      forall k: nat | k < n + 1 && IsJoined(env, raws, list, es[k]) ensures k in longer {
        if k == n { assert longer[|at|] == n; } else { assert k in at; }
      }
    }
  }

  lemma MoreAddsUp(env: Resolving, raws: seq<ExtractedConcept>, list: seq<ResolvedConcept>, es: seq<ExtractedEdge>,
                   n: nat, incoming: seq<Edge>, key: Option<EdgeKey>, last: Edge)
    requires |list| == |raws| && n < |es| && AddsUp(env, raws, list, es, n, incoming)
    requires forall other :: IsKeyOf(env, raws, list, es[n], other) <==> key == Some(other)
    requires key.Some? ==> IsHandedOver(env, raws, list, es[n], last)
    ensures AddsUp(env, raws, list, es, n + 1, if key.Some? then incoming + [last] else incoming)
  {
    hide TotalFor, IsKeyOf, Mentions, Weight, TruncateText, Names.IsDeduped, Names.NormSet;
    var after, m := if key.Some? then incoming + [last] else incoming, n + 1;
    forall other ensures AddsUpFor(env, raws, list, es, m, after, other) {
      TotalStep(env, raws, list, es, n, other);
      assert AddsUpFor(env, raws, list, es, n, incoming, other);
      if key.Some? {
        WeightAppend(incoming, last, other);
        MentionsAppend(incoming, last, other);
      }
    }
  }

  lemma TotalStep(env: Resolving, raws: seq<ExtractedConcept>, list: seq<ResolvedConcept>, es: seq<ExtractedEdge>,
                  n: nat, key: EdgeKey)
    requires |list| == |raws| && n < |es|
    ensures TotalFor(env, raws, list, es, n + 1, key) ==
              TotalFor(env, raws, list, es, n, key) +
              if IsKeyOf(env, raws, list, es[n], key) && es[n].weight > 0 then es[n].weight as real else 0.0
  {
  }

  /** Only the edge table and the provenance change, and provenance is added for exactly the rows written to. */
  ghost predicate WritesEdges(policy: EdgePolicy, chunk: int, t: Tables, after: Tables, incoming: seq<Edge>)
    requires Ready(policy, t)
  {
    && EdgeRows(after.edges, after.nextEdge) == UpsertAll(policy, EdgeRows(t.edges, t.nextEdge), incoming)
    && after == t.(edges := after.edges, nextEdge := after.nextEdge, provenance := after.provenance)
    && AddsProvenance(chunk, t, after, incoming)
  }

  ghost predicate AddsProvenance(chunk: int, t: Tables, after: Tables, incoming: seq<Edge>) {
    forall p :: p in after.provenance <==>
                p in t.provenance || (p.1 == chunk && p.0.EdgeTarget? && IsRowOf(after, p.0.id, incoming))
  }

  ghost predicate IsRowOf(t: Tables, row: int, incoming: seq<Edge>) {
    row in t.edges && Mentions(incoming, t.edges[row].key)
  }

  lemma {:induction false} EdgesAreHandedOver(env: Resolving, chunk: int, raws: seq<ExtractedConcept>,
                                              list: seq<ResolvedConcept>, ids: map<string, int>, t: Tables,
                                              es: seq<ExtractedEdge>, n: nat)
    returns (at: seq<nat>, incoming: seq<Edge>)
    requires Usable(env, chunk, t) && AllExist(t, ids) && n <= |es|
    requires |raws| == |list| && (forall i | 0 <= i < |raws| :: Norm(env, raws[i]) != "") && DistinctNames(env, raws)
    requires ids == Endpoints(env, raws, list, |raws|)
    ensures AreHandedOver(env, raws, list, es, n, at, incoming) && AddsUp(env, raws, list, es, n, incoming)
    ensures var b := EdgesBuilt(env, chunk, ids, t, es, n);
            b.upserted == |at| && Ready(env.policy.edges, t) && WritesEdges(env.policy.edges, chunk, t, b.t, incoming)
  {
    hide Usable, EdgesBuilt, EdgeBuilt, KeyFor, IsJoined, IsHandedOver, IsKeyOf, Endpoints, DistinctNames, Norm,
      AllExist, Upsert, UpsertAll, AreHandedOver, AddsUp, Incoming, Ready, WritesEdges, EdgesAccounted, Onward;
    at, incoming := [], [];
    UsableIsReady(env, chunk, t);
    if n == 0 {
      NoEdges(env, chunk, ids, t, es);
      NothingHandedOver(env, chunk, raws, list, t, es);
    } else {
      at, incoming := EdgesAreHandedOver(env, chunk, raws, list, ids, t, es, n - 1);
      var front := incoming;
      EdgesBuiltStep(env, chunk, ids, t, es, n - 1);
      var before := EdgesBuilt(env, chunk, ids, t, es, n - 1);
      KeyForMeaning(env, raws, list, ids, es[n - 1]);
      var key := KeyFor(env, ids, es[n - 1]);
      var last := Incoming(env, if key.Some? then key.value else EdgeKey(0, 0, ""), es[n - 1]);
      if key.Some? { HandedOver(env, raws, list, key.value, es[n - 1]); }
      MoreHandedOver(env, raws, list, es, n - 1, at, incoming, key, last);
      MoreAddsUp(env, raws, list, es, n - 1, incoming, key, last);
      OneMoreWritten(env, chunk, t, before, ids, es[n - 1], front);
      if key.Some? { at, incoming := at + [n - 1], incoming + [last]; }
    }
  }

  lemma NothingHandedOver(env: Resolving, chunk: int, raws: seq<ExtractedConcept>, list: seq<ResolvedConcept>,
                          t: Tables, es: seq<ExtractedEdge>)
    requires |list| == |raws| && Ready(env.policy.edges, t)
    ensures AreHandedOver(env, raws, list, es, 0, [], []) && AddsUp(env, raws, list, es, 0, [])
    ensures WritesEdges(env.policy.edges, chunk, t, t, [])
  {
  }

  lemma OneMoreWritten(env: Resolving, chunk: int, t: Tables, before: Built, ids: map<string, int>, e: ExtractedEdge,
                       front: seq<Edge>)
    requires Ready(env.policy.edges, t) && Ready(env.policy.edges, before.t)
    requires WritesEdges(env.policy.edges, chunk, t, before.t, front)
    ensures var key := KeyFor(env, ids, e);
            var after := EdgeBuilt(env, chunk, ids, before, e);
            && (key.None? ==> after == before)
            && (key.Some? ==>
                  && after.upserted == before.upserted + 1
                  && WritesEdges(env.policy.edges, chunk, t, after.t, front + [Incoming(env, key.value, e)]))
  {
    hide KeyFor, Incoming, Upsert, UpsertAll, Valid, AddsProvenance;
    var key := KeyFor(env, ids, e);
    if key.Some? {
      RowsProper(env.policy.edges, t);
      RowsProper(env.policy.edges, before.t);
      UpsertAllAppend(env.policy.edges, Rows(t), front, Incoming(env, key.value, e));
      IncomingKey(env, key.value, e);
      ProvenanceAdded(env.policy.edges, chunk, t, before.t, front, Incoming(env, key.value, e));
    }
  }

  lemma ProvenanceAdded(policy: EdgePolicy, chunk: int, t: Tables, before: Tables, front: seq<Edge>, edge: Edge)
    requires Ready(policy, before) && Proper(Rows(before), policy) && edge.key.src != edge.key.tgt
    requires AddsProvenance(chunk, t, before, front)
    ensures var (edges, id) := Upsert(policy, Rows(before), edge);
            AddsProvenance(chunk, t, before.(edges := edges.rows, nextEdge := edges.next,
                                             provenance := before.provenance + {(EdgeTarget(id), chunk)}),
                           front + [edge])
  {
    UpsertMeaning(policy, Rows(before), edge);
    hide Upsert, Mentions, Ready;
    var (edges, id) := Upsert(policy, Rows(before), edge);
    var after := before.(edges := edges.rows, nextEdge := edges.next,
                         provenance := before.provenance + {(EdgeTarget(id), chunk)});
    forall row ensures IsRowOf(after, row, front + [edge]) <==> IsRowOf(before, row, front) || row == id {
      if row in after.edges { MentionsAppend(front, edge, after.edges[row].key); }
    }
  }

  lemma RowsProper(policy: EdgePolicy, t: Tables)
    requires Ready(policy, t)
    ensures Proper(EdgeRows(t.edges, t.nextEdge), policy)
  {
  }

  lemma IncomingKey(env: Resolving, key: EdgeKey, e: ExtractedEdge)
    ensures Incoming(env, key, e).key == key
  {
  }

  // ---- the window ----

  /** The edges of a finished window: the extracted edges whose ends are different concepts of the window are upserted
      in order, each from its source to its target, provenance in the chunk is added for exactly their rows, and
      nothing else is written after the concepts. */
  lemma WindowHandsOver(cfg: BuildConfig, w: ExtractedWindow, t: Tables, left: Allowance, tick: nat)
    returns (at: seq<nat>, incoming: seq<Edge>)
    requires Usable(cfg.env, w.chunk, t) && !WindowBuilt(cfg, w, t, left, tick).failed
    ensures var r, raws := WindowBuilt(cfg, w, t, left, tick), cfg.ConceptsOf(w);
            var found := Resolved(cfg.env, w.chunk, t, raws, left, tick).w;
            var list := InOrder(found.results);
            && |list| == |raws| && Ready(cfg.env.policy.edges, found.t)
            && AreHandedOver(cfg.env, raws, list, cfg.EdgesOf(w), |cfg.EdgesOf(w)|, at, incoming)
            && AddsUp(cfg.env, raws, list, cfg.EdgesOf(w), |cfg.EdgesOf(w)|, incoming)
            && WritesEdges(cfg.env.policy.edges, w.chunk, found.t, r.t, incoming) && r.upserted == |at|
  {
    hide Usable, Resolved, AllExist, EdgesBuilt, BuildConfig.ConceptsOf, BuildConfig.EdgesOf, InOrder, Norm, Endpoints,
      CountCreated, KeyFor, EdgesAccounted, Ready, LooksUpActive, Has, AreHandedOver, AddsUp, WritesEdges, WindowBuilt,
      DistinctNames, IsRecorded, MayBeRefused;
    WindowBuiltIs(cfg, w, t, left, tick);
    var raws, es := cfg.ConceptsOf(w), cfg.EdgesOf(w);
    ExtractionNames(cfg, w);
    var found := Resolved(cfg.env, w.chunk, t, raws, left, tick);
    var list := InOrder(found.w.results);
    at, incoming := EdgesAreHandedOver(cfg.env, w.chunk, raws, list, Endpoints(cfg.env, raws, list, |raws|), found.w.t,
                                       es, |es|);
  }

  /** What extracted edges may have as one row's key after the window: a row changed or new is written under a key of
      theirs and has provenance. */
  ghost predicate IsWritten(cfg: BuildConfig, w: ExtractedWindow, raws: seq<ExtractedConcept>,
                            list: seq<ResolvedConcept>, es: seq<ExtractedEdge>, after: Tables, row: int)
    requires |list| == |raws|
  {
    && row in after.edges && IsExtracted(cfg.env, raws, list, es, |es|, after.edges[row].key)
    && (EdgeTarget(row), w.chunk) in after.provenance
  }

  /** In a finished window: an extracted edge whose source and target name two concepts that became different rows has
      a row from the one to the other with its relation, and any row that the resolver did not leave as it is was
      written for such an edge and has provenance in the chunk. */
  lemma WindowEdges(cfg: BuildConfig, w: ExtractedWindow, t: Tables, left: Allowance, tick: nat)
    requires Usable(cfg.env, w.chunk, t) && !WindowBuilt(cfg, w, t, left, tick).failed
    ensures var r, raws, es := WindowBuilt(cfg, w, t, left, tick), cfg.ConceptsOf(w), cfg.EdgesOf(w);
            var found := Resolved(cfg.env, w.chunk, t, raws, left, tick).w;
            var list := InOrder(found.results);
            && |list| == |raws| && r.t.concepts == found.t.concepts && r.t.aliases == found.t.aliases
            && (forall i: nat, j: nat, k: nat | k < |es| && Joins(cfg.env, raws, list, i, j, es[k]) ::
                  Has(r.t.edges, EdgeKey(list[i].id, list[j].id, Strip(es[k].relation))))
            && (forall row | row in r.t.edges ::
                  || (row in found.t.edges && r.t.edges[row] == found.t.edges[row])
                  || IsWritten(cfg, w, raws, list, es, r.t, row))
            && (forall p | p in r.t.provenance && p !in found.t.provenance ::
                  p.1 == w.chunk && p.0.EdgeTarget? && IsWritten(cfg, w, raws, list, es, r.t, p.0.id))
  {
    hide *;
    var at, incoming := WindowHandsOver(cfg, w, t, left, tick);
    var r, raws, es := WindowBuilt(cfg, w, t, left, tick), cfg.ConceptsOf(w), cfg.EdgesOf(w);
    var found := Resolved(cfg.env, w.chunk, t, raws, left, tick).w;
    var list := InOrder(found.results);
    WrittenRows(cfg, w, raws, list, es, found.t, r.t, at, incoming);
  }

  lemma WrittenRows(cfg: BuildConfig, w: ExtractedWindow, raws: seq<ExtractedConcept>, list: seq<ResolvedConcept>,
                    es: seq<ExtractedEdge>, t: Tables, after: Tables, at: seq<nat>, incoming: seq<Edge>)
    requires |list| == |raws| && Ready(cfg.env.policy.edges, t)
    requires AreHandedOver(cfg.env, raws, list, es, |es|, at, incoming)
    requires AddsUp(cfg.env, raws, list, es, |es|, incoming)
    requires WritesEdges(cfg.env.policy.edges, w.chunk, t, after, incoming)
    ensures after.concepts == t.concepts && after.aliases == t.aliases
    ensures forall i: nat, j: nat, k: nat | k < |es| && Joins(cfg.env, raws, list, i, j, es[k]) ::
              Has(after.edges, EdgeKey(list[i].id, list[j].id, Strip(es[k].relation)))
    ensures forall row | row in after.edges ::
              || (row in t.edges && after.edges[row] == t.edges[row])
              || IsWritten(cfg, w, raws, list, es, after, row)
    ensures forall p | p in after.provenance && p !in t.provenance ::
              p.1 == w.chunk && p.0.EdgeTarget? && IsWritten(cfg, w, raws, list, es, after, p.0.id)
  {
    hide AreHandedOver, TotalFor, Upsert, UpsertAll, Ready, Names.Normalize, Mentions, Weight, Strip, IsExtracted,
      IsKeyOf, Has, WeightAt;
    var policy := cfg.env.policy.edges;
    RowsProper(policy, t);
    assert AddsProvenance(w.chunk, t, after, incoming);
    forall key ensures Mentions(incoming, key) <==> IsExtracted(cfg.env, raws, list, es, |es|, key) {
      assert AddsUpFor(cfg.env, raws, list, es, |es|, incoming, key);
    }
    forall row | row in after.edges && !(row in t.edges && after.edges[row] == t.edges[row])
      ensures IsWritten(cfg, w, raws, list, es, after, row)
    {
      OthersStay(policy, Rows(t), incoming, row);
      assert IsRowOf(after, row, incoming);
    }
    forall i: nat, j: nat, k: nat | k < |es| && Joins(cfg.env, raws, list, i, j, es[k])
      ensures Has(after.edges, EdgeKey(list[i].id, list[j].id, Strip(es[k].relation)))
    {
      var key := EdgeKey(list[i].id, list[j].id, Strip(es[k].relation));
      JoinedKey(cfg.env, raws, list, es, i, j, k);
      UpsertAllWeights(policy, Rows(t), incoming, key);
    }
  }

  lemma JoinedKey(env: Resolving, raws: seq<ExtractedConcept>, list: seq<ResolvedConcept>, es: seq<ExtractedEdge>,
                  i: nat, j: nat, k: nat)
    requires |list| == |raws| && k < |es| && Joins(env, raws, list, i, j, es[k])
    ensures IsExtracted(env, raws, list, es, |es|, EdgeKey(list[i].id, list[j].id, Strip(es[k].relation)))
    ensures list[i].id != list[j].id
  {
    assert IsKeyOf(env, raws, list, es[k], EdgeKey(list[i].id, list[j].id, Strip(es[k].relation)));
  }

  lemma {:induction false} OthersStay(policy: EdgePolicy, es: EdgeRows, incoming: seq<Edge>, row: int)
    requires Proper(es, policy) && row in UpsertAll(policy, es, incoming).rows
    ensures var after := UpsertAll(policy, es, incoming);
            Mentions(incoming, after.rows[row].key) || (row in es.rows && after.rows[row] == es.rows[row])
  {
    if incoming != [] {
      var front, e := incoming[..|incoming| - 1], incoming[|incoming| - 1];
      assert incoming == front + [e];
      UpsertAllAppend(policy, es, front, e);
      var mid, after := UpsertAll(policy, es, front), UpsertAll(policy, es, incoming);
      MentionsAppend(front, e, after.rows[row].key);
      if e.key.src != e.key.tgt { UpsertMeaning(policy, mid, e); }
      hide UpsertAll, Upsert, Mentions;
      if row in mid.rows { OthersStay(policy, es, front, row); }
    }
  }

  /** In a finished window every key has the weight it had after the concepts plus the weights of its extracted edges,
      up to the cap, and the counters are the numbers of edges written, of concepts created and of concepts merged. */
  lemma WindowTotals(cfg: BuildConfig, w: ExtractedWindow, t: Tables, left: Allowance, tick: nat)
    requires Usable(cfg.env, w.chunk, t) && !WindowBuilt(cfg, w, t, left, tick).failed
    ensures var r, raws, es := WindowBuilt(cfg, w, t, left, tick), cfg.ConceptsOf(w), cfg.EdgesOf(w);
            var found := Resolved(cfg.env, w.chunk, t, raws, left, tick).w;
            var list := InOrder(found.results);
            && |list| == |raws|
            && (forall key: EdgeKey, own: real | key.src != key.tgt && Weighs(found.t.edges, key, own) ::
                  Weighs(r.t.edges, key,
                         if IsExtracted(cfg.env, raws, list, es, |es|, key)
                         then MinReal(own + TotalFor(cfg.env, raws, list, es, |es|, key),
                                      cfg.env.policy.edges.weightCap)
                         else own))
            && r.upserted == |set k: nat | k < |es| && IsJoined(cfg.env, raws, list, es[k])|
            && r.created == |Having(list, |list|, true)| && r.merged == |Having(list, |list|, false)|
  {
    hide *;
    var at, incoming := WindowHandsOver(cfg, w, t, left, tick);
    var r, raws, es := WindowBuilt(cfg, w, t, left, tick), cfg.ConceptsOf(w), cfg.EdgesOf(w);
    var found := Resolved(cfg.env, w.chunk, t, raws, left, tick).w;
    var list := InOrder(found.results);
    forall key: EdgeKey, own: real | key.src != key.tgt && Weighs(found.t.edges, key, own)
      ensures Weighs(r.t.edges, key,
                     if IsExtracted(cfg.env, raws, list, es, |es|, key)
                     then MinReal(own + TotalFor(cfg.env, raws, list, es, |es|, key), cfg.env.policy.edges.weightCap)
                     else own)
    {
      WrittenWeight(cfg, w, raws, list, es, found.t, r.t, incoming, key, own);
    }
    WrittenCount(cfg.env, raws, list, es, at, incoming);
    WindowBuiltIs(cfg, w, t, left, tick);
    CreatedCount(list, |list|);
  }

  lemma WrittenWeight(cfg: BuildConfig, w: ExtractedWindow, raws: seq<ExtractedConcept>, list: seq<ResolvedConcept>,
                      es: seq<ExtractedEdge>, t: Tables, after: Tables, incoming: seq<Edge>, key: EdgeKey, own: real)
    requires |list| == |raws| && Ready(cfg.env.policy.edges, t) && AddsUp(cfg.env, raws, list, es, |es|, incoming)
    requires WritesEdges(cfg.env.policy.edges, w.chunk, t, after, incoming)
    requires key.src != key.tgt && Weighs(t.edges, key, own)
    ensures Weighs(after.edges, key,
                   if IsExtracted(cfg.env, raws, list, es, |es|, key)
                   then MinReal(own + TotalFor(cfg.env, raws, list, es, |es|, key), cfg.env.policy.edges.weightCap)
                   else own)
  {
    hide TotalFor, Upsert, UpsertAll, Ready, Mentions, Weight, IsExtracted, Has, WeightAt, Weighs, AddsProvenance,
      UniqueKeys;
    var policy := cfg.env.policy.edges;
    RowsProper(policy, t);
    assert AddsUpFor(cfg.env, raws, list, es, |es|, incoming, key);
    WeightIs(t.edges, key, own);
    UpsertAllWeights(policy, Rows(t), incoming, key);
    WeightIs(after.edges, key,
             if IsExtracted(cfg.env, raws, list, es, |es|, key)
             then MinReal(own + TotalFor(cfg.env, raws, list, es, |es|, key), policy.weightCap) else own);
  }

  lemma WrittenCount(env: Resolving, raws: seq<ExtractedConcept>, list: seq<ResolvedConcept>, es: seq<ExtractedEdge>,
                     at: seq<nat>, incoming: seq<Edge>)
    requires |list| == |raws| && AreHandedOver(env, raws, list, es, |es|, at, incoming)
    ensures |at| == |set k: nat | k < |es| && IsJoined(env, raws, list, es[k])|
  {
    hide Joins, TruncateText, Names.IsDeduped, Names.NormSet;
    var joined := set k: nat | k < |es| && IsJoined(env, raws, list, es[k]);
    forall k: nat ensures k in at <==> k in joined {
      if k in at {
        var m :| 0 <= m < |at| && at[m] == k;
        assert IsKeyOf(env, raws, list, es[k], incoming[m].key);
      }
    }
    DistinctCount(at, joined);
  }

  lemma {:induction false} DistinctCount(xs: seq<nat>, s: set<nat>)
    requires (forall k :: k in xs <==> k in s) && forall m, l | 0 <= m < l < |xs| :: xs[m] < xs[l]
    ensures |xs| == |s|
  {
    if xs == [] {
      assert s == {};
    } else {
      var front, last := xs[..|xs| - 1], xs[|xs| - 1];
      assert last in xs;
      forall k ensures k in front <==> k in s - {last} {
        if k in s - {last} {
          var m :| 0 <= m < |xs| && xs[m] == k;
          assert front[m] == k;
        }
      }
      DistinctCount(front, s - {last});
    }
  }

  /** The first n concepts that were created, or that were not. */
  function Having(list: seq<ResolvedConcept>, n: nat, created: bool): set<nat>
    requires n <= |list|
  {
    set i: nat | i < n && list[i].created == created
  }

  lemma HavingStep(list: seq<ResolvedConcept>, n: nat, created: bool)
    requires n < |list|
    ensures Having(list, n + 1, created) == Having(list, n, created) + if list[n].created == created then {n} else {}
    ensures n !in Having(list, n, created)
  {
  }

  lemma {:induction false} CreatedCount(list: seq<ResolvedConcept>, n: nat)
    requires n <= |list|
    ensures CountCreated(list, n) == |Having(list, n, true)| && n - CountCreated(list, n) == |Having(list, n, false)|
  {
    hide Having;
    if n == 0 {
      NoneHas(list);
    } else {
      CreatedCount(list, n - 1);
      HavingStep(list, n - 1, true);
      HavingStep(list, n - 1, false);
    }
  }

  lemma NoneHas(list: seq<ResolvedConcept>)
    ensures Having(list, 0, true) == Having(list, 0, false) == {}
  {
  }
}
