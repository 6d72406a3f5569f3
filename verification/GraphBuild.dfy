/** Building the graph of a document window by window (domain/graph/pipeline.py, build_graph_for_chunks). */
module GraphBuild {
  import opened Wrappers
  import opened Sequences
  import opened Text
  import opened GraphTables
  import opened EdgeTable
  import opened GardenerMerge
  import opened Extraction
  import opened ResolverDecisions
  import opened ResolverApply
  import opened Resolver
  import GraphWindows
  import Packing

  /** One window with the validated payload extracted from its text; a payload that failed validation is empty. */
  datatype ExtractedWindow = ExtractedWindow(chunk: int, text: string, concepts: seq<ConceptPayload>,
                                             edges: seq<EdgePayload>)

  datatype BuildConfig = BuildConfig(env: Resolving, conceptMaxChars: int, edgeMaxChars: int) {
    function NormalizerOf(w: ExtractedWindow): Normalizer {
      Normalizer(env.policy.edges.names, w.text, conceptMaxChars, edgeMaxChars)
    }
    function ConceptsOf(w: ExtractedWindow): seq<ExtractedConcept> { NormalizerOf(w).Concepts(w.concepts) }
    function EdgesOf(w: ExtractedWindow): seq<ExtractedEdge> { NormalizerOf(w).Edges(w.edges) }
  }

  /** What extraction emits always resolves to one result per concept: no name is blank and no two agree. */
  lemma ExtractionNames(cfg: BuildConfig, w: ExtractedWindow)
    ensures DistinctNames(cfg.env, cfg.ConceptsOf(w))
    ensures forall i | 0 <= i < |cfg.ConceptsOf(w)| :: Norm(cfg.env, cfg.ConceptsOf(w)[i]) != ""
  {
    hide Normalizer.Concepts;
    cfg.NormalizerOf(w).NamesAreDistinct(w.concepts);
  }

  // ---- edges of a window ----

  /** resolved_in_chunk: the ids of the first n concepts by normalized name. */
  function Endpoints(env: Resolving, raws: seq<ExtractedConcept>, list: seq<ResolvedConcept>, n: nat): map<string, int>
    requires n <= |raws| && n <= |list|
  {
    if n == 0 then map[] else Endpoints(env, raws, list, n - 1)[Norm(env, raws[n - 1]) := list[n - 1].id]
  }

  /** The key of an extracted edge whose ends are both resolved, to different concepts. */
  function KeyFor(env: Resolving, ids: map<string, int>, e: ExtractedEdge): (r: Option<EdgeKey>)
    ensures r.Some? ==> r.value.src in ids.Values && r.value.tgt in ids.Values && r.value.src != r.value.tgt
  {
    var src, tgt := env.policy.edges.names.Normalize(e.src), env.policy.edges.names.Normalize(e.tgt);
    if src !in ids || tgt !in ids || ids[src] == ids[tgt] then None
    else Some(EdgeKey(ids[src], ids[tgt], Strip(e.relation)))
  }

  /** The edge handed to the canonical upsert. */
  function Incoming(env: Resolving, key: EdgeKey, e: ExtractedEdge): Edge {
    Edge(key, TruncateText(Some(e.description), env.policy.edges.maxChars), env.policy.edges.names.Dedupe(e.keywords),
         MaxReal(0.0, e.weight as real))
  }

  datatype Built = Built(t: Tables, upserted: nat)

  /** One extracted edge: skipped, or upserted with its provenance. */
  function EdgeBuilt(env: Resolving, chunk: int, ids: map<string, int>, b: Built, e: ExtractedEdge): Built
    requires Ready(env.policy.edges, b.t)
  {
    match KeyFor(env, ids, e)
    case None => b
    case Some(key) =>
      var (edges, id) := Upsert(env.policy.edges, Rows(b.t), Incoming(env, key, e));
      Built(b.t.(edges := edges.rows, nextEdge := edges.next,
                 provenance := b.t.provenance + {(EdgeTarget(id), chunk)}), b.upserted + 1)
  }

  ghost predicate AllExist(t: Tables, ids: map<string, int>) { forall a | a in ids :: ids[a] in t.concepts }

  /** An edge row is as before, or joins two different concepts of the window and has provenance in its chunk. */
  ghost predicate IsAccounted(chunk: int, ids: map<string, int>, t: Tables, after: Tables, row: int)
    requires row in after.edges
  {
    || (row in t.edges && after.edges[row] == t.edges[row])
    || (var key := after.edges[row].key;
        key.src in ids.Values && key.tgt in ids.Values && key.src != key.tgt &&
          (EdgeTarget(row), chunk) in after.provenance)
  }

  ghost predicate EdgesAccounted(chunk: int, ids: map<string, int>, t: Tables, after: Tables) {
    forall row | row in after.edges :: IsAccounted(chunk, ids, t, after, row)
  }

  lemma EdgeBuiltMeaning(env: Resolving, chunk: int, ids: map<string, int>, b: Built, e: ExtractedEdge)
    requires Usable(env, chunk, b.t) && AllExist(b.t, ids)
    ensures var r := EdgeBuilt(env, chunk, ids, b, e);
            && Onward(env, chunk, b.t, r.t) && r.t.concepts == b.t.concepts && r.t.aliases == b.t.aliases
            && EdgesAccounted(chunk, ids, b.t, r.t)
            && (KeyFor(env, ids, e).Some? ==> Has(r.t.edges, KeyFor(env, ids, e).value))
  {
    hide KeyFor, LooksUpActive, Upsert, TruncateText, Names.Dedupe, Valid, Grew;
    match KeyFor(env, ids, e) {
      case None => OnwardSelf(env, chunk, b.t);
      case Some(key) =>
        RowIsSound(env, chunk, b.t);
        UpsertMeaning(env.policy.edges, Rows(b.t), Incoming(env, key, e));
        RowWritten(env, chunk, b.t, Incoming(env, key, e));
    }
  }

  lemma RowIsSound(env: Resolving, chunk: int, t: Tables)
    requires Usable(env, chunk, t)
    ensures Sound(Rows(t)) && env.policy.edges.weightCap >= 0.0
  {
  }

  /** One edge row upserted with its provenance. */
  lemma RowWritten(env: Resolving, chunk: int, t: Tables, edge: Edge)
    requires Usable(env, chunk, t) && edge.key.src in t.concepts && edge.key.tgt in t.concepts
    requires edge.key.src != edge.key.tgt && Sound(Rows(t)) && env.policy.edges.weightCap >= 0.0
    ensures var (edges, id) := Upsert(env.policy.edges, Rows(t), edge);
            var after := t.(edges := edges.rows, nextEdge := edges.next,
                            provenance := t.provenance + {(EdgeTarget(id), chunk)});
            Valid(after) && Grew(t, after)
  {
    UpsertMeaning(env.policy.edges, Rows(t), edge);
    hide Upsert, EdgesAreSound, LooksUpActive, Grew, ChunkKeysHold, ConceptKeysHold;
    var (edges, id) := Upsert(env.policy.edges, Rows(t), edge);
    RowKeepsKeys(t, edges, id, chunk, edge);
    RowGrows(t, edges, id, chunk);
  }

  lemma RowKeepsKeys(t: Tables, edges: EdgeRows, id: int, chunk: int, edge: Edge)
    requires Valid(t) && chunk in t.chunks && edge.key.src in t.concepts && edge.key.tgt in t.concepts
    requires id in edges.rows && edges.rows[id].key == edge.key
    requires forall e | e in edges.rows :: e == id || (e in t.edges && edges.rows[e].key == t.edges[e].key)
    ensures var after := t.(edges := edges.rows, nextEdge := edges.next,
                            provenance := t.provenance + {(EdgeTarget(id), chunk)});
            ChunkKeysHold(after) && ConceptKeysHold(after)
  {
    hide RowsAreSound;
  }

  lemma RowGrows(t: Tables, edges: EdgeRows, id: int, chunk: int)
    requires t.nextEdge <= edges.next
    requires forall e | e in t.edges :: e in edges.rows && edges.rows[e].key == t.edges[e].key
    ensures Grew(t, t.(edges := edges.rows, nextEdge := edges.next,
                       provenance := t.provenance + {(EdgeTarget(id), chunk)}))
  {
  }

  lemma AccountedTransitive(env: Resolving, chunk: int, ids: map<string, int>, t: Tables, mid: Tables, after: Tables)
    requires EdgesAccounted(chunk, ids, t, mid) && EdgesAccounted(chunk, ids, mid, after) && Grew(mid, after)
    ensures EdgesAccounted(chunk, ids, t, after)
  {
    forall row | row in after.edges ensures IsAccounted(chunk, ids, t, after, row) {
      assert IsAccounted(chunk, ids, mid, after, row);
      assert row in mid.edges ==> IsAccounted(chunk, ids, t, mid, row);
    }
  }

  /** The first n extracted edges. */
  function EdgesBuilt(env: Resolving, chunk: int, ids: map<string, int>, t: Tables, es: seq<ExtractedEdge>,
                      n: nat): (r: Built)
    requires Usable(env, chunk, t) && AllExist(t, ids) && n <= |es|
    ensures Onward(env, chunk, t, r.t) && r.t.concepts == t.concepts && r.t.aliases == t.aliases
    ensures EdgesAccounted(chunk, ids, t, r.t)
  {
    hide Usable, Onward, EdgesAccounted, EdgeBuilt;
    if n == 0 then
      NothingBuilt(env, chunk, ids, t);
      Built(t, 0)
    else
      var before := EdgesBuilt(env, chunk, ids, t, es, n - 1);
      OnwardUsable(env, chunk, t, before.t);
      EdgeBuiltMeaning(env, chunk, ids, before, es[n - 1]);
      UsableIsReady(env, chunk, before.t);
      var after := EdgeBuilt(env, chunk, ids, before, es[n - 1]);
      OnwardTransitive(env, chunk, t, before.t, after.t);
      OnwardUsable(env, chunk, before.t, after.t);
      AccountedTransitive(env, chunk, ids, t, before.t, after.t);
      after
  }

  lemma NothingBuilt(env: Resolving, chunk: int, ids: map<string, int>, t: Tables)
    requires Usable(env, chunk, t)
    ensures Onward(env, chunk, t, t) && EdgesAccounted(chunk, ids, t, t)
  {
    OnwardSelf(env, chunk, t);
  }

  lemma UsableIsReady(env: Resolving, chunk: int, t: Tables)
    requires Usable(env, chunk, t)
    ensures Ready(env.policy.edges, t)
  {
  }

  lemma EdgesBuiltStep(env: Resolving, chunk: int, ids: map<string, int>, t: Tables, es: seq<ExtractedEdge>, n: nat)
    requires Usable(env, chunk, t) && AllExist(t, ids) && n < |es|
    ensures var before := EdgesBuilt(env, chunk, ids, t, es, n);
            && Usable(env, chunk, before.t) && Ready(env.policy.edges, before.t)
            && EdgesBuilt(env, chunk, ids, t, es, n + 1) == EdgeBuilt(env, chunk, ids, before, es[n])
  {
    hide Usable, Onward, EdgesAccounted, EdgeBuilt;
    OnwardUsable(env, chunk, t, EdgesBuilt(env, chunk, ids, t, es, n).t);
    UsableIsReady(env, chunk, EdgesBuilt(env, chunk, ids, t, es, n).t);
  }

  /** Every extracted edge with two resolved, different ends has a row in the end. */
  lemma {:induction false} NoEdgeIsLost(env: Resolving, chunk: int, ids: map<string, int>, t: Tables,
                                        es: seq<ExtractedEdge>, n: nat, k: nat)
    requires Usable(env, chunk, t) && AllExist(t, ids) && k < n <= |es| && KeyFor(env, ids, es[k]).Some?
    ensures Has(EdgesBuilt(env, chunk, ids, t, es, n).t.edges, KeyFor(env, ids, es[k]).value)
  {
    hide Usable, Onward, EdgesAccounted, EdgeBuilt, EdgesBuilt, KeyFor, Grew;
    EdgesBuiltStep(env, chunk, ids, t, es, n - 1);
    var before := EdgesBuilt(env, chunk, ids, t, es, n - 1);
    EdgeBuiltMeaning(env, chunk, ids, before, es[n - 1]);
    if k < n - 1 {
      NoEdgeIsLost(env, chunk, ids, t, es, n - 1, k);
      OnwardUsable(env, chunk, before.t, EdgesBuilt(env, chunk, ids, t, es, n).t);
      KeysAreKept(before.t, EdgesBuilt(env, chunk, ids, t, es, n).t, KeyFor(env, ids, es[k]).value);
    }
  }

  lemma KeysAreKept(t: Tables, after: Tables, key: EdgeKey)
    requires Grew(t, after) && Has(t.edges, key)
    ensures Has(after.edges, key)
  {
    var e :| e in t.edges && t.edges[e].key == key;
    assert e in after.edges && after.edges[e].key == key;
  }

  /** The edge loop of one window. */
  method BuildEdges(db: Session, env: Resolving, chunk: int, ids: map<string, int>, es: seq<ExtractedEdge>)
    returns (upserted: nat)
    requires Usable(env, chunk, db.tables) && AllExist(db.tables, ids)
    modifies db
    ensures EdgesBuilt(env, chunk, ids, old(db.tables), es, |es|) == Built(db.tables, upserted)
  {
    hide Usable, Onward, EdgesBuilt, EdgesAccounted, Upsert, Incoming, Ready;
    ghost var t := db.tables;
    NoEdges(env, chunk, ids, t, es);
    upserted := 0;
    for k := 0 to |es|
      invariant EdgesBuilt(env, chunk, ids, t, es, k) == Built(db.tables, upserted)
    {
      EdgesBuiltStep(env, chunk, ids, t, es, k);
      RowsSound(env.policy, db.tables);
      var e := es[k];
      var src, tgt := env.policy.edges.names.Normalize(e.src), env.policy.edges.names.Normalize(e.tgt);
      if src !in ids || tgt !in ids {
        continue;
      }
      if ids[src] == ids[tgt] {
        continue;
      }
      var (edges, id) := Upsert(env.policy.edges, Rows(db.tables),
                                Incoming(env, EdgeKey(ids[src], ids[tgt], Strip(e.relation)), e));
      db.tables := db.tables.(edges := edges.rows, nextEdge := edges.next);
      db.tables := db.tables.(provenance := db.tables.provenance + {(EdgeTarget(id), chunk)});
      upserted := upserted + 1;
    }
  }

  lemma NoEdges(env: Resolving, chunk: int, ids: map<string, int>, t: Tables, es: seq<ExtractedEdge>)
    requires Usable(env, chunk, t) && AllExist(t, ids)
    ensures EdgesBuilt(env, chunk, ids, t, es, 0) == Built(t, 0)
  {
  }

  // ---- one window ----

  /** After one window: the tables, whether a statement was refused, the calls still allowed and the counters. */
  datatype WindowDone = WindowDone(t: Tables, failed: bool, left: Allowance, created: nat, merged: nat, upserted: nat)

  function CountCreated(list: seq<ResolvedConcept>, n: nat): nat
    requires n <= |list|
  {
    if n == 0 then 0 else CountCreated(list, n - 1) + if list[n - 1].created then 1 else 0
  }

  function Shorter<S, T>(a: seq<S>, b: seq<T>): nat { if |a| <= |b| then |a| else |b| }

  lemma {:induction false} EndpointsKnown(env: Resolving, chunk: int, t: Tables, raws: seq<ExtractedConcept>,
                                          list: seq<ResolvedConcept>, n: nat)
    requires n <= |raws| == |list| && forall i | 0 <= i < |raws| :: IsRecorded(env, chunk, t, raws[i], list[i])
    ensures AllExist(t, Endpoints(env, raws, list, n))
  {
    if n > 0 {
      EndpointsKnown(env, chunk, t, raws, list, n - 1);
      assert IsRecorded(env, chunk, t, raws[n - 1], list[n - 1]);
    }
  }

  /** The concepts of a window and then its edges. */
  function WindowBuilt(cfg: BuildConfig, w: ExtractedWindow, t: Tables, left: Allowance, tick: nat): (r: WindowDone)
    requires Usable(cfg.env, w.chunk, t)
    ensures Onward(cfg.env, w.chunk, t, r.t)
    ensures left.document - r.left.document == left.chunk - r.left.chunk >= 0
    ensures left.chunk >= 0 && left.document >= 0 ==> r.left.chunk >= 0 && r.left.document >= 0
  {
    hide Usable, Onward, Resolved, AllExist, EdgesBuilt, BuildConfig.ConceptsOf, BuildConfig.EdgesOf, InOrder;
    var raws := cfg.ConceptsOf(w);
    var found := Resolved(cfg.env, w.chunk, t, raws, left, tick);
    OnwardUsable(cfg.env, w.chunk, t, found.w.t);
    if found.w.failed then WindowDone(found.w.t, true, found.left, 0, 0, 0)
    else
      WindowAligned(cfg, w, t, left, tick);
      var list := InOrder(found.w.results);
      var ids := Endpoints(cfg.env, raws, list, |raws|);
      var edges := EdgesBuilt(cfg.env, w.chunk, ids, found.w.t, cfg.EdgesOf(w), |cfg.EdgesOf(w)|);
      OnwardTransitive(cfg.env, w.chunk, t, found.w.t, edges.t);
      WindowDone(edges.t, false, found.left, CountCreated(list, |raws|), |raws| - CountCreated(list, |raws|),
                 edges.upserted)
  }

  lemma {:induction false} CreatedWithin(list: seq<ResolvedConcept>, n: nat)
    requires n <= |list|
    ensures CountCreated(list, n) <= n
  {
    if n > 0 { CreatedWithin(list, n - 1); }
  }

  /** A waiting concept of the window that a call can reach is offered the active concept that already has its name. */
  predicate MayBeRefused(cfg: BuildConfig, w: ExtractedWindow, t: Tables, left: Allowance)
    requires Usable(cfg.env, w.chunk, t)
  {
    RefusalPossible(cfg.env, w.chunk, t, cfg.ConceptsOf(w), left)
  }

  /** Unless it may be refused, a window is built. The results of a built window line up with its concepts, and every
      endpoint they give is an existing concept. */
  lemma WindowAligned(cfg: BuildConfig, w: ExtractedWindow, t: Tables, left: Allowance, tick: nat)
    requires Usable(cfg.env, w.chunk, t)
    ensures var raws, found := cfg.ConceptsOf(w), Resolved(cfg.env, w.chunk, t, cfg.ConceptsOf(w), left, tick).w;
            var list := InOrder(found.results);
            && (!MayBeRefused(cfg, w, t, left) ==> !found.failed)
            && (!found.failed ==>
              && |list| == |raws|
              && (forall i | 0 <= i < |raws| :: IsRecorded(cfg.env, w.chunk, found.t, raws[i], list[i]))
              && AllExist(found.t, Endpoints(cfg.env, raws, list, |raws|))
              && CountCreated(list, |raws|) <= |raws|)
  {
    hide Usable, Onward, Resolved, RefusalPossible, DistinctNames, IsRecorded, AllExist, BuildConfig.ConceptsOf, Norm,
      Endpoints, CountCreated;
    var raws := cfg.ConceptsOf(w);
    ExtractionNames(cfg, w);
    OneResultPerConcept(cfg.env, w.chunk, t, raws, left, tick);
    var found := Resolved(cfg.env, w.chunk, t, raws, left, tick).w;
    if !found.failed {
      EndpointsKnown(cfg.env, w.chunk, found.t, raws, InOrder(found.results), |raws|);
      CreatedWithin(InOrder(found.results), |raws|);
    }
  }

  /** Unless a waiting concept is offered its namesake a window is finished, whatever the model replies. In a finished
      window every concept has its alias and its provenance, every edge row is as the resolver left it or
      joins two different concepts of the window with provenance, no resolvable edge is lost, and each concept counts
      as created or merged. */
  lemma WindowMeaning(cfg: BuildConfig, w: ExtractedWindow, t: Tables, left: Allowance, tick: nat)
    requires Usable(cfg.env, w.chunk, t)
    ensures !MayBeRefused(cfg, w, t, left) ==> !WindowBuilt(cfg, w, t, left, tick).failed
    ensures !WindowBuilt(cfg, w, t, left, tick).failed ==> IsFinished(cfg, w, t, left, tick)
  {
    WindowAligned(cfg, w, t, left, tick);
    hide Usable, Resolved, MayBeRefused, WindowBuilt, IsFinished;
    WindowBuiltIs(cfg, w, t, left, tick);
    if !WindowBuilt(cfg, w, t, left, tick).failed { FinishedWindow(cfg, w, t, left, tick); }
  }

  /** Every concept of a window has its result, alias and provenance, every edge row is as the resolver left it or joins
      two different concepts of the window with provenance, no resolvable edge is lost, and each concept counts. */
  ghost predicate IsFinished(cfg: BuildConfig, w: ExtractedWindow, t: Tables, left: Allowance, tick: nat)
    requires Usable(cfg.env, w.chunk, t)
  {
    var r, raws := WindowBuilt(cfg, w, t, left, tick), cfg.ConceptsOf(w);
    var found := Resolved(cfg.env, w.chunk, t, raws, left, tick).w;
    var list := InOrder(found.results);
    && |list| == |raws| && r.created + r.merged == |raws|
    && (forall i | 0 <= i < |raws| :: IsRecorded(cfg.env, w.chunk, r.t, raws[i], list[i]))
    && var ids := Endpoints(cfg.env, raws, list, |raws|);
       && EdgesAccounted(w.chunk, ids, found.t, r.t)
       && forall k | 0 <= k < |cfg.EdgesOf(w)| && KeyFor(cfg.env, ids, cfg.EdgesOf(w)[k]).Some? ::
            Has(r.t.edges, KeyFor(cfg.env, ids, cfg.EdgesOf(w)[k]).value)
  }

  lemma FinishedWindow(cfg: BuildConfig, w: ExtractedWindow, t: Tables, left: Allowance, tick: nat)
    requires Usable(cfg.env, w.chunk, t) && !WindowBuilt(cfg, w, t, left, tick).failed
    ensures IsFinished(cfg, w, t, left, tick)
  {
    hide Usable, Resolved, AllExist, EdgesBuilt, BuildConfig.ConceptsOf, BuildConfig.EdgesOf, InOrder, Norm, Endpoints,
      CountCreated, KeyFor, EdgesAccounted, Ready, LooksUpActive, Has;
    WindowAligned(cfg, w, t, left, tick);
    var raws := cfg.ConceptsOf(w);
    var found := Resolved(cfg.env, w.chunk, t, raws, left, tick).w;
    OnwardUsable(cfg.env, w.chunk, t, found.t);
    var list := InOrder(found.results);
    var ids, es := Endpoints(cfg.env, raws, list, |raws|), cfg.EdgesOf(w);
    forall k | 0 <= k < |es| && KeyFor(cfg.env, ids, es[k]).Some?
      ensures Has(EdgesBuilt(cfg.env, w.chunk, ids, found.t, es, |es|).t.edges, KeyFor(cfg.env, ids, es[k]).value) {
      NoEdgeIsLost(cfg.env, w.chunk, ids, found.t, es, |es|, k);
    }
    var after := EdgesBuilt(cfg.env, w.chunk, ids, found.t, es, |es|).t;
    forall i | 0 <= i < |raws| ensures IsRecorded(cfg.env, w.chunk, after, raws[i], list[i]) {
      assert IsRecorded(cfg.env, w.chunk, found.t, raws[i], list[i]);
      assert Onward(cfg.env, w.chunk, found.t, after);
    }
  }

  method BuildWindow(db: Session, cfg: BuildConfig, w: ExtractedWindow, budgets: ResolverBudgets, tick: nat)
    returns (ok: bool, created: nat, merged: nat, upserted: nat)
    requires Usable(cfg.env, w.chunk, db.tables)
    modifies db, budgets
    ensures var left := Allowance(budgets.maxPerChunk, budgets.maxPerDocument - old(budgets.documentCalls));
            var r := WindowBuilt(cfg, w, old(db.tables), left, tick);
            && ok == !r.failed
            && (ok ==> r == WindowDone(db.tables, false, AllowanceOf(budgets), created, merged, upserted))
    ensures ok ==> budgets.documentCalls == old(budgets.documentCalls) + budgets.chunkCalls && budgets.chunkCalls >= 0
    ensures 0 <= old(budgets.documentCalls) <= budgets.maxPerDocument && budgets.maxPerChunk >= 0 ==> budgets.Within()
  {
    hide Usable, Onward, Resolved, AllExist, EdgesBuilt, InOrder, IsRecorded, BuildConfig.ConceptsOf,
      BuildConfig.EdgesOf, Endpoints, CountCreated, WindowBuilt;
    ghost var t, left := db.tables, Allowance(budgets.maxPerChunk, budgets.maxPerDocument - budgets.documentCalls);
    created, merged, upserted := 0, 0, 0;
    var concepts, edges := Extract(cfg, w);
    budgets.ResetChunk();
    var list: seq<ResolvedConcept>;
    ok, list := ResolveConceptsBatch(db, cfg.env, w.chunk, concepts, budgets, tick);
    WindowBuiltIs(cfg, w, t, left, tick);
    if !ok {
      return;
    }
    var resolvedInChunk: map<string, int>;
    resolvedInChunk, created, merged := Tally(cfg.env, concepts, list);
    upserted := BuildEdges(db, cfg.env, w.chunk, resolvedInChunk, edges);
  }

  method Extract(cfg: BuildConfig, w: ExtractedWindow)
    returns (concepts: seq<ExtractedConcept>, edges: seq<ExtractedEdge>)
    ensures concepts == cfg.ConceptsOf(w) && edges == cfg.EdgesOf(w)
  {
    hide Normalizer.Concepts, Normalizer.Edges;
    var normalizer := cfg.NormalizerOf(w);
    concepts := normalizer.NormalizeConcepts(w.concepts);
    edges := normalizer.NormalizeEdges(w.edges);
  }

  /** The zip of concepts and results: endpoints and counters. */
  method Tally(env: Resolving, concepts: seq<ExtractedConcept>, list: seq<ResolvedConcept>)
    returns (resolvedInChunk: map<string, int>, created: nat, merged: nat)
    ensures resolvedInChunk == Endpoints(env, concepts, list, Shorter(concepts, list))
    ensures created == CountCreated(list, Shorter(concepts, list)) && created + merged == Shorter(concepts, list)
  {
    hide Names.Normalize;
    resolvedInChunk, created, merged := map[], 0, 0;
    for i := 0 to Shorter(concepts, list)
      invariant resolvedInChunk == Endpoints(env, concepts, list, i)
      invariant created == CountCreated(list, i) && created + merged == i
    {
      resolvedInChunk := resolvedInChunk[env.policy.edges.names.Normalize(concepts[i].name) := list[i].id];
      if list[i].created {
        created := created + 1;
      } else {
        merged := merged + 1;
      }
    }
  }

  lemma WindowBuiltIs(cfg: BuildConfig, w: ExtractedWindow, t: Tables, left: Allowance, tick: nat)
    requires Usable(cfg.env, w.chunk, t)
    ensures var r, raws := WindowBuilt(cfg, w, t, left, tick), cfg.ConceptsOf(w);
            var found := Resolved(cfg.env, w.chunk, t, raws, left, tick);
            && r.failed == found.w.failed
            && (!r.failed ==>
                  var list := InOrder(found.w.results);
                  var ids := Endpoints(cfg.env, raws, list, Shorter(raws, list));
                  && |list| == |raws| && CountCreated(list, |raws|) <= |raws|
                  && Usable(cfg.env, w.chunk, found.w.t) && AllExist(found.w.t, ids)
                  && var edges := EdgesBuilt(cfg.env, w.chunk, ids, found.w.t, cfg.EdgesOf(w), |cfg.EdgesOf(w)|);
                     r == WindowDone(edges.t, false, found.left, CountCreated(list, |raws|),
                                     |raws| - CountCreated(list, |raws|), edges.upserted))
  {
    hide Usable, Onward, Resolved, AllExist, EdgesBuilt, BuildConfig.ConceptsOf, BuildConfig.EdgesOf, InOrder,
      IsRecorded;
    WindowAligned(cfg, w, t, left, tick);
    OnwardUsable(cfg.env, w.chunk, t, Resolved(cfg.env, w.chunk, t, cfg.ConceptsOf(w), left, tick).w.t);
  }

  // ---- the document ----

  /** After some windows: the tables, whether a statement was refused, the calls each window registered, and the
      counters. */
  datatype Document = Document(t: Tables, failed: bool, calls: seq<nat>, created: nat, merged: nat, upserted: nat)

  function SumOf(calls: seq<nat>): nat { if calls == [] then 0 else SumOf(calls[..|calls| - 1]) + calls[|calls| - 1] }

  function Ticks(windows: seq<ExtractedWindow>, n: nat): nat
    requires n <= |windows|
  {
    if n == 0 then 0 else Ticks(windows, n - 1) + |windows[n - 1].concepts|
  }

  /** Every window's chunk exists, and the tables are fit to be written. */
  ghost predicate CanBuild(cfg: BuildConfig, t: Tables, windows: seq<ExtractedWindow>) {
    && Ready(cfg.env.policy.edges, t) && LooksUpActive(cfg.env) && cfg.env.batchSize > 0
    && forall i | 0 <= i < |windows| :: windows[i].chunk in t.chunks
  }

  datatype Caps = Caps(perWindow: nat, perDocument: nat)

  /** The tables hold all they held and may be worked on, and no cap is exceeded. */
  ghost predicate IsSteady(cfg: BuildConfig, t: Tables, windows: seq<ExtractedWindow>, caps: Caps, d: Document) {
    && CanBuild(cfg, d.t, windows) && Grew(t, d.t)
    && SumOf(d.calls) <= caps.perDocument && (forall i | 0 <= i < |d.calls| :: d.calls[i] <= caps.perWindow)
  }

  /** What the calls spent so far leave to the next window. */
  function LeftFor(caps: Caps, d: Document): Allowance { Allowance(caps.perWindow, caps.perDocument - SumOf(d.calls)) }

  function AddWindow(d: Document, r: WindowDone, calls: nat): Document {
    Document(r.t, r.failed, d.calls + [calls], d.created + r.created, d.merged + r.merged, d.upserted + r.upserted)
  }

  /** One more window, unless a statement was refused before. */
  function NextWindow(cfg: BuildConfig, t: Tables, windows: seq<ExtractedWindow>, caps: Caps, d: Document,
                      n: nat): (r: Document)
    requires IsSteady(cfg, t, windows, caps, d) && n < |windows|
    ensures IsSteady(cfg, t, windows, caps, r)
  {
    hide CanBuild, Grew, WindowBuilt, Usable, Onward, SumOf;
    if d.failed then d
    else
      CanBuildWindow(cfg, d.t, windows, n);
      var r := WindowBuilt(cfg, windows[n], d.t, LeftFor(caps, d), Ticks(windows, n));
      CanBuildOn(cfg, d.t, windows, n, r.t);
      GrewTransitive(t, d.t, r.t);
      CallsAppend(d.calls, caps.perWindow - r.left.chunk);
      AddWindow(d, r, caps.perWindow - r.left.chunk)
  }

  /** The first n windows. */
  function DocumentBuilt(cfg: BuildConfig, t: Tables, windows: seq<ExtractedWindow>, caps: Caps, n: nat): (r: Document)
    requires CanBuild(cfg, t, windows) && n <= |windows|
    ensures IsSteady(cfg, t, windows, caps, r)
  {
    hide CanBuild, IsSteady, NextWindow;
    if n == 0 then
      NothingIsSteady(cfg, t, windows, caps);
      Document(t, false, [], 0, 0, 0)
    else NextWindow(cfg, t, windows, caps, DocumentBuilt(cfg, t, windows, caps, n - 1), n - 1)
  }

  lemma NothingIsSteady(cfg: BuildConfig, t: Tables, windows: seq<ExtractedWindow>, caps: Caps)
    requires CanBuild(cfg, t, windows)
    ensures IsSteady(cfg, t, windows, caps, Document(t, false, [], 0, 0, 0))
  {
    GrewSelf(cfg, t, windows);
  }

  lemma GrewSelf(cfg: BuildConfig, t: Tables, windows: seq<ExtractedWindow>)
    ensures Grew(t, t)
  {
  }

  lemma CanBuildWindow(cfg: BuildConfig, t: Tables, windows: seq<ExtractedWindow>, n: nat)
    requires CanBuild(cfg, t, windows) && n < |windows|
    ensures Usable(cfg.env, windows[n].chunk, t)
  {
  }

  lemma CanBuildOn(cfg: BuildConfig, t: Tables, windows: seq<ExtractedWindow>, n: nat, after: Tables)
    requires CanBuild(cfg, t, windows) && n < |windows| && Onward(cfg.env, windows[n].chunk, t, after)
    ensures CanBuild(cfg, after, windows) && Grew(t, after)
  {
  }

  /** Each window registers at most its cap, and the document's count is the sum over its windows, within the document's
      cap; the schema holds, nothing is lost, and every extracted concept counts once as created or merged. */
  lemma DocumentMeaning(cfg: BuildConfig, t: Tables, windows: seq<ExtractedWindow>, caps: Caps, n: nat)
    requires CanBuild(cfg, t, windows) && n <= |windows|
    ensures var r := DocumentBuilt(cfg, t, windows, caps, n);
            && Ready(cfg.env.policy.edges, r.t) && Grew(t, r.t)
            && SumOf(r.calls) <= caps.perDocument && (forall i | 0 <= i < |r.calls| :: r.calls[i] <= caps.perWindow)
            && (!r.failed ==> |r.calls| == n && r.created + r.merged == ConceptCount(cfg, windows, n))
            && (NoneMayBeRefused(cfg, t, windows, caps, n) || SettlesNamesakes(cfg.env) ==> !r.failed)
  {
    hide Grew, DocumentBuilt, LooksUpActive, Ready, SettlesNamesakes, NoneMayBeRefused;
    DocumentCounts(cfg, t, windows, caps, n);
    if SettlesNamesakes(cfg.env) { SettledDocument(cfg, t, windows, caps, n); }
    if NoneMayBeRefused(cfg, t, windows, caps, n) { DocumentFinishes(cfg, t, windows, caps, n); }
  }

  /** No window may be refused in the state the windows before it leave. */
  ghost predicate NoneMayBeRefused(cfg: BuildConfig, t: Tables, windows: seq<ExtractedWindow>, caps: Caps, n: nat)
    requires CanBuild(cfg, t, windows) && n <= |windows|
  {
    forall k | 0 <= k < n :: WindowIsSafe(cfg, t, windows, caps, k)
  }

  ghost predicate WindowIsSafe(cfg: BuildConfig, t: Tables, windows: seq<ExtractedWindow>, caps: Caps, k: nat)
    requires CanBuild(cfg, t, windows) && k < |windows|
  {
    var d := DocumentBuilt(cfg, t, windows, caps, k);
    Usable(cfg.env, windows[k].chunk, d.t) && !MayBeRefused(cfg, windows[k], d.t, LeftFor(caps, d))
  }

  /** Unless some window may be refused, the whole document is built, whatever the model replies. */
  lemma {:induction false} DocumentFinishes(cfg: BuildConfig, t: Tables, windows: seq<ExtractedWindow>, caps: Caps,
                                            n: nat)
    requires CanBuild(cfg, t, windows) && n <= |windows| && NoneMayBeRefused(cfg, t, windows, caps, n)
    ensures !DocumentBuilt(cfg, t, windows, caps, n).failed
  {
    hide CanBuild, IsSteady, DocumentBuilt, NextWindow, WindowIsSafe, SumOf, Ticks, Grew;
    DocumentStep(cfg, t, windows, caps, n);
    if n > 0 {
      DocumentFinishes(cfg, t, windows, caps, n - 1);
      assert WindowIsSafe(cfg, t, windows, caps, n - 1);
      WindowFinishes(cfg, t, windows, caps, n - 1);
    }
  }

  lemma WindowFinishes(cfg: BuildConfig, t: Tables, windows: seq<ExtractedWindow>, caps: Caps, k: nat)
    requires CanBuild(cfg, t, windows) && k < |windows| && WindowIsSafe(cfg, t, windows, caps, k)
    requires !DocumentBuilt(cfg, t, windows, caps, k).failed
    ensures !NextWindow(cfg, t, windows, caps, DocumentBuilt(cfg, t, windows, caps, k), k).failed
  {
    hide CanBuild, IsSteady, DocumentBuilt, NextWindow, MayBeRefused, Usable, WindowBuilt, IsFinished, SumOf, Ticks,
      Grew;
    var d := DocumentBuilt(cfg, t, windows, caps, k);
    NextWindowIs(cfg, t, windows, caps, d, k);
    WindowMeaning(cfg, windows[k], d.t, LeftFor(caps, d), Ticks(windows, k));
  }

  /** When the lookups' rules settle every namesake, no window of any document may be refused. */
  lemma SettledDocument(cfg: BuildConfig, t: Tables, windows: seq<ExtractedWindow>, caps: Caps, n: nat)
    requires CanBuild(cfg, t, windows) && n <= |windows| && SettlesNamesakes(cfg.env)
    ensures NoneMayBeRefused(cfg, t, windows, caps, n)
  {
    hide CanBuild, IsSteady, DocumentBuilt, Usable, SettlesNamesakes, RefusalPossible, SumOf;
    forall k | 0 <= k < n ensures WindowIsSafe(cfg, t, windows, caps, k) {
      var d := DocumentBuilt(cfg, t, windows, caps, k);
      SteadyUsable(cfg, t, windows, caps, d, k);
      SettledNamesakesNeverRefuse(cfg.env, windows[k].chunk, d.t, cfg.ConceptsOf(windows[k]), LeftFor(caps, d));
    }
  }

  lemma SteadyUsable(cfg: BuildConfig, t: Tables, windows: seq<ExtractedWindow>, caps: Caps, d: Document, k: nat)
    requires IsSteady(cfg, t, windows, caps, d) && k < |windows|
    ensures Usable(cfg.env, windows[k].chunk, d.t)
  {
    hide Grew, SumOf;
    CanBuildWindow(cfg, d.t, windows, k);
  }

  lemma {:induction false} DocumentCounts(cfg: BuildConfig, t: Tables, windows: seq<ExtractedWindow>, caps: Caps,
                                          n: nat)
    requires CanBuild(cfg, t, windows) && n <= |windows|
    ensures var r := DocumentBuilt(cfg, t, windows, caps, n);
            !r.failed ==> |r.calls| == n && r.created + r.merged == ConceptCount(cfg, windows, n)
  {
    hide CanBuild, IsSteady, DocumentBuilt, NextWindow, ConceptCount, BuildConfig.ConceptsOf, Grew, SumOf, WindowBuilt;
    DocumentStep(cfg, t, windows, caps, n);
    ConceptCountStep(cfg, windows, n);
    if n > 0 {
      DocumentCounts(cfg, t, windows, caps, n - 1);
      WindowCounts(cfg, t, windows, caps, DocumentBuilt(cfg, t, windows, caps, n - 1), n - 1);
    }
  }

  lemma ConceptCountStep(cfg: BuildConfig, windows: seq<ExtractedWindow>, n: nat)
    requires n <= |windows|
    ensures ConceptCount(cfg, windows, n) ==
              if n == 0 then 0 else ConceptCount(cfg, windows, n - 1) + |cfg.ConceptsOf(windows[n - 1])|
  {
  }

  lemma WindowCounts(cfg: BuildConfig, t: Tables, windows: seq<ExtractedWindow>, caps: Caps, d: Document, n: nat)
    requires IsSteady(cfg, t, windows, caps, d) && n < |windows|
    ensures var r := NextWindow(cfg, t, windows, caps, d, n);
            !r.failed ==>
              !d.failed && |r.calls| == |d.calls| + 1 &&
              r.created + r.merged == d.created + d.merged + |cfg.ConceptsOf(windows[n])|
  {
    hide CanBuild, Grew, WindowBuilt, Usable, SumOf, BuildConfig.ConceptsOf;
    CanBuildWindow(cfg, d.t, windows, n);
    CountsAdd(cfg, windows[n], d.t, LeftFor(caps, d), Ticks(windows, n));
  }

  lemma CountsAdd(cfg: BuildConfig, w: ExtractedWindow, t: Tables, left: Allowance, tick: nat)
    requires Usable(cfg.env, w.chunk, t)
    ensures var r := WindowBuilt(cfg, w, t, left, tick); !r.failed ==> r.created + r.merged == |cfg.ConceptsOf(w)|
  {
    hide Usable, WindowBuilt;
    WindowBuiltIs(cfg, w, t, left, tick);
  }

  function ConceptCount(cfg: BuildConfig, windows: seq<ExtractedWindow>, n: nat): nat
    requires n <= |windows|
  {
    if n == 0 then 0 else ConceptCount(cfg, windows, n - 1) + |cfg.ConceptsOf(windows[n - 1])|
  }

  datatype Counters = Counters(created: nat, merged: nat, upserted: nat, llmCalls: int)

  /** build_graph_for_chunks on windows already extracted; ok is false when a statement was refused. */
  method BuildGraph(db: Session, cfg: BuildConfig, windows: seq<ExtractedWindow>, caps: Caps)
    returns (ok: bool, counters: Counters)
    requires CanBuild(cfg, db.tables, windows)
    modifies db
    ensures var r := DocumentBuilt(cfg, old(db.tables), windows, caps, |windows|);
            && ok == !r.failed
            && (ok ==> db.tables == r.t && counters == Counters(r.created, r.merged, r.upserted, SumOf(r.calls)))
  {
    hide CanBuild, Usable, WindowBuilt, DocumentBuilt, NextWindow, SumOf, Ticks, IsSteady;
    ghost var t := db.tables;
    var budgets := new ResolverBudgets(caps.perWindow, caps.perDocument);
    counters := Counters(0, 0, 0, 0);
    var tick := 0;
    ghost var calls: seq<nat> := [];
    DocumentStep(cfg, t, windows, caps, 0);
    NoTicks(windows);
    for n := 0 to |windows|
      invariant fresh(budgets) && budgets.documentCalls == SumOf(calls) && budgets.maxPerChunk == caps.perWindow
      invariant budgets.maxPerDocument == caps.perDocument
      invariant tick == Ticks(windows, n)
      invariant DocumentBuilt(cfg, t, windows, caps, n) ==
                  Document(db.tables, false, calls, counters.created, counters.merged, counters.upserted)
    {
      ghost var d := DocumentBuilt(cfg, t, windows, caps, n);
      DocumentStep(cfg, t, windows, caps, n + 1);
      NextWindowIs(cfg, t, windows, caps, d, n);
      var built, created, merged, upserted := BuildWindow(db, cfg, windows[n], budgets, tick);
      if !built {
        DocumentFails(cfg, t, windows, caps, n + 1, |windows|);
        return false, counters;
      }
      CallsAppend(calls, budgets.chunkCalls);
      calls := calls + [budgets.chunkCalls];
      counters := Counters(counters.created + created, counters.merged + merged, counters.upserted + upserted, 0);
      TicksStep(windows, n);
      tick := tick + |windows[n].concepts|;
    }
    ok := true;
    counters := counters.(llmCalls := budgets.documentCalls);
  }

  lemma CallsAppend(calls: seq<nat>, more: nat)
    ensures SumOf(calls + [more]) == SumOf(calls) + more
  {
    assert (calls + [more])[..|calls|] == calls;
  }

  lemma NoTicks(windows: seq<ExtractedWindow>)
    ensures Ticks(windows, 0) == 0 && SumOf([]) == 0
  {
  }

  lemma TicksStep(windows: seq<ExtractedWindow>, n: nat)
    requires n < |windows|
    ensures Ticks(windows, n + 1) == Ticks(windows, n) + |windows[n].concepts|
  {
  }

  lemma NextWindowIs(cfg: BuildConfig, t: Tables, windows: seq<ExtractedWindow>, caps: Caps, d: Document, n: nat)
    requires IsSteady(cfg, t, windows, caps, d) && n < |windows|
    ensures Usable(cfg.env, windows[n].chunk, d.t)
    ensures var r := WindowBuilt(cfg, windows[n], d.t, LeftFor(caps, d), Ticks(windows, n));
            && r.left.chunk <= caps.perWindow
            && NextWindow(cfg, t, windows, caps, d, n) ==
                 if d.failed then d else AddWindow(d, r, caps.perWindow - r.left.chunk)
  {
    hide CanBuild, Grew, WindowBuilt, Usable, SumOf;
    CanBuildWindow(cfg, d.t, windows, n);
  }

  lemma DocumentStep(cfg: BuildConfig, t: Tables, windows: seq<ExtractedWindow>, caps: Caps, n: nat)
    requires CanBuild(cfg, t, windows) && n <= |windows|
    ensures DocumentBuilt(cfg, t, windows, caps, n) ==
            if n == 0 then Document(t, false, [], 0, 0, 0)
            else NextWindow(cfg, t, windows, caps, DocumentBuilt(cfg, t, windows, caps, n - 1), n - 1)
  {
    hide CanBuild, IsSteady, NextWindow;
  }

  lemma {:induction false} DocumentFails(cfg: BuildConfig, t: Tables, windows: seq<ExtractedWindow>, caps: Caps,
                                         k: nat, n: nat)
    requires CanBuild(cfg, t, windows) && k <= n <= |windows|
    ensures DocumentBuilt(cfg, t, windows, caps, k).failed ==> DocumentBuilt(cfg, t, windows, caps, n).failed
    decreases n
  {
    hide CanBuild, IsSteady, NextWindow, DocumentBuilt;
    if k < n {
      DocumentFails(cfg, t, windows, caps, k, n - 1);
      DocumentStep(cfg, t, windows, caps, n);
      FailureStays(cfg, t, windows, caps, DocumentBuilt(cfg, t, windows, caps, n - 1), n - 1);
    }
  }

  lemma FailureStays(cfg: BuildConfig, t: Tables, windows: seq<ExtractedWindow>, caps: Caps, d: Document, n: nat)
    requires IsSteady(cfg, t, windows, caps, d) && n < |windows|
    ensures d.failed ==> NextWindow(cfg, t, windows, caps, d, n) == d
  {
    hide CanBuild, Grew, WindowBuilt;
  }

  // ---- from chunks ----

  /** What the model extracts from the windows, one payload each; None failed validation. */
  type Extractor = nat -> Option<(seq<ConceptPayload>, seq<EdgePayload>)>

  /** The first n windows with their payloads. */
  function WithPayloads(windows: seq<GraphWindows.Window>, extract: Extractor, n: nat): (r: seq<ExtractedWindow>)
    requires n <= |windows|
    ensures |r| == n && forall i | 0 <= i < n :: r[i].chunk == windows[i].chunkId && r[i].text == windows[i].text
  {
    if n == 0 then []
    else
      var (concepts, edges) := match extract(n - 1) case Some(payload) => payload case None => ([], []);
      WithPayloads(windows, extract, n - 1)
        + [ExtractedWindow(windows[n - 1].chunkId, windows[n - 1].text, concepts, edges)]
  }

  /** The extracted windows of a document's chunks. */
  function WindowsFor(chunks: seq<GraphWindows.ChunkRow>, size: int, inWords: bool,
                      extract: Extractor): seq<ExtractedWindow> {
    var windows := GraphWindows.WindowsOf(GraphWindows.WindowGroups(chunks, size, inWords));
    WithPayloads(windows, extract, |windows|)
  }

  /** Every window is named by a chunk that it holds. */
  lemma WindowsNameChunks(chunks: seq<GraphWindows.ChunkRow>, size: int, inWords: bool, extract: Extractor, i: nat)
    requires i < |WindowsFor(chunks, size, inWords, extract)|
    ensures exists c | c in chunks :: c.id == WindowsFor(chunks, size, inWords, extract)[i].chunk
  {
    var group := GraphWindows.WindowGroups(chunks, size, inWords)[i];
    GraphWindows.GroupsHoldChunks(chunks, size, inWords, i);
    assert group[0] in group && group[0] in chunks;
  }

  /** build_graph_for_chunks: the chunks are packed into windows, and the windows are built one after the other. */
  method BuildGraphForChunks(db: Session, cfg: BuildConfig, chunks: seq<GraphWindows.ChunkRow>, size: int,
                             inWords: bool, extract: Extractor, caps: Caps) returns (ok: bool, counters: Counters)
    requires Ready(cfg.env.policy.edges, db.tables) && LooksUpActive(cfg.env) && cfg.env.batchSize > 0
    requires forall c | c in chunks :: c.id in db.tables.chunks
    modifies db
    ensures var windows := WindowsFor(chunks, size, inWords, extract);
            && CanBuild(cfg, old(db.tables), windows)
            && var r := DocumentBuilt(cfg, old(db.tables), windows, caps, |windows|);
               && ok == !r.failed
               && (ok ==> db.tables == r.t && counters == Counters(r.created, r.merged, r.upserted, SumOf(r.calls)))
  {
    hide DocumentBuilt, SumOf, Ready, LooksUpActive;
    var windows := GraphWindows.MakeGraphWindows(chunks, size, inWords);
    var extracted := WithPayloads(windows, extract, |windows|);
    forall i | 0 <= i < |extracted| ensures extracted[i].chunk in db.tables.chunks {
      WindowsNameChunks(chunks, size, inWords, extract, i);
    }
    ok, counters := BuildGraph(db, cfg, extracted, caps);
  }
}
