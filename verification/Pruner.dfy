/** Orphan pruning and document deletion (domain/graph/orphan_pruner.py, adapters/db/knowledge_base.py). */
module Pruner {
  import opened Wrappers
  import opened GraphTables

  // ---- what one prune removes ----

  function OrphanEdges(t: Tables): set<int> {
    set e | e in t.edges && !HasProvenance(t, EdgeTarget(e))
  }

  function OrphanConcepts(t: Tables): set<int> {
    set c | c in t.concepts && t.concepts[c].active && !HasProvenance(t, ConceptTarget(c))
  }

  /** Edges that do not touch the given concepts. */
  function EdgesAway(edges: map<int, Edge>, ids: set<int>): map<int, Edge> {
    map e | e in edges && edges[e].key.src !in ids && edges[e].key.tgt !in ids :: edges[e]
  }

  function AliasesAway(aliases: map<string, int>, ids: set<int>): map<string, int> {
    map a | a in aliases && aliases[a] !in ids :: aliases[a]
  }

  function MasteryAway(mastery: map<MasteryKey, bool>, ids: set<int>): map<MasteryKey, bool> {
    map k | k in mastery && k.concept !in ids :: mastery[k]
  }

  function LogAway(log: set<(int, int)>, ids: set<int>): set<(int, int)> {
    set m | m in log && m.0 !in ids && m.1 !in ids
  }

  function ProvenanceAway(provenance: set<(Target, int)>, chunks: set<int>): set<(Target, int)> {
    set p | p in provenance && p.1 !in chunks
  }

  /** The tables before a prune deletes concepts: unsupported edges are gone, and everything its other statements delete
      that refers to an unsupported active concept. */
  function Unlinked(t: Tables): Tables {
    var gone := OrphanConcepts(t);
    t.(edges := EdgesAway(t.edges - OrphanEdges(t), gone),
       aliases := AliasesAway(t.aliases, gone),
       mergeLog := LogAway(t.mergeLog, gone),
       mastery := MasteryAway(t.mastery, gone))
  }

  /** The tables after a prune: the unsupported active concepts are gone too. */
  function Pruned(t: Tables): Tables {
    Unlinked(t).(concepts := t.concepts - OrphanConcepts(t))
  }

  /** Nobody studies a concept that a prune deletes: quizzes, topic states, practice rows and chats refer to concepts,
      and a prune deletes none of these. */
  predicate CanPrune(t: Tables) { t.studied !! OrphanConcepts(t) }

  datatype PruneSummary = PruneSummary(prunedConcepts: nat, prunedEdges: nat)

  /** prune_orphan_graph_nodes, one statement after another. Every statement but the last leaves the foreign keys
      intact; deleting the concepts is refused, the None case, when a row of any table still refers to one. */
  method PruneOrphanGraphNodes(db: Session) returns (summary: Option<PruneSummary>)
    requires Valid(db.tables)
    modifies db
    ensures summary.Some? <==> CanPrune(old(db.tables))
    ensures db.tables == (if summary.Some? then Pruned(old(db.tables)) else Unlinked(old(db.tables)))
    ensures Valid(db.tables)
    ensures summary.Some? ==>
              summary.value == PruneSummary(|OrphanConcepts(old(db.tables))|, |OrphanEdges(old(db.tables))|)
  {
    ghost var t := db.tables;
    var orphanEdgeIds := OrphanEdges(db.tables);
    var prunedEdges := 0;
    if orphanEdgeIds != {} {
      db.tables := db.tables.(edges := db.tables.edges - orphanEdgeIds);
      prunedEdges := |orphanEdgeIds|;
    }
    EdgelessIsValid(t);
    assert db.tables == Edgeless(t);
    var orphanConceptIds := OrphanConcepts(db.tables);
    var prunedConcepts := 0;
    hide Valid, OrphanConcepts, OrphanEdges;
    if orphanConceptIds != {} {
      EdgesMayGo(db.tables, orphanConceptIds);
      db.tables := db.tables.(edges := EdgesAway(db.tables.edges, orphanConceptIds));
      AliasesMayGo(db.tables, orphanConceptIds);
      db.tables := db.tables.(aliases := AliasesAway(db.tables.aliases, orphanConceptIds));
      LogMayGo(db.tables, orphanConceptIds);
      db.tables := db.tables.(mergeLog := LogAway(db.tables.mergeLog, orphanConceptIds));
      MasteryMayGo(db.tables, orphanConceptIds);
      db.tables := db.tables.(mastery := MasteryAway(db.tables.mastery, orphanConceptIds));
      assert db.tables == Unlinked(t);
      var left := db.tables.(concepts := db.tables.concepts - orphanConceptIds);
      PrunedIsValid(t);
      PrunedKeys(t);
      if !ConceptKeysHold(left) {
        return None;
      }
      db.tables := left;
      prunedConcepts := |orphanConceptIds|;
    } else {
      NothingAway(db.tables);
    }
    summary := Some(PruneSummary(prunedConcepts, prunedEdges));
  }

  /** Without the unsupported edges. */
  ghost function Edgeless(t: Tables): Tables { t.(edges := t.edges - OrphanEdges(t)) }

  lemma EdgelessIsValid(t: Tables)
    requires Valid(t)
    ensures Valid(Edgeless(t)) && OrphanConcepts(Edgeless(t)) == OrphanConcepts(t)
    ensures OrphanEdges(t) == {} ==> Edgeless(t) == t
  {
    assert OrphanEdges(t) == {} ==> t.edges - OrphanEdges(t) == t.edges;
  }

  /** Rows that refer to concepts may go one table after the other. */
  lemma EdgesMayGo(t: Tables, ids: set<int>)
    requires Valid(t)
    ensures Valid(t.(edges := EdgesAway(t.edges, ids)))
  {
  }

  lemma AliasesMayGo(t: Tables, ids: set<int>)
    requires Valid(t)
    ensures Valid(t.(aliases := AliasesAway(t.aliases, ids)))
  {
    hide EdgesAreSound;
  }

  lemma LogMayGo(t: Tables, ids: set<int>)
    requires Valid(t)
    ensures Valid(t.(mergeLog := LogAway(t.mergeLog, ids)))
  {
    hide EdgesAreSound;
  }

  lemma MasteryMayGo(t: Tables, ids: set<int>)
    requires Valid(t)
    ensures Valid(t.(mastery := MasteryAway(t.mastery, ids)))
  {
    hide EdgesAreSound;
  }

  lemma NothingAway(t: Tables)
    ensures EdgesAway(t.edges, {}) == t.edges && AliasesAway(t.aliases, {}) == t.aliases
    ensures MasteryAway(t.mastery, {}) == t.mastery && t.concepts - {} == t.concepts
    ensures LogAway(t.mergeLog, {}) == t.mergeLog
  {
  }

  /** What a prune leaves satisfies the schema if and only if nobody studies a concept it deletes. It keeps an alias map
      that points only at active concepts. */
  lemma PrunedIsValid(t: Tables)
    requires Valid(t)
    ensures Valid(Pruned(t)) <==> CanPrune(t)
    ensures AliasesActive(t) ==> AliasesActive(Pruned(t))
  {
    PrunedKeys(t);
    PrunedRows(t);
    hide ConceptKeysHold, ChunkKeysHold, RowsAreSound, CanPrune;
  }

  lemma PrunedRows(t: Tables)
    requires Valid(t)
    ensures ChunkKeysHold(Pruned(t)) && RowsAreSound(Pruned(t))
  {
    hide HasProvenance;
  }

  /** Of all foreign keys only those from outside can be left dangling. */
  lemma PrunedKeys(t: Tables)
    requires Valid(t)
    ensures ConceptKeysHold(Pruned(t)) <==> CanPrune(t)
  {
    var p := Pruned(t);
    assert (forall c | c in t.studied :: c in p.concepts) <==> CanPrune(t);
    hide HasProvenance;
  }

  /** A second prune removes nothing. */
  lemma PruneTwice(t: Tables)
    ensures Pruned(Pruned(t)) == Pruned(t)
  {
    var p := Pruned(t);
    assert OrphanConcepts(p) == {};
    assert OrphanEdges(p) == {};
    NothingAway(p);
    assert p.edges - {} == p.edges;
  }

  /** Exactly the supported active concepts stay active, inactive ones are untouched, and an edge stays
      exactly when it is supported and neither end is pruned. */
  lemma PruneSurvivors(t: Tables)
    ensures forall c :: IsActive(Pruned(t), c) <==> IsActive(t, c) && HasProvenance(t, ConceptTarget(c))
    ensures forall c | c in t.concepts && !t.concepts[c].active :: c in Pruned(t).concepts
    ensures forall e :: e in Pruned(t).edges <==>
              e in t.edges && HasProvenance(t, EdgeTarget(e))
              && t.edges[e].key.src !in OrphanConcepts(t) && t.edges[e].key.tgt !in OrphanConcepts(t)
  {
  }

  /** Supported edges that go because one of their ends does. */
  ghost function CascadedEdges(t: Tables): set<int> {
    set e | e in t.edges && HasProvenance(t, EdgeTarget(e))
            && (t.edges[e].key.src in OrphanConcepts(t) || t.edges[e].key.tgt in OrphanConcepts(t))
  }

  /** The summary counts unsupported edges only, so it is the number of edges that went exactly when none was
      cascaded. */
  lemma PrunedEdgesCount(t: Tables)
    ensures |t.edges.Keys| - |Pruned(t).edges.Keys| == |OrphanEdges(t)| + |CascadedEdges(t)|
    ensures |t.edges.Keys| - |Pruned(t).edges.Keys| == |OrphanEdges(t)| <==> CascadedEdges(t) == {}
  {
    EdgesSplit(t);
    hide *;
    SizeOfThree(t.edges.Keys, Pruned(t).edges.Keys, OrphanEdges(t), CascadedEdges(t));
  }

  /** Two active concepts of which one has provenance, and an edge between them that has: the prune counts no edge and
      removes one. */
  lemma CascadedEdgeIsNotCounted(a: Concept, b: Concept, edge: Edge)
    requires a.active && b.active && a.name != b.name && edge.key.src == 1 && edge.key.tgt == 2 && edge.weight >= 0.0
    ensures var t := Tables({1}, map[1 := 1], map[], map[], map[1 := a, 2 := b], map[0 := edge], 3, 1, map[], {},
                            {(ConceptTarget(1), 1), (EdgeTarget(0), 1)}, map[], {});
            Valid(t) && CanPrune(t) && OrphanEdges(t) == {} && CascadedEdges(t) == {0} && Pruned(t).edges == map[]
  {
    var t := Tables({1}, map[1 := 1], map[], map[], map[1 := a, 2 := b], map[0 := edge], 3, 1, map[], {},
                    {(ConceptTarget(1), 1), (EdgeTarget(0), 1)}, map[], {});
    assert (EdgeTarget(0), 1) in t.provenance && (ConceptTarget(1), 1) in t.provenance;
    assert HasProvenance(t, EdgeTarget(0)) && !HasProvenance(t, ConceptTarget(2));
    assert 2 in OrphanConcepts(t);
    assert OrphanEdges(t) == {};
  }

  lemma EdgesSplit(t: Tables)
    ensures t.edges.Keys == Pruned(t).edges.Keys + (OrphanEdges(t) + CascadedEdges(t))
    ensures Pruned(t).edges.Keys !! OrphanEdges(t) && Pruned(t).edges.Keys !! CascadedEdges(t)
    ensures OrphanEdges(t) !! CascadedEdges(t)
  {
  }

  lemma SizeOfThree(all: set<int>, a: set<int>, b: set<int>, c: set<int>)
    requires all == a + (b + c) && a !! b && a !! c && b !! c
    ensures |all| == |a| + |b| + |c|
  {
    assert |b + c| == |b| + |c|;
    assert a !! b + c;
  }

  // ---- deleting a document ----

  function ChunksOfDocument(t: Tables, document: int): set<int> {
    set c | c in t.chunks && t.chunks[c] == document
  }

  function RowsAway(rows: map<int, int>, chunks: set<int>): map<int, int> {
    map r | r in rows && rows[r] !in chunks :: rows[r]
  }

  /** The tables without a document and everything cut from it. */
  function WithoutDocument(t: Tables, document: int): Tables {
    var chunks := ChunksOfDocument(t, document);
    t.(rawEdges := RowsAway(t.rawEdges, chunks),
       rawConcepts := RowsAway(t.rawConcepts, chunks),
       provenance := ProvenanceAway(t.provenance, chunks),
       chunks := t.chunks - chunks,
       documents := t.documents - {document})
  }

  /** cascade_delete_document; every statement leaves the foreign keys intact. */
  method CascadeDeleteDocument(db: Session, document: int)
    requires Valid(db.tables)
    modifies db
    ensures db.tables == WithoutDocument(old(db.tables), document) && Valid(db.tables)
  {
    db.tables := db.tables.(rawEdges := RowsAway(db.tables.rawEdges, ChunksOfDocument(db.tables, document)));
    assert Valid(db.tables);
    db.tables := db.tables.(rawConcepts := RowsAway(db.tables.rawConcepts, ChunksOfDocument(db.tables, document)));
    assert Valid(db.tables);
    var chunks := ChunksOfDocument(db.tables, document);
    db.tables := db.tables.(provenance := ProvenanceAway(db.tables.provenance, chunks));
    assert Valid(db.tables);
    db.tables := db.tables.(chunks := db.tables.chunks - ChunksOfDocument(db.tables, document));
    assert Valid(db.tables);
    db.tables := db.tables.(documents := db.tables.documents - {document});
  }

  datatype DeleteError = DocumentNotFound | PruneRefused

  /** delete_document with its optional prune, up to its commit. */
  method DeleteDocument(db: Session, document: int, prune: bool) returns (r: Result<(), DeleteError>)
    requires Valid(db.tables)
    modifies db
    ensures r.Ok? <==>
              document in old(db.tables.documents) && (prune ==> CanPrune(WithoutDocument(old(db.tables), document)))
    ensures r == Err(DocumentNotFound) <==> document !in old(db.tables.documents)
    ensures r.Ok? ==>
              db.tables == if prune then Pruned(WithoutDocument(old(db.tables), document))
                           else WithoutDocument(old(db.tables), document)
    ensures r == Err(DocumentNotFound) ==> db.tables == old(db.tables)
    ensures Valid(db.tables)
  {
    if document !in db.tables.documents {
      return Err(DocumentNotFound);
    }
    CascadeDeleteDocument(db, document);
    if prune {
      var summary := PruneOrphanGraphNodes(db);
      if summary.None? {
        return Err(PruneRefused);
      }
    }
    return Ok(());
  }

  /** The request around the deletion: an exception skips its commit, and get_db_session rolls back. So the deletion
      takes place exactly when there is the document and, with the prune, each active concept that is studied has the
      support of another document; otherwise nothing changes. */
  method ServeDeletion(db: Session, document: int, prune: bool) returns (r: Result<(), DeleteError>)
    requires Valid(db.tables)
    modifies db
    ensures r.Ok? <==>
              document in old(db.tables.documents) && (prune ==> StudiedElsewhere(old(db.tables), document))
    ensures r.Ok? ==>
              db.tables == if prune then Pruned(WithoutDocument(old(db.tables), document))
                           else WithoutDocument(old(db.tables), document)
    ensures r.Err? ==> db.tables == old(db.tables)
    ensures r == Err(DocumentNotFound) <==> document !in old(db.tables.documents)
    ensures Valid(db.tables)
  {
    var before := db.tables;
    DeletionCondition(before, document);
    hide WithoutDocument, Pruned, CanPrune, StudiedElsewhere, Valid;
    r := DeleteDocument(db, document, prune);
    if r.Err? {
      db.tables := before;
    }
  }

  /** Every active concept that is studied has the support of another document. */
  ghost predicate StudiedElsewhere(t: Tables, document: int) {
    forall c | c in t.studied && IsActive(t, c) :: SupportedElsewhere(t, ConceptTarget(c), document)
  }

  lemma DeletionCondition(t: Tables, document: int)
    requires Valid(t)
    ensures CanPrune(WithoutDocument(t, document)) <==> StudiedElsewhere(t, document)
  {
    var d := WithoutDocument(t, document);
    hide WithoutDocument, SupportedElsewhere, HasProvenance;
    forall c ensures HasProvenance(d, ConceptTarget(c)) <==> SupportedElsewhere(t, ConceptTarget(c), document) {
      ProvenanceElsewhere(t, ConceptTarget(c), document);
    }
    DocumentAway(t, document);
    assert forall c :: c in OrphanConcepts(d) <==>
                       IsActive(t, c) && !SupportedElsewhere(t, ConceptTarget(c), document);
  }

  lemma DocumentAway(t: Tables, document: int)
    ensures WithoutDocument(t, document).concepts == t.concepts && WithoutDocument(t, document).studied == t.studied
  {
  }

  /** Some chunk of another document supports the target. */
  ghost predicate SupportedElsewhere(t: Tables, target: Target, document: int) {
    exists p | p in t.provenance :: p.0 == target && p.1 in t.chunks && t.chunks[p.1] != document
  }

  lemma ProvenanceElsewhere(t: Tables, target: Target, document: int)
    requires Valid(t)
    ensures HasProvenance(WithoutDocument(t, document), target) <==> SupportedElsewhere(t, target, document)
  {
    var d := WithoutDocument(t, document);
    if HasProvenance(d, target) {
      var p :| p in d.provenance && p.0 == target;
      assert p in t.provenance && p.1 in t.chunks;
    }
    if SupportedElsewhere(t, target, document) {
      var p :| p in t.provenance && p.0 == target && p.1 in t.chunks && t.chunks[p.1] != document;
      assert p in d.provenance;
    }
  }

  /** Deleting a document and pruning keeps exactly the active concepts that another document supports, exactly the
      edges another document supports between kept ends, and every row cut from another document. */
  lemma DeletionSurvivors(t: Tables, document: int)
    requires Valid(t)
    ensures var after := Pruned(WithoutDocument(t, document));
            && (Valid(after) <==> StudiedElsewhere(t, document))
            && (forall c :: IsActive(after, c) <==> IsActive(t, c) && SupportedElsewhere(t, ConceptTarget(c), document))
            && (forall e :: e in after.edges <==>
                  && e in t.edges && SupportedElsewhere(t, EdgeTarget(e), document)
                  && t.edges[e].key.src in after.concepts && t.edges[e].key.tgt in after.concepts)
            && (forall a :: a in after.aliases <==> a in t.aliases && t.aliases[a] in after.concepts)
            && (forall c :: c in after.chunks <==> c in t.chunks && t.chunks[c] != document)
            && (forall p :: p in after.provenance <==> p in t.provenance && t.chunks[p.1] != document)
  {
    var d := WithoutDocument(t, document);
    forall target ensures HasProvenance(d, target) <==> SupportedElsewhere(t, target, document) {
      ProvenanceElsewhere(t, target, document);
    }
    DocumentGoes(t, document);
    PrunedIsValid(d);
    DeletionCondition(t, document);
    PruneSurvivors(d);
    assert ChunkKeysHold(t) && ConceptKeysHold(t);
    hide Valid, CanPrune, StudiedElsewhere, SupportedElsewhere, HasProvenance;
  }

  lemma DocumentGoes(t: Tables, document: int)
    requires Valid(t)
    ensures Valid(WithoutDocument(t, document))
  {
    hide EdgesAreSound, ConceptKeysHold;
    assert EdgesAreSound(t.edges, t.nextEdge) && ConceptKeysHold(t);
    KeysUnchanged(t, WithoutDocument(t, document));
  }

  lemma KeysUnchanged(t: Tables, after: Tables)
    requires ConceptKeysHold(t) && after == t.(documents := after.documents, chunks := after.chunks,
                                               rawConcepts := after.rawConcepts, rawEdges := after.rawEdges,
                                               provenance := after.provenance)
    ensures ConceptKeysHold(after)
  {
  }

  /** One document, one concept found in it, and one quiz on the concept: deleting the document with the prune is
      refused, and its concept would have left the quiz dangling. */
  lemma QuizKeepsDocument(c: Concept)
    requires c.active
    ensures var t := Tables({1}, map[1 := 1], map[], map[], map[1 := c], map[], 2, 0, map[], {},
                            {(ConceptTarget(1), 1)}, map[], {1});
            && Valid(t) && HasProvenance(t, ConceptTarget(1)) && OrphanConcepts(t) == {}
            && !StudiedElsewhere(t, 1) && !CanPrune(WithoutDocument(t, 1))
            && Valid(WithoutDocument(t, 1)) && !Valid(Pruned(WithoutDocument(t, 1)))
  {
    var t := Tables({1}, map[1 := 1], map[], map[], map[1 := c], map[], 2, 0, map[], {},
                    {(ConceptTarget(1), 1)}, map[], {1});
    assert (ConceptTarget(1), 1) in t.provenance;
    QuizTablesHold(c, t);
    DeletionCondition(t, 1);
    DocumentGoes(t, 1);
    hide Valid, WithoutDocument, CanPrune;
    PrunedIsValid(WithoutDocument(t, 1));
  }

  lemma QuizTablesHold(c: Concept, t: Tables)
    requires c.active
    requires t == Tables({1}, map[1 := 1], map[], map[], map[1 := c], map[], 2, 0, map[], {},
                         {(ConceptTarget(1), 1)}, map[], {1})
    ensures Valid(t)
  {
  }
}
