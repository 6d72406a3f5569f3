/** The rows of one workspace that the graph code reads and writes, and the constraints its schema declares. */
module GraphTables {
  import opened Wrappers

  datatype Tier = Umbrella | Topic | Subtopic | Granular

  /** tier_rank: higher is more specific, 0 is unknown. */
  function TierRank(tier: Option<Tier>): nat {
    match tier
    case None => 0
    case Some(Umbrella) => 1
    case Some(Topic) => 2
    case Some(Subtopic) => 3
    case Some(Granular) => 4
  }

  datatype Concept = Concept(name: string, aliases: seq<string>, tier: Option<Tier>, active: bool, dirty: bool)

  datatype EdgeKey = EdgeKey(src: int, tgt: int, relation: string)

  datatype Edge = Edge(key: EdgeKey, description: string, keywords: seq<string>, weight: real)

  datatype Target = ConceptTarget(id: int) | EdgeTarget(id: int)

  /** One mastery row: whose, of which concept. */
  datatype MasteryKey = MasteryKey(user: int, concept: int)

  datatype Tables = Tables(
    documents: set<int>,
    chunks: map<int, int>,              // chunk -> document
    rawConcepts: map<int, int>,         // row -> chunk
    rawEdges: map<int, int>,            // row -> chunk
    concepts: map<int, Concept>,
    edges: map<int, Edge>,
    nextConcept: int,                   // identity counters: every id issued so far is smaller
    nextEdge: int,
    aliases: map<string, int>,          // concept_merge_map: normalized alias -> concept
    mergeLog: set<(int, int)>,          // (from, to)
    provenance: set<(Target, int)>,     // (target, chunk)
    mastery: map<MasteryKey, bool>,     // row -> whether it records progress
    studied: set<int>)                  // concepts that quizzes, topic states, practice rows and chats refer to

  predicate IsActive(t: Tables, id: int) { id in t.concepts && t.concepts[id].active }

  predicate HasProvenance(t: Tables, target: Target) {
    exists p | p in t.provenance :: p.0 == target
  }

  /** Foreign keys out of the chunk tables. */
  ghost predicate ChunkKeysHold(t: Tables) {
    && (forall c | c in t.chunks :: t.chunks[c] in t.documents)
    && (forall r | r in t.rawConcepts :: t.rawConcepts[r] in t.chunks)
    && (forall r | r in t.rawEdges :: t.rawEdges[r] in t.chunks)
    && (forall p | p in t.provenance :: p.1 in t.chunks)
  }

  /** Foreign keys into the canonical concepts. */
  predicate ConceptKeysHold(t: Tables) {
    && (forall e | e in t.edges :: t.edges[e].key.src in t.concepts && t.edges[e].key.tgt in t.concepts)
    && (forall a | a in t.aliases :: t.aliases[a] in t.concepts)
    && (forall m | m in t.mergeLog :: m.0 in t.concepts && m.1 in t.concepts)
    && (forall k | k in t.mastery :: k.concept in t.concepts)
    && (forall c | c in t.studied :: c in t.concepts)
  }

  /** Uniqueness and check constraints, and ids taken from the identity counters. */
  ghost predicate RowsAreSound(t: Tables) {
    && EdgesAreSound(t.edges, t.nextEdge)
    && (forall m | m in t.mergeLog :: m.0 != m.1)
    && (forall c | c in t.concepts :: c < t.nextConcept)
    && (forall c, d | c in t.concepts && d in t.concepts && t.concepts[c].name == t.concepts[d].name :: c == d)
    && (forall p | p in t.provenance && p.0.EdgeTarget? :: p.0.id < t.nextEdge)
  }

  ghost predicate EdgesAreSound(edges: map<int, Edge>, nextEdge: int) {
    && (forall e | e in edges :: e < nextEdge && edges[e].key.src != edges[e].key.tgt && edges[e].weight >= 0.0)
    && UniqueKeys(edges)
  }

  ghost predicate UniqueKeys(edges: map<int, Edge>) {
    forall e, f | e in edges && f in edges && edges[e].key == edges[f].key :: e == f
  }

  /** What the database schema guarantees of the tables. */
  ghost predicate Valid(t: Tables) {
    ChunkKeysHold(t) && ConceptKeysHold(t) && RowsAreSound(t)
  }

  /** The normalized alias map points only at active concepts. */
  ghost predicate AliasesActive(t: Tables) {
    forall a | a in t.aliases :: IsActive(t, t.aliases[a])
  }

  /** The session: one workspace's tables, changed statement by statement. */
  class Session {
    var tables: Tables

    constructor (t: Tables)
      ensures tables == t
    {
      tables := t;
    }
  }
}
