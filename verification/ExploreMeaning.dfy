/** What the exploration queries return, said of the rows alone (domain/graph/explore.py). */
module ExploreMeaning {
  import opened Wrappers
  import opened Ordering
  import opened GraphTables
  import opened Components
  import opened Explore

  // ---- ancestors ----

  /** Some row leads one step up from a to b. */
  ghost predicate IsUp(t: Tables, a: int, b: int) {
    exists e | e in t.edges ::
      t.edges[e].key == EdgeKey(a, b, "belongs_to") || t.edges[e].key == EdgeKey(b, a, "has_subtopic")
  }

  /** p climbs from a to b in n steps. */
  ghost predicate Climbs(t: Tables, p: seq<int>, a: int, b: int, n: nat) {
    && |p| == n + 1 && p[0] == a && p[n] == b
    && forall i | 0 <= i < n :: IsUp(t, p[i], p[i + 1])
  }

  ghost predicate IsAbove(t: Tables, a: int, b: int, n: nat) { exists p :: Climbs(t, p, a, b, n) }

  lemma UpIsParent(t: Tables, a: int, b: int)
    requires Valid(t)
    ensures b in Neighbours(Hierarchy(t), a) <==> IsUp(t, a, b)
  {
    assert ConceptKeysHold(t);
    hide Valid;
    if b in Neighbours(Hierarchy(t), a) {
      assert b in Parents(t, a);
      var e :| e in t.edges &&
        ((t.edges[e].key.relation == "belongs_to" && t.edges[e].key.src == a && t.edges[e].key.tgt == b) ||
         (t.edges[e].key.relation == "has_subtopic" && t.edges[e].key.tgt == a && t.edges[e].key.src == b));
      assert t.edges[e].key == EdgeKey(a, b, "belongs_to") || t.edges[e].key == EdgeKey(b, a, "has_subtopic");
    }
    if IsUp(t, a, b) {
      var e :| e in t.edges &&
        (t.edges[e].key == EdgeKey(a, b, "belongs_to") || t.edges[e].key == EdgeKey(b, a, "has_subtopic"));
      assert a in t.concepts;
    }
  }

  lemma ClimbsAreWalks(t: Tables, a: int, b: int, n: nat)
    requires Valid(t)
    ensures HasWalk(Hierarchy(t), a, b, n) <==> IsAbove(t, a, b, n)
  {
    forall u, v ensures v in Neighbours(Hierarchy(t), u) <==> IsUp(t, u, v) { UpIsParent(t, u, v); }
    hide Hierarchy, IsUp, Valid, Neighbours;
    if HasWalk(Hierarchy(t), a, b, n) {
      var p :| IsWalk(Hierarchy(t), p, a, b, n);
      assert Climbs(t, p, a, b, n);
    }
    if IsAbove(t, a, b, n) {
      var p :| Climbs(t, p, a, b, n);
      assert IsWalk(Hierarchy(t), p, a, b, n);
    }
  }

  /** b is at most depth steps above a. */
  ghost predicate IsWithin(t: Tables, a: int, b: int, depth: nat) { exists n: nat | n <= depth :: IsAbove(t, a, b, n) }

  lemma WithinIsWalk(t: Tables, a: int, b: int, depth: nat)
    requires Valid(t)
    ensures (exists n: nat | n <= depth :: HasWalk(Hierarchy(t), a, b, n)) <==> IsWithin(t, a, b, depth)
  {
    forall n: nat ensures HasWalk(Hierarchy(t), a, b, n) <==> IsAbove(t, a, b, n) { ClimbsAreWalks(t, a, b, n); }
    hide HasWalk, IsAbove, Hierarchy, Valid;
  }

  /** The chain of a concept lists the active concepts above it that are reached in at most maxDepth steps along
      belongs_to or against has_subtopic, each once and not the concept itself, by the least number of steps. */
  lemma AncestorsMeaning(t: Tables, rank: Collation, id: int, maxDepth: nat)
    requires Valid(t)
    ensures var chain := AncestorChain(t, rank, id, maxDepth);
            && (forall v :: v in chain <==> IsActive(t, v) && v != id && IsWithin(t, id, v, maxDepth))
            && (forall i, j | 0 <= i < j < |chain| :: chain[i] != chain[j])
            && (forall i, j, n: nat | 0 <= i < j < |chain| && IsAbove(t, id, chain[j], n) ::
                  IsWithin(t, id, chain[i], n))
  {
    var chain, adj := AncestorChain(t, rank, id, maxDepth), Hierarchy(t);
    AncestorChainMeaning(t, rank, id, maxDepth);
    hide AncestorChain, Hierarchy, IsAbove, IsWithin, Valid, IsDistance, IsActive;
    forall v ensures v in chain <==> IsActive(t, v) && v != id && IsWithin(t, id, v, maxDepth) {
      WithinDepth(adj, id, v, maxDepth);
      WithinIsWalk(t, id, v, maxDepth);
    }
    forall i, j | 0 <= i < j < |chain|
      ensures chain[i] != chain[j]
      ensures forall n: nat | IsAbove(t, id, chain[j], n) :: IsWithin(t, id, chain[i], n)
    {
      assert chain[i] in chain && chain[j] in chain;
      NearerFirst(t, id, chain[i], chain[j]);
    }
  }

  /** A concept at most as far as another is above within every climb to the other. */
  lemma NearerFirst(t: Tables, id: int, u: int, v: int)
    requires Valid(t) && exists d: nat :: IsDistance(Hierarchy(t), id, u, d)
    requires exists e: nat :: IsDistance(Hierarchy(t), id, v, e)
    requires forall d: nat, e: nat | IsDistance(Hierarchy(t), id, u, d) && IsDistance(Hierarchy(t), id, v, e) ::
               u != v && d <= e
    ensures u != v && forall n: nat | IsAbove(t, id, v, n) :: IsWithin(t, id, u, n)
  {
    var adj := Hierarchy(t);
    var d: nat :| IsDistance(adj, id, u, d);
    DistanceWalks(adj, id, u, d);
    hide Hierarchy, IsAbove, IsWithin, Valid, IsDistance, HasWalk;
    forall n: nat | IsAbove(t, id, v, n) ensures IsWithin(t, id, u, n) {
      ClimbsAreWalks(t, id, v, n);
      var e := LeastWalk(adj, id, v, n);
      WithinIsWalk(t, id, u, n);
    }
  }

  lemma DistanceWalks(adj: Adjacency, u: int, v: int, d: nat)
    requires IsDistance(adj, u, v, d)
    ensures HasWalk(adj, u, v, d)
  {
  }

  /** A positive distance within the depth is any walk within it to another concept. */
  lemma WithinDepth(adj: Adjacency, u: int, v: int, depth: nat)
    ensures (exists d: nat :: 1 <= d <= depth && IsDistance(adj, u, v, d)) <==>
              v != u && exists n: nat | n <= depth :: HasWalk(adj, u, v, n)
  {
    WalkOfNothing(adj, u, v);
    if n: nat :| n <= depth && HasWalk(adj, u, v, n) {
      var d := LeastWalk(adj, u, v, n);
    }
    hide HasWalk;
  }

  /** Where there is a walk there is a shortest one, no longer. */
  lemma {:induction false} LeastWalk(adj: Adjacency, u: int, v: int, n: nat) returns (d: nat)
    requires HasWalk(adj, u, v, n)
    ensures d <= n && IsDistance(adj, u, v, d)
    decreases n
  {
    if g: nat :| g < n && HasWalk(adj, u, v, g) { d := LeastWalk(adj, u, v, g); } else { d := n; }
  }

  // ---- bounded subgraphs ----

  /** Some row joins a to b, in either direction, and b is active. */
  ghost predicate IsStep(t: Tables, a: int, b: int) {
    IsActive(t, b) &&
    exists e | e in t.edges ::
      (t.edges[e].key.src == a && t.edges[e].key.tgt == b) || (t.edges[e].key.src == b && t.edges[e].key.tgt == a)
  }

  ghost predicate Follows(t: Tables, p: seq<int>, a: int, b: int, n: nat) {
    && |p| == n + 1 && p[0] == a && p[n] == b
    && forall i | 0 <= i < n :: IsStep(t, p[i], p[i + 1])
  }

  ghost predicate IsReached(t: Tables, a: int, b: int, n: nat) { exists p :: Follows(t, p, a, b, n) }

  /** b is reached from a in n steps and in no fewer. */
  ghost predicate IsFewest(t: Tables, a: int, b: int, n: nat) {
    IsReached(t, a, b, n) && forall m: nat | m < n :: !IsReached(t, a, b, m)
  }

  lemma ReachedIsWalk(t: Tables, a: int, b: int, n: nat)
    requires Valid(t)
    ensures HasWalk(ActiveGraph(t), a, b, n) <==> IsReached(t, a, b, n)
  {
    forall u, v ensures v in Neighbours(ActiveGraph(t), u) <==> IsStep(t, u, v) { LinkMeans(t, u, v); }
    hide ActiveGraph, IsStep, Valid, Neighbours;
    if HasWalk(ActiveGraph(t), a, b, n) {
      var p :| IsWalk(ActiveGraph(t), p, a, b, n);
      assert Follows(t, p, a, b, n);
    }
    if IsReached(t, a, b, n) {
      var p :| Follows(t, p, a, b, n);
      assert IsWalk(ActiveGraph(t), p, a, b, n);
    }
  }

  lemma LeastIsDistance(t: Tables, a: int, b: int, n: nat)
    requires Valid(t)
    ensures IsDistance(ActiveGraph(t), a, b, n) <==> IsFewest(t, a, b, n)
  {
    forall m: nat ensures HasWalk(ActiveGraph(t), a, b, m) <==> IsReached(t, a, b, m) { ReachedIsWalk(t, a, b, m); }
    hide HasWalk, IsReached, ActiveGraph, Valid;
  }

  /** A listed or unlisted node: nearer ones first, then by name, then by id. */
  ghost predicate ComesBefore(rank: Collation, u: int, du: nat, v: int, dv: nat) {
    du < dv || (du == dv && (rank(u) < rank(v) || (rank(u) == rank(v) && u < v)))
  }

  /** The rows of the nodes: active concepts with their least number of steps from the root, within the hop limit, in
      order, at most maxNodes of them, and none left out that comes before one listed. */
  ghost predicate AreNearest(t: Tables, rank: Collation, root: int, maxHops: nat, maxNodes: nat, rows: seq<NodeRow>) {
    && (forall i | 0 <= i < |rows| ::
          IsActive(t, rows[i].id) && rows[i].hop <= maxHops && IsFewest(t, root, rows[i].id, rows[i].hop))
    && (forall i, j | 0 <= i < j < |rows| :: ComesBefore(rank, rows[i].id, rows[i].hop, rows[j].id, rows[j].hop))
    && |rows| <= maxNodes
    && (forall v, d: nat | IsActive(t, v) && d <= maxHops && IsFewest(t, root, v, d) ::
          NodeRow(v, d) in rows ||
          (|rows| == maxNodes && forall i | 0 <= i < |rows| :: ComesBefore(rank, rows[i].id, rows[i].hop, v, d)))
  }

  lemma KeptHaveHops(t: Tables, rank: Collation, root: int, maxHops: nat, maxNodes: nat)
    ensures AllIn(KeptNodes(t, rank, root, maxHops, maxNodes), Ranked(ActiveGraph(t), root, maxHops))
  {
    hide Ranked, ActiveGraph, KeptNodes, ActiveRanked, Nearer, Ascending;
    KeptAreRanked(t, rank, root, maxHops, maxNodes);
    AllAreIn(KeptNodes(t, rank, root, maxHops, maxNodes), Ranked(ActiveGraph(t), root, maxHops));
  }

  lemma AllAreIn(kept: seq<int>, ranked: map<int, nat>)
    requires forall v | v in kept :: v in ranked
    ensures AllIn(kept, ranked)
  {
    forall i | 0 <= i < |kept| ensures kept[i] in ranked {
      var v := kept[i];
      assert v in kept;
    }
  }

  lemma NodesMeaning(t: Tables, rank: Collation, root: int, maxHops: nat, maxNodes: nat)
    requires Valid(t)
    ensures var ranked, kept := Ranked(ActiveGraph(t), root, maxHops), KeptNodes(t, rank, root, maxHops, maxNodes);
            AllIn(kept, ranked) && AreNearest(t, rank, root, maxHops, maxNodes, NodeRows(kept, ranked))
  {
    var ranked, kept := Ranked(ActiveGraph(t), root, maxHops), KeptNodes(t, rank, root, maxHops, maxNodes);
    KeptAreRanked(t, rank, root, maxHops, maxNodes);
    KeptHaveHops(t, rank, root, maxHops, maxNodes);
    hide Ranked, ActiveGraph, KeptNodes, Valid, IsFewest, AreNearest, ActiveRanked, Nearer, IsActive, NodeRows,
      Ascending;
    RankedAreLeast(t, root, maxHops);
    RowsAreNearest(t, rank, root, maxHops, maxNodes, ranked, kept, NodeRows(kept, ranked));
  }

  /** A map from what is reached within the hop limit to its least number of steps. */
  ghost predicate AreLeast(t: Tables, root: int, maxHops: nat, ranked: map<int, nat>) {
    && (forall v | v in ranked :: ranked[v] <= maxHops && IsFewest(t, root, v, ranked[v]))
    && (forall v, d: nat | d <= maxHops && IsFewest(t, root, v, d) :: v in ranked && ranked[v] == d)
  }

  lemma RankedAreLeast(t: Tables, root: int, maxHops: nat)
    requires Valid(t)
    ensures var ranked := Ranked(ActiveGraph(t), root, maxHops);
            AreLeast(t, root, maxHops, ranked)
  {
    var adj := ActiveGraph(t);
    var ranked := Ranked(adj, root, maxHops);
    hide Ranked, ActiveGraph, Valid, IsFewest, IsDistance;
    forall v | v in ranked ensures ranked[v] <= maxHops && IsFewest(t, root, v, ranked[v]) {
      RankedIsDistance(adj, root, maxHops, v, ranked[v]);
      LeastIsDistance(t, root, v, ranked[v]);
    }
    forall v, d: nat | d <= maxHops && IsFewest(t, root, v, d) ensures v in ranked && ranked[v] == d {
      RankedIsDistance(adj, root, maxHops, v, d);
      LeastIsDistance(t, root, v, d);
    }
  }

  /** Rows of the kept nodes. */
  ghost predicate AreRowsOf(rows: seq<NodeRow>, ranked: map<int, nat>, kept: seq<int>) {
    && |rows| == |kept|
    && forall i | 0 <= i < |rows| :: kept[i] in ranked && rows[i] == NodeRow(kept[i], ranked[kept[i]])
  }

  lemma RowsAreNearest(t: Tables, rank: Collation, root: int, maxHops: nat, maxNodes: nat, ranked: map<int, nat>,
                       kept: seq<int>, rows: seq<NodeRow>)
    requires AreRowsOf(rows, ranked, kept)
    requires AreLeast(t, root, maxHops, ranked)
    requires forall v | v in kept :: v in ranked && IsActive(t, v)
    requires forall u, v | u in ranked && IsActive(t, u) && v in kept && Nearer(ranked, rank)(u, v) :: u in kept
    requires |ActiveRanked(t, ranked)| <= maxNodes ==> forall v | v in ranked && IsActive(t, v) :: v in kept
    requires |kept| == if |ActiveRanked(t, ranked)| <= maxNodes then |ActiveRanked(t, ranked)| else maxNodes
    requires Ascending(kept, Nearer(ranked, rank))
    ensures AreNearest(t, rank, root, maxHops, maxNodes, rows)
  {
    hide IsFewest, IsActive, ActiveRanked;
    forall v, d: nat | IsActive(t, v) && d <= maxHops && IsFewest(t, root, v, d)
      ensures NodeRow(v, d) in rows ||
              (|rows| == maxNodes && forall i | 0 <= i < |rows| :: ComesBefore(rank, rows[i].id, rows[i].hop, v, d))
    {
      assert v in ranked && ranked[v] == d;
      if v in kept {
        var i :| 0 <= i < |kept| && kept[i] == v;
        assert rows[i] == NodeRow(v, d);
      } else {
        LaterLeftOut(rank, ranked, kept, rows, v);
      }
    }
    RowsInOrder(rank, ranked, kept, rows);
    hide ComesBefore, Nearer, Ascending;
    forall i | 0 <= i < |rows|
      ensures IsActive(t, rows[i].id) && rows[i].hop <= maxHops && IsFewest(t, root, rows[i].id, rows[i].hop)
    {
      assert kept[i] in kept;
      assert rows[i].id in ranked && ranked[rows[i].id] == rows[i].hop;
    }
  }

  lemma LaterLeftOut(rank: Collation, ranked: map<int, nat>, kept: seq<int>, rows: seq<NodeRow>, v: int)
    requires AreRowsOf(rows, ranked, kept) && v in ranked && v !in kept
    requires forall u | u in kept :: !Nearer(ranked, rank)(v, u)
    ensures forall i | 0 <= i < |rows| :: ComesBefore(rank, rows[i].id, rows[i].hop, v, ranked[v])
  {
    forall i | 0 <= i < |rows| ensures ComesBefore(rank, rows[i].id, rows[i].hop, v, ranked[v]) {
      assert kept[i] in kept;
    }
  }

  lemma RowsInOrder(rank: Collation, ranked: map<int, nat>, kept: seq<int>, rows: seq<NodeRow>)
    requires AreRowsOf(rows, ranked, kept) && Ascending(kept, Nearer(ranked, rank))
    ensures forall i, j | 0 <= i < j < |rows| ::
              ComesBefore(rank, rows[i].id, rows[i].hop, rows[j].id, rows[j].hop)
  {
    forall i, j | 0 <= i < j < |rows|
      ensures ComesBefore(rank, rows[i].id, rows[i].hop, rows[j].id, rows[j].hop)
    {
      assert Nearer(ranked, rank)(kept[i], kept[j]);
    }
  }

  /** An edge row joins two of the nodes. */
  ghost predicate JoinsNodes(t: Tables, rows: seq<NodeRow>, e: int) {
    && e in t.edges
    && (exists i :: 0 <= i < |rows| && rows[i].id == t.edges[e].key.src)
    && (exists i :: 0 <= i < |rows| && rows[i].id == t.edges[e].key.tgt)
  }

  ghost predicate IsHeavier(t: Tables, e: int, f: int) {
    && e in t.edges && f in t.edges
    && (t.edges[e].weight > t.edges[f].weight || (t.edges[e].weight == t.edges[f].weight && e < f))
  }

  /** The edges: rows that join two nodes, the heaviest first and the older of equals, at most maxEdges of them, and
      none left out that comes before one listed. */
  ghost predicate AreHeaviest(t: Tables, rows: seq<NodeRow>, maxEdges: nat, edges: seq<int>) {
    && (forall e | e in edges :: JoinsNodes(t, rows, e))
    && (forall i, j | 0 <= i < j < |edges| :: IsHeavier(t, edges[i], edges[j]))
    && |edges| <= maxEdges
    && (forall f | JoinsNodes(t, rows, f) ::
          f in edges ||
          (|edges| == maxEdges && forall e | e in edges :: IsHeavier(t, e, f)))
  }

  lemma EdgesMeaning(t: Tables, nodes: seq<int>, rows: seq<NodeRow>, maxEdges: nat)
    requires |rows| == |nodes| && forall i | 0 <= i < |rows| :: rows[i].id == nodes[i] && IsActive(t, nodes[i])
    ensures AreHeaviest(t, rows, maxEdges, KeptEdges(t, nodes, maxEdges))
  {
    var s, lt := EdgesAmong(t, nodes), Heavier(t.edges);
    HeavierIsTotal(t.edges, s);
    var all := Sorted(s, lt);
    AmongAreJoining(t, nodes, rows);
    TakeIsDownClosed(s, all, lt, maxEdges);
    TakeAscends(all, lt, maxEdges);
    hide Sorted, EdgesAmong, JoinsNodes, Ascending, Heavier, StrictTotalOn;
    TakenAreHeaviest(t, rows, maxEdges, s, Take(all, maxEdges), |all|);
  }

  lemma AmongAreJoining(t: Tables, nodes: seq<int>, rows: seq<NodeRow>)
    requires |rows| == |nodes| && forall i | 0 <= i < |rows| :: rows[i].id == nodes[i] && IsActive(t, nodes[i])
    ensures forall e :: e in EdgesAmong(t, nodes) <==> JoinsNodes(t, rows, e)
  {
    forall e ensures e in EdgesAmong(t, nodes) <==> JoinsNodes(t, rows, e) {
      if e in EdgesAmong(t, nodes) {
        var i :| 0 <= i < |nodes| && nodes[i] == t.edges[e].key.src;
        var j :| 0 <= j < |nodes| && nodes[j] == t.edges[e].key.tgt;
        assert rows[i].id == nodes[i] && rows[j].id == nodes[j];
      }
    }
  }

  lemma TakenAreHeaviest(t: Tables, rows: seq<NodeRow>, maxEdges: nat, s: set<int>, edges: seq<int>, size: nat)
    requires s <= t.edges.Keys && forall e :: e in s <==> JoinsNodes(t, rows, e)
    requires StrictTotalOn(s, Heavier(t.edges)) && Ascending(edges, Heavier(t.edges))
    requires forall e | e in edges :: e in s
    requires forall e, f | e in s && f in edges && Heavier(t.edges)(e, f) :: e in edges
    requires size <= maxEdges ==> forall e | e in s :: e in edges
    requires |edges| == if size <= maxEdges then size else maxEdges
    ensures AreHeaviest(t, rows, maxEdges, edges)
  {
    hide JoinsNodes, StrictTotalOn, Ascending, IsHeavier;
    TakenInOrder(t, edges, s);
    forall f | JoinsNodes(t, rows, f) && f !in edges
      ensures |edges| == maxEdges && forall e | e in edges :: IsHeavier(t, e, f)
    {
      LeftOutLater(t, edges, s, f);
    }
  }

  lemma TakenInOrder(t: Tables, edges: seq<int>, s: set<int>)
    requires Ascending(edges, Heavier(t.edges)) && s <= t.edges.Keys && forall e | e in edges :: e in s
    ensures forall i, j | 0 <= i < j < |edges| :: IsHeavier(t, edges[i], edges[j])
  {
    forall i, j | 0 <= i < j < |edges| ensures IsHeavier(t, edges[i], edges[j]) {
      var e, f := edges[i], edges[j];
      assert e in edges && f in edges && Heavier(t.edges)(e, f);
    }
  }

  lemma LeftOutLater(t: Tables, edges: seq<int>, s: set<int>, f: int)
    requires StrictTotalOn(s, Heavier(t.edges)) && s <= t.edges.Keys && f in s && f !in edges
    requires forall e | e in edges :: e in s && !Heavier(t.edges)(f, e)
    ensures forall e | e in edges :: IsHeavier(t, e, f)
  {
    forall e | e in edges ensures IsHeavier(t, e, f) {
      assert Heavier(t.edges)(e, f);
    }
  }

  /** get_bounded_subgraph: not found when no active concept is reached within the hop limit; otherwise the nearest
      concepts with their distances, and the heaviest rows between them. */
  lemma SubgraphMeaning(t: Tables, rank: Collation, root: int, maxHops: nat, maxNodes: nat, maxEdges: nat)
    requires Valid(t) && maxNodes > 0
    ensures match BoundedSubgraph(t, rank, root, maxHops, maxNodes, maxEdges)
            case None => forall v, d: nat | IsActive(t, v) && d <= maxHops :: !IsFewest(t, root, v, d)
            case Some(g) =>
              && g.nodes != [] && AreNearest(t, rank, root, maxHops, maxNodes, g.nodes)
              && AreHeaviest(t, g.nodes, maxEdges, g.edges)
  {
    NodesMeaning(t, rank, root, maxHops, maxNodes);
    hide Ranked, KeptNodes, ActiveGraph, KeptEdges, AreHeaviest, AreNearest, Valid, IsActive;
    var nodes, ranked := KeptNodes(t, rank, root, maxHops, maxNodes), Ranked(ActiveGraph(t), root, maxHops);
    var rows := NodeRows(nodes, ranked);
    if nodes == [] {
      NothingNear(t, rank, root, maxHops, maxNodes, rows);
    } else {
      RowsAreActive(t, rank, root, maxHops, maxNodes, rows);
      EdgesMeaning(t, nodes, rows, maxEdges);
    }
  }

  lemma NothingNear(t: Tables, rank: Collation, root: int, maxHops: nat, maxNodes: nat, rows: seq<NodeRow>)
    requires AreNearest(t, rank, root, maxHops, maxNodes, rows) && rows == [] && maxNodes > 0
    ensures forall v, d: nat | IsActive(t, v) && d <= maxHops :: !IsFewest(t, root, v, d)
  {
    hide IsFewest, IsActive;
  }

  lemma RowsAreActive(t: Tables, rank: Collation, root: int, maxHops: nat, maxNodes: nat, rows: seq<NodeRow>)
    requires AreNearest(t, rank, root, maxHops, maxNodes, rows)
    ensures forall i | 0 <= i < |rows| :: IsActive(t, rows[i].id)
  {
    hide IsFewest, IsActive, ComesBefore;
  }
}
