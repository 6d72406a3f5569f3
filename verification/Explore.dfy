/** Bounded exploration of the concept graph (domain/graph/explore.py): recursive walks against shortest paths. */
module Explore {
  import opened Wrappers
  import opened Ordering
  import opened GraphTables
  import opened Components

  // ---- walks, level by level ----

  /** The concepts the recursive query reaches with exactly h joins. */
  function Level(adj: Adjacency, root: int, h: nat): set<int> {
    if h == 0 then {root} else set u, v | u in Level(adj, root, h - 1) && v in Neighbours(adj, u) :: v
  }

  ghost predicate IsWalk(adj: Adjacency, p: seq<int>, u: int, v: int, length: nat) {
    IsPathBetween(adj, p, u, v) && |p| == length + 1
  }

  ghost predicate HasWalk(adj: Adjacency, u: int, v: int, length: nat) {
    exists p :: IsWalk(adj, p, u, v, length)
  }

  lemma WalkExtends(adj: Adjacency, p: seq<int>, u: int, v: int, w: int, length: nat)
    requires IsWalk(adj, p, u, v, length) && w in Neighbours(adj, v)
    ensures HasWalk(adj, u, w, length + 1)
  {
    assert IsWalk(adj, p + [w], u, w, length + 1);
  }

  lemma WalkShrinks(adj: Adjacency, p: seq<int>, u: int, w: int, length: nat)
    requires IsWalk(adj, p, u, w, length) && length > 0
    ensures IsWalk(adj, p[..length], u, p[length - 1], length - 1) && w in Neighbours(adj, p[length - 1])
  {
    assert p[length - 1 + 1] in Neighbours(adj, p[length - 1]);
  }

  lemma {:induction false} LevelIsWalks(adj: Adjacency, root: int, v: int, h: nat)
    ensures v in Level(adj, root, h) <==> HasWalk(adj, root, v, h)
    decreases h
  {
    hide IsWalk;
    if h == 0 {
      WalkOfNothing(adj, root, v);
    } else {
      if v in Level(adj, root, h) {
        var u :| u in Level(adj, root, h - 1) && v in Neighbours(adj, u);
        LevelIsWalks(adj, root, u, h - 1);
        var p :| IsWalk(adj, p, root, u, h - 1);
        WalkExtends(adj, p, root, u, v, h - 1);
      }
      if HasWalk(adj, root, v, h) {
        var p :| IsWalk(adj, p, root, v, h);
        WalkLength(adj, p, root, v, h);
        WalkShrinks(adj, p, root, v, h);
        LevelIsWalks(adj, root, p[h - 1], h - 1);
      }
    }
  }

  lemma WalkLength(adj: Adjacency, p: seq<int>, u: int, v: int, length: nat)
    requires IsWalk(adj, p, u, v, length)
    ensures |p| == length + 1 && p[0] == u && p[length] == v
  {
  }

  lemma WalkOfNothing(adj: Adjacency, root: int, v: int)
    ensures HasWalk(adj, root, v, 0) <==> v == root
  {
    assert IsWalk(adj, [root], root, root, 0);
  }

  // ---- the ranked reach: least number of joins per concept ----

  predicate Reached(adj: Adjacency, root: int, limit: nat, v: int) {
    exists h | 0 <= h <= limit :: v in Level(adj, root, h)
  }

  /** The rows of the recursive query, without repetitions. */
  function ReachedIds(adj: Adjacency, root: int, limit: nat): (s: set<int>)
    ensures forall v :: v in s <==> Reached(adj, root, limit, v)
  {
    if limit == 0 then Level(adj, root, 0) else ReachedIds(adj, root, limit - 1) + Level(adj, root, limit)
  }

  /** min(hop_distance), searched upward from h. */
  function MinHop(adj: Adjacency, root: int, v: int, h: nat, limit: nat): (d: nat)
    requires exists g | h <= g <= limit :: v in Level(adj, root, g)
    ensures h <= d <= limit && v in Level(adj, root, d)
    ensures forall g | h <= g < d :: v !in Level(adj, root, g)
    decreases limit - h
  {
    if v in Level(adj, root, h) then h else MinHop(adj, root, v, h + 1, limit)
  }

  /** GROUP BY concept_id over the walks of at most limit joins. */
  function Ranked(adj: Adjacency, root: int, limit: nat): map<int, nat> {
    map v | v in ReachedIds(adj, root, limit) :: MinHop(adj, root, v, 0, limit)
  }

  /** d is the length of a shortest path. */
  ghost predicate IsDistance(adj: Adjacency, u: int, v: int, d: nat) {
    HasWalk(adj, u, v, d) && forall g: nat | g < d :: !HasWalk(adj, u, v, g)
  }

  /** The least hop over all bounded walks is the shortest-path distance, for exactly the concepts within the limit. */
  lemma RankedIsDistance(adj: Adjacency, root: int, limit: nat, v: int, d: nat)
    ensures (v in Ranked(adj, root, limit) && Ranked(adj, root, limit)[v] == d) <==>
              d <= limit && IsDistance(adj, root, v, d)
  {
    forall h: nat ensures v in Level(adj, root, h) <==> HasWalk(adj, root, v, h) {
      LevelIsWalks(adj, root, v, h);
    }
    hide HasWalk, Level;
  }

  /** A ranked concept other than the root has a neighbour ranked one hop closer. */
  lemma CloserNeighbour(adj: Adjacency, root: int, limit: nat, v: int) returns (u: int)
    requires v in Ranked(adj, root, limit) && Ranked(adj, root, limit)[v] > 0
    ensures v in Neighbours(adj, u)
    ensures u in Ranked(adj, root, limit) && Ranked(adj, root, limit)[u] == Ranked(adj, root, limit)[v] - 1
    ensures Ranked(adj, root, limit)[v] == 1 ==> u == root
  {
    var ranked := Ranked(adj, root, limit);
    var d := ranked[v];
    u :| u in Level(adj, root, d - 1) && v in Neighbours(adj, u);
    forall g: nat | g < d - 1 ensures u !in Level(adj, root, g) {
      assert v !in Level(adj, root, g + 1);
    }
  }

  lemma RootIsNearest(adj: Adjacency, root: int, limit: nat)
    ensures root in Ranked(adj, root, limit) && Ranked(adj, root, limit)[root] == 0
    ensures forall v | v in Ranked(adj, root, limit) && Ranked(adj, root, limit)[v] == 0 :: v == root
  {
    assert root in Level(adj, root, 0);
  }

  // ---- the bounded subgraph ----

  function Other(key: EdgeKey, id: int): int { if key.src == id then key.tgt else key.src }

  /** Active concepts one edge away. */
  function ActiveNext(t: Tables, id: int): set<int> {
    set e | e in t.edges && (t.edges[e].key.src == id || t.edges[e].key.tgt == id) &&
      IsActive(t, Other(t.edges[e].key, id))
      :: Other(t.edges[e].key, id)
  }

  /** The graph the recursive query walks: edges in either direction, into active concepts. */
  function ActiveGraph(t: Tables): Adjacency {
    map c | c in t.concepts :: ActiveNext(t, c)
  }

  /** The collation order of names, as a rank per concept; ties are broken by id. */
  type Collation = int -> int

  /** ORDER BY hop_distance, lower(canonical_name), concept_id */
  function Nearer(ranked: map<int, nat>, rank: Collation): (int, int) -> bool {
    (a, b) => a in ranked && b in ranked &&
      (ranked[a] < ranked[b] || (ranked[a] == ranked[b] && (rank(a) < rank(b) || (rank(a) == rank(b) && a < b))))
  }

  lemma NearerIsTotal(ranked: map<int, nat>, rank: Collation, s: set<int>)
    requires s <= ranked.Keys
    ensures StrictTotalOn(s, Nearer(ranked, rank))
  {
  }

  function Take<T>(xs: seq<T>, limit: nat): (ys: seq<T>) { if |xs| <= limit then xs else xs[..limit] }

  function ActiveRanked(t: Tables, ranked: map<int, nat>): set<int> {
    set v | v in ranked && IsActive(t, v)
  }

  /** The node rows: the first maxNodes active ranked concepts. */
  function KeptNodes(t: Tables, rank: Collation, root: int, maxHops: nat, maxNodes: nat): seq<int> {
    var ranked := Ranked(ActiveGraph(t), root, maxHops);
    NearerIsTotal(ranked, rank, ActiveRanked(t, ranked));
    Take(Sorted(ActiveRanked(t, ranked), Nearer(ranked, rank)), maxNodes)
  }

  /** ORDER BY weight DESC, id ASC */
  function Heavier(edges: map<int, Edge>): (int, int) -> bool {
    (e, f) => e in edges && f in edges &&
      (edges[e].weight > edges[f].weight || (edges[e].weight == edges[f].weight && e < f))
  }

  function EdgesAmong(t: Tables, nodes: seq<int>): set<int> {
    set e | e in t.edges && t.edges[e].key.src in nodes && t.edges[e].key.tgt in nodes
            && IsActive(t, t.edges[e].key.src) && IsActive(t, t.edges[e].key.tgt)
  }

  lemma HeavierIsTotal(edges: map<int, Edge>, s: set<int>)
    requires s <= edges.Keys
    ensures StrictTotalOn(s, Heavier(edges))
  {
  }

  function KeptEdges(t: Tables, nodes: seq<int>, maxEdges: nat): seq<int> {
    HeavierIsTotal(t.edges, EdgesAmong(t, nodes));
    Take(Sorted(EdgesAmong(t, nodes), Heavier(t.edges)), maxEdges)
  }

  datatype NodeRow = NodeRow(id: int, hop: nat)

  datatype Subgraph = Subgraph(nodes: seq<NodeRow>, edges: seq<int>)

  /** get_bounded_subgraph; None is the not-found error. */
  function BoundedSubgraph(t: Tables, rank: Collation, root: int, maxHops: nat, maxNodes: nat,
                           maxEdges: nat): Option<Subgraph> {
    var nodes := KeptNodes(t, rank, root, maxHops, maxNodes);
    if nodes == [] then None
    else
      KeptAreRanked(t, rank, root, maxHops, maxNodes);
      var ranked := Ranked(ActiveGraph(t), root, maxHops);
      Some(Subgraph(NodeRows(nodes, ranked), KeptEdges(t, nodes, maxEdges)))
  }

  function NodeRows(nodes: seq<int>, ranked: map<int, nat>): (rows: seq<NodeRow>)
    requires AllIn(nodes, ranked)
    ensures |rows| == |nodes|
    ensures forall i | 0 <= i < |rows| :: nodes[i] in ranked && rows[i] == NodeRow(nodes[i], ranked[nodes[i]])
  {
    if nodes == [] then []
    else
      var last := nodes[|nodes| - 1];
      assert last in nodes;
      NodeRows(nodes[..|nodes| - 1], ranked) + [NodeRow(last, ranked[last])]
  }

  ghost predicate AllIn(nodes: seq<int>, ranked: map<int, nat>) { forall i | 0 <= i < |nodes| :: nodes[i] in ranked }

  /** A prefix of an ascending listing holds, with each element, everything smaller. */
  lemma TakeIsDownClosed<T(!new)>(s: set<T>, xs: seq<T>, lt: (T, T) -> bool, limit: nat)
    requires StrictTotalOn(s, lt) && Ascending(xs, lt) && forall x :: x in xs <==> x in s
    ensures forall x :: x in Take(xs, limit) ==> x in s
    ensures forall x, y | x in s && y in Take(xs, limit) && lt(x, y) :: x in Take(xs, limit)
    ensures |xs| <= limit ==> forall x | x in s :: x in Take(xs, limit)
  {
    var kept := Take(xs, limit);
    forall x, y | x in s && y in kept && lt(x, y) ensures x in kept {
      var i :| 0 <= i < |xs| && xs[i] == x;
      var j :| 0 <= j < |kept| && kept[j] == y;
      assert xs[j] == y;
      assert lt(x, y) && lt(y, x) ==> lt(x, x);
      assert kept[i] == x;
    }
  }

  lemma KeptAreRanked(t: Tables, rank: Collation, root: int, maxHops: nat, maxNodes: nat)
    ensures var ranked := Ranked(ActiveGraph(t), root, maxHops);
            var kept := KeptNodes(t, rank, root, maxHops, maxNodes);
            && (forall v | v in kept :: v in ranked && IsActive(t, v))
            && (forall u, v | u in ranked && IsActive(t, u) && v in kept && Nearer(ranked, rank)(u, v) :: u in kept)
            && (|ActiveRanked(t, ranked)| <= maxNodes ==> forall v | v in ranked && IsActive(t, v) :: v in kept)
            && |kept| == (if |ActiveRanked(t, ranked)| <= maxNodes then |ActiveRanked(t, ranked)| else maxNodes)
            && Ascending(kept, Nearer(ranked, rank))
  {
    var ranked := Ranked(ActiveGraph(t), root, maxHops);
    hide Ranked, ActiveGraph, IsActive, Ascending;
    var s := ActiveRanked(t, ranked);
    NearerIsTotal(ranked, rank, s);
    TakeIsDownClosed(s, Sorted(s, Nearer(ranked, rank)), Nearer(ranked, rank), maxNodes);
    TakeAscends(Sorted(s, Nearer(ranked, rank)), Nearer(ranked, rank), maxNodes);
  }

  lemma TakeAscends<T>(xs: seq<T>, lt: (T, T) -> bool, limit: nat)
    requires Ascending(xs, lt)
    ensures Ascending(Take(xs, limit), lt)
  {
  }

  /** Truncation keeps the nearest concepts: whoever is left out is at least as far as everyone kept. */
  lemma KeptAreNearest(t: Tables, rank: Collation, root: int, maxHops: nat, maxNodes: nat, u: int, v: int, du: nat,
                       dv: nat)
    requires var kept := KeptNodes(t, rank, root, maxHops, maxNodes); v in kept && u !in kept
    requires IsActive(t, u) && du <= maxHops
    requires IsDistance(ActiveGraph(t), root, u, du) && IsDistance(ActiveGraph(t), root, v, dv)
    ensures dv <= du
  {
    KeptAreRanked(t, rank, root, maxHops, maxNodes);
    var adj := ActiveGraph(t);
    hide KeptNodes, Ranked, IsDistance, ActiveGraph;
    RankedIsDistance(adj, root, maxHops, u, du);
    var d := Ranked(adj, root, maxHops)[v];
    RankedIsDistance(adj, root, maxHops, v, d);
    assert d == dv by { DistanceIsUnique(adj, root, v, d, dv); }
  }

  lemma DistanceIsUnique(adj: Adjacency, u: int, v: int, d: nat, e: nat)
    requires IsDistance(adj, u, v, d) && IsDistance(adj, u, v, e)
    ensures d == e
  {
    hide HasWalk;
  }

  /** The graph induced on the kept concepts. */
  function Induced(adj: Adjacency, nodes: seq<int>): Adjacency {
    map u | u in adj && u in nodes :: set v | v in adj[u] && v in nodes
  }

  /** An active root is kept whatever the positive node limit; an inactive one never is. */
  lemma RootKeptIffActive(t: Tables, rank: Collation, root: int, maxHops: nat, maxNodes: nat)
    requires maxNodes > 0
    ensures root in KeptNodes(t, rank, root, maxHops, maxNodes) <==> IsActive(t, root)
  {
    var adj := ActiveGraph(t);
    var ranked := Ranked(adj, root, maxHops);
    RootIsNearest(adj, root, maxHops);
    KeptAreRanked(t, rank, root, maxHops, maxNodes);
    var kept := KeptNodes(t, rank, root, maxHops, maxNodes);
    hide KeptNodes, Ranked;
    if IsActive(t, root) {
      assert root in ActiveRanked(t, ranked) && |ActiveRanked(t, ranked)| > 0;
      assert kept[0] in kept;
      assert kept[0] != root ==> Nearer(ranked, rank)(root, kept[0]);
    }
  }

  /** With an active root, the truncated set stays connected: each kept concept is reached from the root by a walk of
      its own hop distance that never leaves the kept set. */
  lemma {:induction false} KeptStayConnected(t: Tables, rank: Collation, root: int, maxHops: nat, maxNodes: nat,
                                             v: int, d: nat)
    requires IsActive(t, root) && maxNodes > 0
    requires v in KeptNodes(t, rank, root, maxHops, maxNodes)
    requires d == Ranked(ActiveGraph(t), root, maxHops)[v]
    ensures HasWalk(Induced(ActiveGraph(t), KeptNodes(t, rank, root, maxHops, maxNodes)), root, v, d)
    decreases d
  {
    var adj := ActiveGraph(t);
    KeptAreRanked(t, rank, root, maxHops, maxNodes);
    RootIsNearest(adj, root, maxHops);
    var kept := KeptNodes(t, rank, root, maxHops, maxNodes);
    hide KeptNodes, Ranked, IsWalk;
    if d == 0 {
      WalkOfNothing(Induced(adj, kept), root, v);
    } else {
      var u := CloserKept(t, rank, root, maxHops, maxNodes, v);
      KeptStayConnected(t, rank, root, maxHops, maxNodes, u, d - 1);
      var p :| IsWalk(Induced(adj, kept), p, root, u, d - 1);
      WalkExtends(Induced(adj, kept), p, root, u, v, d - 1);
    }
  }

  /** Each kept concept other than an active root has a kept neighbour one hop closer. */
  lemma CloserKept(t: Tables, rank: Collation, root: int, maxHops: nat, maxNodes: nat, v: int) returns (u: int)
    requires IsActive(t, root)
    requires v in KeptNodes(t, rank, root, maxHops, maxNodes) && v in Ranked(ActiveGraph(t), root, maxHops)
    requires Ranked(ActiveGraph(t), root, maxHops)[v] > 0
    ensures var kept := KeptNodes(t, rank, root, maxHops, maxNodes);
            u in kept && v in Neighbours(Induced(ActiveGraph(t), kept), u)
    ensures u in Ranked(ActiveGraph(t), root, maxHops)
    ensures Ranked(ActiveGraph(t), root, maxHops)[u] == Ranked(ActiveGraph(t), root, maxHops)[v] - 1
  {
    var adj := ActiveGraph(t);
    u := CloserNeighbour(adj, root, maxHops, v);
    KeptAreRanked(t, rank, root, maxHops, maxNodes);
    RankedIsActive(t, root, maxHops, u);
    hide KeptNodes, Ranked;
    assert Nearer(Ranked(adj, root, maxHops), rank)(u, v);
  }

  /** Every ranked concept but the root is active: the walk joins active concepts only. */
  lemma RankedIsActive(t: Tables, root: int, maxHops: nat, v: int)
    requires v in Ranked(ActiveGraph(t), root, maxHops)
    ensures v == root || IsActive(t, v)
  {
    var adj := ActiveGraph(t);
    RootIsNearest(adj, root, maxHops);
    if Ranked(adj, root, maxHops)[v] > 0 {
      var u := CloserNeighbour(adj, root, maxHops, v);
    }
  }

  /** So with an active root the subgraph's own distances are the true ones: truncation never lengthens a path. */
  lemma KeptDistances(t: Tables, rank: Collation, root: int, maxHops: nat, maxNodes: nat, v: int)
    requires IsActive(t, root) && maxNodes > 0
    requires v in KeptNodes(t, rank, root, maxHops, maxNodes)
    ensures v in Ranked(ActiveGraph(t), root, maxHops)
    ensures var d := Ranked(ActiveGraph(t), root, maxHops)[v];
            && IsDistance(ActiveGraph(t), root, v, d)
            && IsDistance(Induced(ActiveGraph(t), KeptNodes(t, rank, root, maxHops, maxNodes)), root, v, d)
  {
    var adj := ActiveGraph(t);
    var kept := KeptNodes(t, rank, root, maxHops, maxNodes);
    KeptAreRanked(t, rank, root, maxHops, maxNodes);
    hide KeptNodes;
    var d := Ranked(adj, root, maxHops)[v];
    hide Ranked;
    RankedIsDistance(adj, root, maxHops, v, d);
    KeptStayConnected(t, rank, root, maxHops, maxNodes, v, d);
    forall g: nat | g < d ensures !HasWalk(Induced(adj, kept), root, v, g) {
      if HasWalk(Induced(adj, kept), root, v, g) {
        InducedWalk(adj, kept, root, v, g);
        assert false;
      }
    }
  }

  lemma InducedWalk(adj: Adjacency, nodes: seq<int>, u: int, v: int, length: nat)
    requires HasWalk(Induced(adj, nodes), u, v, length)
    ensures HasWalk(adj, u, v, length)
  {
    var p :| IsWalk(Induced(adj, nodes), p, u, v, length);
    forall i | 0 <= i < |p| - 1 ensures p[i + 1] in Neighbours(adj, p[i]) {
      assert p[i + 1] in Neighbours(Induced(adj, nodes), p[i]);
    }
    assert IsWalk(adj, p, u, v, length);
  }

  /** The kept set hangs together through the root exactly when the root is active: an inactive root is not returned,
      although its neighbours are. */
  lemma ConnectedIffRootActive(t: Tables, rank: Collation, root: int, maxHops: nat, maxNodes: nat)
    requires maxNodes > 0 && KeptNodes(t, rank, root, maxHops, maxNodes) != []
    ensures var kept := KeptNodes(t, rank, root, maxHops, maxNodes);
            (forall v | v in kept :: exists d: nat :: HasWalk(Induced(ActiveGraph(t), kept), root, v, d)) <==>
              IsActive(t, root)
  {
    var kept := KeptNodes(t, rank, root, maxHops, maxNodes);
    var sub := Induced(ActiveGraph(t), kept);
    KeptAreRanked(t, rank, root, maxHops, maxNodes);
    RootKeptIffActive(t, rank, root, maxHops, maxNodes);
    hide KeptNodes, Ranked, ActiveGraph;
    if IsActive(t, root) {
      forall v | v in kept ensures exists d: nat :: HasWalk(sub, root, v, d) {
        KeptStayConnected(t, rank, root, maxHops, maxNodes, v, Ranked(ActiveGraph(t), root, maxHops)[v]);
      }
    } else {
      var v := kept[0];
      assert v in kept && v != root;
      forall d: nat ensures !HasWalk(sub, root, v, d) {
        NoWalkFromOutside(ActiveGraph(t), kept, root, v, d);
      }
    }
  }

  /** An inactive root with one active neighbour: the neighbour is returned, and no walk inside the returned set leads
      to it from the root. */
  lemma InactiveRootIsCutOff(t: Tables, rank: Collation, maxHops: nat, maxNodes: nat)
    requires maxHops >= 1 && maxNodes >= 1 && t.concepts.Keys == {1, 2} && !IsActive(t, 1) && IsActive(t, 2)
    requires t.edges.Keys == {0} && t.edges[0].key.src == 1 && t.edges[0].key.tgt == 2
    ensures var kept := KeptNodes(t, rank, 1, maxHops, maxNodes);
            2 in kept && forall d: nat :: !HasWalk(Induced(ActiveGraph(t), kept), 1, 2, d)
  {
    var adj := ActiveGraph(t);
    assert Other(t.edges[0].key, 1) == 2;
    assert 2 in Neighbours(adj, 1);
    assert IsWalk(adj, [1, 2], 1, 2, 1);
    WalkOfNothing(adj, 1, 2);
    RankedIsDistance(adj, 1, maxHops, 2, 1);
    hide Ranked, KeptNodes, HasWalk, ActiveGraph;
    KeptAreRanked(t, rank, 1, maxHops, maxNodes);
    var all := ActiveRanked(t, Ranked(adj, 1, maxHops));
    assert all <= {2};
    OnlyOne(all, 2);
    var kept := KeptNodes(t, rank, 1, maxHops, maxNodes);
    forall d: nat ensures !HasWalk(Induced(adj, kept), 1, 2, d) {
      NoWalkFromOutside(adj, kept, 1, 2, d);
    }
  }

  lemma OnlyOne(s: set<int>, x: int)
    requires s <= {x}
    ensures |s| <= 1
  {
    assert s == {} || s == {x};
  }

  lemma NoWalkFromOutside(adj: Adjacency, nodes: seq<int>, u: int, v: int, d: nat)
    requires u !in nodes && u != v
    ensures !HasWalk(Induced(adj, nodes), u, v, d)
  {
    var sub := Induced(adj, nodes);
    assert Neighbours(sub, u) == {};
    forall p ensures !IsWalk(sub, p, u, v, d) {
      if |p| > 1 && p[0] == u { assert p[0 + 1] !in Neighbours(sub, p[0]); }
    }
  }

  predicate Joins(key: EdgeKey, u: int, v: int) {
    (key.src == u && key.tgt == v) || (key.src == v && key.tgt == u)
  }

  lemma LinkMeans(t: Tables, u: int, v: int)
    requires Valid(t)
    ensures v in Neighbours(ActiveGraph(t), u) <==>
              IsActive(t, v) && exists e | e in t.edges :: Joins(t.edges[e].key, u, v)
  {
    if v in Neighbours(ActiveGraph(t), u) {
      var e :| e in t.edges && (t.edges[e].key.src == u || t.edges[e].key.tgt == u) && Other(t.edges[e].key, u) == v;
      assert Joins(t.edges[e].key, u, v);
    }
    if IsActive(t, v) && exists e | e in t.edges :: Joins(t.edges[e].key, u, v) {
      var e :| e in t.edges && Joins(t.edges[e].key, u, v);
      assert t.edges[e].key.src in t.concepts && t.edges[e].key.tgt in t.concepts;
      assert Other(t.edges[e].key, u) == v;
    }
  }

  lemma AllEdgesKept(t: Tables, nodes: seq<int>, maxEdges: nat)
    requires |EdgesAmong(t, nodes)| <= maxEdges
    ensures forall e :: e in KeptEdges(t, nodes, maxEdges) <==> e in EdgesAmong(t, nodes)
  {
    HeavierIsTotal(t.edges, EdgesAmong(t, nodes));
    hide EdgesAmong;
  }

  lemma InducedLinks(adj: Adjacency, nodes: seq<int>, u: int, v: int)
    ensures v in Neighbours(Induced(adj, nodes), u) <==> v in Neighbours(adj, u) && u in nodes && v in nodes
  {
  }

  /** When the edge limit cuts nothing, two kept concepts are neighbours exactly when a returned edge joins them. */
  lemma EdgesShowLinks(t: Tables, nodes: seq<int>, maxEdges: nat, u: int, v: int)
    requires Valid(t) && (forall c | c in nodes :: IsActive(t, c)) && |EdgesAmong(t, nodes)| <= maxEdges
    ensures v in Neighbours(Induced(ActiveGraph(t), nodes), u) <==>
            exists e | e in KeptEdges(t, nodes, maxEdges) :: e in t.edges && Joins(t.edges[e].key, u, v)
  {
    LinkMeans(t, u, v);
    InducedLinks(ActiveGraph(t), nodes, u, v);
    KeptJoins(t, nodes, maxEdges, u, v);
    hide KeptEdges, ActiveGraph, Valid, Induced, EdgesAmong, Joins, Neighbours;
  }

  lemma KeptJoins(t: Tables, nodes: seq<int>, maxEdges: nat, u: int, v: int)
    requires (forall c | c in nodes :: IsActive(t, c)) && |EdgesAmong(t, nodes)| <= maxEdges
    ensures (exists e | e in KeptEdges(t, nodes, maxEdges) :: e in t.edges && Joins(t.edges[e].key, u, v)) <==>
            u in nodes && v in nodes && exists e | e in t.edges :: Joins(t.edges[e].key, u, v)
  {
    AllEdgesKept(t, nodes, maxEdges);
    hide KeptEdges;
    if u in nodes && v in nodes {
      if e :| e in t.edges && Joins(t.edges[e].key, u, v) {
        assert e in EdgesAmong(t, nodes);
      }
    }
  }

  /** Not found means that no active concept lies within the hop limit. */
  lemma NotFoundMeans(t: Tables, rank: Collation, root: int, maxHops: nat, maxNodes: nat, maxEdges: nat)
    requires maxNodes > 0
    ensures BoundedSubgraph(t, rank, root, maxHops, maxNodes, maxEdges).None?
            <==> forall v, d: nat | IsActive(t, v) && d <= maxHops :: !IsDistance(ActiveGraph(t), root, v, d)
  {
    var adj := ActiveGraph(t);
    var ranked := Ranked(adj, root, maxHops);
    KeptAreRanked(t, rank, root, maxHops, maxNodes);
    forall v, d: nat ensures (v in ranked && ranked[v] == d) <==> d <= maxHops && IsDistance(adj, root, v, d) {
      RankedIsDistance(adj, root, maxHops, v, d);
    }
    var kept := KeptNodes(t, rank, root, maxHops, maxNodes);
    hide KeptNodes, Ranked, IsDistance;
    if kept == [] {
      forall v, d: nat | IsActive(t, v) && d <= maxHops ensures !IsDistance(adj, root, v, d) {
        assert v in ranked ==> v in ActiveRanked(t, ranked);
        assert |ActiveRanked(t, ranked)| == 0;
      }
    } else {
      assert kept[0] in kept;
      assert IsDistance(adj, root, kept[0], ranked[kept[0]]);
    }
  }

  /** An edge row is returned exactly when it joins kept concepts and fewer than maxEdges such edges outrank it. */
  lemma KeptEdgesMeaning(t: Tables, nodes: seq<int>, maxEdges: nat, e: int)
    ensures e in KeptEdges(t, nodes, maxEdges)
            <==> e in EdgesAmong(t, nodes) && |set f | f in EdgesAmong(t, nodes) && Heavier(t.edges)(f, e)| < maxEdges
  {
    var s := EdgesAmong(t, nodes);
    HeavierIsTotal(t.edges, s);
    hide EdgesAmong;
    TakeByRank(s, Sorted(s, Heavier(t.edges)), Heavier(t.edges), maxEdges, e);
  }

  /** The first n of an ascending listing are those with fewer than n smaller elements. */
  lemma TakeByRank(s: set<int>, xs: seq<int>, lt: (int, int) -> bool, n: nat, x: int)
    requires StrictTotalOn(s, lt) && Ascending(xs, lt) && forall y :: y in xs <==> y in s
    ensures x in Take(xs, n) <==> x in s && |set y | y in s && lt(y, x)| < n
  {
    assert x in Take(xs, n) ==> x in xs;
    if x in s {
      var i :| 0 <= i < |xs| && xs[i] == x;
      forall j | 0 <= j < |xs| ensures lt(xs[j], x) <==> j < i {
        var y := xs[j];
        assert y in xs;
        assert y in s;
        assert j > i ==> lt(x, xs[j]);
        assert lt(x, xs[j]) && lt(xs[j], x) ==> lt(x, x);
      }
      var smaller := set y | y in s && lt(y, x);
      forall y ensures y in smaller <==> y in xs[..i] {
        assert y in s ==> y in xs;
        if y in xs { var j :| 0 <= j < |xs| && xs[j] == y; assert j < i ==> xs[..i][j] == y; }
      }
      AscendingCount(smaller, xs[..i], lt, s);
      var ys := Take(xs, n);
      assert i < |ys| ==> ys[i] == x;
      forall j | 0 <= j < |ys| && ys[j] == x ensures i < n {
        assert xs[j] == x;
        assert lt(x, x) <==> j < i;
      }
    }
  }

  lemma {:induction false} AscendingCount(part: set<int>, xs: seq<int>, lt: (int, int) -> bool, s: set<int>)
    requires StrictTotalOn(s, lt) && Ascending(xs, lt)
    requires forall y :: y in xs <==> y in part
    requires part <= s
    ensures |part| == |xs|
    decreases |xs|
  {
    if xs == [] {
      assert forall y :: y in part ==> y in xs;
      assert part == {};
    } else {
      var last := xs[|xs| - 1];
      var front := xs[..|xs| - 1];
      assert xs == front + [last];
      assert last in xs;
      forall y ensures y in front <==> y in part - {last} {
        if y in front { var j :| 0 <= j < |front| && front[j] == y; assert lt(xs[j], last); assert y in xs; }
      }
      AscendingCount(part - {last}, front, lt, s);
    }
  }

  // ---- the ancestor chain ----

  /** One step up the hierarchy: along belongs_to, against has_subtopic; parents need not be active. */
  function Parents(t: Tables, id: int): set<int> {
    (set e | e in t.edges && t.edges[e].key.relation == "belongs_to" && t.edges[e].key.src == id :: t.edges[e].key.tgt)
    + (set e | e in t.edges && t.edges[e].key.relation == "has_subtopic" && t.edges[e].key.tgt == id ::
       t.edges[e].key.src)
  }

  function Hierarchy(t: Tables): Adjacency {
    map c | c in t.concepts :: Parents(t, c)
  }

  function AncestorIds(t: Tables, id: int, maxDepth: nat): set<int> {
    set v | v in Ranked(Hierarchy(t), id, maxDepth) && v != id && IsActive(t, v)
  }

  /** get_ancestor_chain; rank stands for the unspecified order among equals. */
  function AncestorChain(t: Tables, rank: Collation, id: int, maxDepth: nat): seq<int> {
    var ranked := Ranked(Hierarchy(t), id, maxDepth);
    NearerIsTotal(ranked, rank, AncestorIds(t, id, maxDepth));
    Sorted(AncestorIds(t, id, maxDepth), Nearer(ranked, rank))
  }

  /** The chain lists exactly the active ancestors within the depth, each once, nearest first. */
  lemma AncestorChainMeaning(t: Tables, rank: Collation, id: int, maxDepth: nat)
    ensures var chain := AncestorChain(t, rank, id, maxDepth);
            && (forall v :: v in chain <==>
                IsActive(t, v) && exists d: nat :: 1 <= d <= maxDepth && IsDistance(Hierarchy(t), id, v, d))
            && (forall i, j, d: nat, e: nat | 0 <= i < j < |chain| && IsDistance(Hierarchy(t), id, chain[i], d) &&
                IsDistance(Hierarchy(t), id, chain[j], e) ::
                  chain[i] != chain[j] && d <= e)
  {
    var adj := Hierarchy(t);
    var ranked := Ranked(adj, id, maxDepth);
    NearerIsTotal(ranked, rank, AncestorIds(t, id, maxDepth));
    var chain := AncestorChain(t, rank, id, maxDepth);
    forall v, d: nat ensures (v in ranked && ranked[v] == d) <==> d <= maxDepth && IsDistance(adj, id, v, d) {
      RankedIsDistance(adj, id, maxDepth, v, d);
    }
    RootIsNearest(adj, id, maxDepth);
    hide Ranked, IsDistance, Hierarchy;
    forall v ensures v in chain <==>
      IsActive(t, v) && exists d: nat :: 1 <= d <= maxDepth && IsDistance(adj, id, v, d) {
      if v in chain { assert IsDistance(adj, id, v, ranked[v]) && ranked[v] != 0; }
    }
    forall i, j, d: nat, e: nat | 0 <= i < j < |chain| && IsDistance(adj, id, chain[i], d) &&
      IsDistance(adj, id, chain[j], e)
      ensures chain[i] != chain[j] && d <= e
    {
      assert chain[i] in chain && chain[j] in chain;
      assert Nearer(ranked, rank)(chain[i], chain[j]);
      var di, ei := ranked[chain[i]], ranked[chain[j]];
      assert IsDistance(adj, id, chain[i], di) && IsDistance(adj, id, chain[j], ei);
      DistanceIsUnique(adj, id, chain[i], d, di);
      DistanceIsUnique(adj, id, chain[j], e, ei);
    }
  }
}
