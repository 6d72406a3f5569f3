/** Clustering of gardener seeds and candidates (domain/graph/gardener.py: the adjacency loop and
    _connected_components). */
module Components {
  import opened Ordering
  import opened Sequences

  type Adjacency = map<int, set<int>>

  /** adjacency.get(node, set()) */
  function Neighbours(adj: Adjacency, u: int): set<int> { if u in adj then adj[u] else {} }

  ghost predicate Symmetric(adj: Adjacency) {
    forall u, v | v in Neighbours(adj, u) :: u in Neighbours(adj, v)
  }

  // ---- reachability ----

  ghost predicate IsPath(adj: Adjacency, p: seq<int>) {
    p != [] && forall i | 0 <= i < |p| - 1 :: p[i + 1] in Neighbours(adj, p[i])
  }

  ghost predicate IsPathBetween(adj: Adjacency, p: seq<int>, u: int, v: int) {
    IsPath(adj, p) && p[0] == u && p[|p| - 1] == v
  }

  ghost predicate Reaches(adj: Adjacency, u: int, v: int) {
    exists p :: IsPathBetween(adj, p, u, v)
  }

  lemma ReachesSelf(adj: Adjacency, u: int)
    ensures Reaches(adj, u, u)
  {
    assert IsPathBetween(adj, [u], u, u);
  }

  lemma ReachesStep(adj: Adjacency, u: int, v: int, w: int)
    requires Reaches(adj, u, v) && w in Neighbours(adj, v)
    ensures Reaches(adj, u, w)
  {
    var p :| IsPathBetween(adj, p, u, v);
    assert IsPathBetween(adj, p + [w], u, w);
  }

  lemma ReachesTransitive(adj: Adjacency, u: int, v: int, w: int)
    requires Reaches(adj, u, v) && Reaches(adj, v, w)
    ensures Reaches(adj, u, w)
  {
    var p :| IsPathBetween(adj, p, u, v);
    var q :| IsPathBetween(adj, q, v, w);
    var r := p + q[1..];
    forall i | 0 <= i < |r| - 1 ensures r[i + 1] in Neighbours(adj, r[i]) {
      if i >= |p| - 1 { assert r[i] == q[i - (|p| - 1)] && r[i + 1] == q[i - (|p| - 1) + 1]; }
    }
    assert IsPathBetween(adj, r, u, w);
  }

  lemma ReachesBack(adj: Adjacency, u: int, v: int)
    requires Symmetric(adj) && Reaches(adj, u, v)
    ensures Reaches(adj, v, u)
  {
    var p :| IsPathBetween(adj, p, u, v);
    var q := seq(|p|, i requires 0 <= i < |p| => p[|p| - 1 - i]);
    forall i | 0 <= i < |q| - 1 ensures q[i + 1] in Neighbours(adj, q[i]) {
      var j := |p| - 2 - i;
      assert q[i] == p[j + 1] && q[i + 1] == p[j];
      assert p[j + 1] in Neighbours(adj, p[j]);
    }
    assert IsPathBetween(adj, q, v, u);
  }

  ghost predicate Closed(adj: Adjacency, s: set<int>) {
    forall u, v | u in s && v in Neighbours(adj, u) :: v in s
  }

  lemma {:induction false} ClosedKeepsPaths(adj: Adjacency, s: set<int>, p: seq<int>, i: nat)
    requires Closed(adj, s) && IsPath(adj, p) && p[0] in s && i < |p|
    ensures p[i] in s
  {
    if i > 0 {
      ClosedKeepsPaths(adj, s, p, i - 1);
      var u, v := p[i - 1], p[i - 1 + 1];
      assert u in s && v in Neighbours(adj, u);
    }
  }

  lemma ClosedHoldsReachable(adj: Adjacency, s: set<int>, u: int, v: int)
    requires Closed(adj, s) && u in s && Reaches(adj, u, v)
    ensures v in s
  {
    var p :| IsPathBetween(adj, p, u, v);
    ClosedKeepsPaths(adj, s, p, |p| - 1);
  }

  // ---- the depth-first search ----

  /** Every node the search can meet. */
  ghost function Universe(adj: Adjacency): set<int> {
    adj.Keys + set u, v | u in adj && v in adj[u] :: v
  }

  lemma NeighboursInUniverse(adj: Adjacency, u: int)
    ensures Neighbours(adj, u) <= Universe(adj)
  {
    forall v | v in Neighbours(adj, u) ensures v in Universe(adj) {
      assert u in adj && v in adj[u];
    }
  }

  /** What one search from root adds, when the nodes in before were visited earlier. */
  ghost predicate IsNewlyReached(adj: Adjacency, root: int, before: set<int>, component: set<int>) {
    forall v :: v in component <==> Reaches(adj, root, v) && v !in before
  }

  /** The search is under way: what is visited has its neighbours visited or stacked, and nothing unreachable is
      touched. */
  ghost predicate Searching(adj: Adjacency, root: int, before: set<int>, visited: set<int>, component: set<int>,
                            stack: seq<int>) {
    && visited == before + component && before !! component
    && visited <= Universe(adj)
    && (forall v | v in stack :: v in Universe(adj) && Reaches(adj, root, v))
    && (forall v | v in component :: Reaches(adj, root, v))
    && (forall u, v | u in visited && v in Neighbours(adj, u) :: v in visited || v in stack)
    && (root in component || root in stack)
  }

  lemma PopVisited(adj: Adjacency, root: int, before: set<int>, visited: set<int>, component: set<int>,
                   stack: seq<int>, node: int)
    requires Searching(adj, root, before, visited, component, stack + [node]) && node in visited && root !in before
    ensures Searching(adj, root, before, visited, component, stack)
  {
    assert forall v :: v in stack + [node] <==> v in stack || v == node;
    assert root == node ==> root in component;
  }

  lemma PopNew(adj: Adjacency, root: int, before: set<int>, visited: set<int>, component: set<int>, stack: seq<int>,
               node: int, more: seq<int>)
    requires Searching(adj, root, before, visited, component, stack + [node]) && node !in visited
    requires forall v :: v in more <==> v in Neighbours(adj, node) && v !in visited + {node}
    ensures Searching(adj, root, before, visited + {node}, component + {node}, stack + more)
  {
    assert node in stack + [node];
    NeighboursInUniverse(adj, node);
    forall v | v in stack + more ensures v in Universe(adj) && Reaches(adj, root, v) {
      if v in stack { assert v in stack + [node]; } else { ReachesStep(adj, root, node, v); }
    }
    forall u, v | u in visited + {node} && v in Neighbours(adj, u)
      ensures v in visited + {node} || v in stack + more
    {
      if u != node { assert v in visited || v in stack + [node]; }
    }
  }

  lemma SearchDone(adj: Adjacency, root: int, before: set<int>, visited: set<int>, component: set<int>)
    requires Searching(adj, root, before, visited, component, [])
    ensures Closed(adj, visited) && IsNewlyReached(adj, root, before, component)
  {
    forall v | Reaches(adj, root, v) ensures v in visited {
      ClosedHoldsReachable(adj, visited, root, v);
    }
  }

  /** The neighbours pushed for a node: the unvisited ones, in descending order. */
  method PushUnvisited(neighbours: set<int>, visited: set<int>) returns (more: seq<int>)
    ensures forall v :: v in more <==> v in neighbours && v !in visited
  {
    more := [];
    var ascending := SortedInts(neighbours);
    var k := |ascending|;
    while k > 0
      invariant 0 <= k <= |ascending|
      invariant forall v :: v in more <==> v in ascending[k..] && v !in visited
    {
      k := k - 1;
      SplitAt(ascending, k);
      if ascending[k] !in visited {
        more := more + [ascending[k]];
      }
    }
  }

  /** The inner loop of _connected_components: a stack that may hold a node several times. */
  method Search(adj: Adjacency, root: int, before: set<int>) returns (visited: set<int>, component: set<int>)
    requires root in adj && root !in before && before <= Universe(adj) && Closed(adj, before)
    ensures visited == before + component && visited <= Universe(adj) && Closed(adj, visited)
    ensures IsNewlyReached(adj, root, before, component)
  {
    visited, component := before, {};
    var stack := [root];
    ReachesSelf(adj, root);
    assert Searching(adj, root, before, visited, component, stack);
    while stack != []
      invariant Searching(adj, root, before, visited, component, stack)
      decreases Universe(adj) - visited, |stack|
    {
      var node := stack[|stack| - 1];
      ghost var popped := stack;
      stack := stack[..|stack| - 1];
      assert popped == stack + [node];
      if node in visited {
        PopVisited(adj, root, before, visited, component, stack, node);
        continue;
      }
      assert node in popped && node in Universe(adj) - visited;
      var more := PushUnvisited(Neighbours(adj, node), visited + {node});
      PopNew(adj, root, before, visited, component, stack, node, more);
      visited := visited + {node};
      component := component + {node};
      stack := stack + more;
    }
    SearchDone(adj, root, before, visited, component);
  }

  // ---- the clusters ----

  function MinOf(s: set<int>): int { if s == {} then 0 else SortedInts(s)[0] }

  /** The order of components.sort: by size, then by least member. */
  predicate Before(a: set<int>, b: set<int>) {
    |a| < |b| || (|a| == |b| && MinOf(a) < MinOf(b))
  }

  ghost predicate InSome(cs: seq<set<int>>, v: int) {
    exists i :: 0 <= i < |cs| && v in cs[i]
  }

  /** The connectivity classes of the keys, each once, strictly ordered by size and least member. */
  ghost predicate IsClustering(adj: Adjacency, clusters: seq<set<int>>) {
    && (forall i | 0 <= i < |clusters| :: IsClass(adj, clusters[i]))
    && (forall k | k in adj :: InSome(clusters, k))
    && Ascending(clusters, Before)
  }

  ghost predicate IsClass(adj: Adjacency, c: set<int>) {
    c != {} && c <= adj.Keys && forall u | u in c :: forall v :: v in c <==> Reaches(adj, u, v)
  }

  ghost predicate PairwiseDisjoint(cs: seq<set<int>>) {
    forall i, j | 0 <= i < j < |cs| :: cs[i] !! cs[j]
  }

  /** On pairwise disjoint, non-empty sets the sort key never ties. */
  lemma BeforeIsTotal(cs: set<set<int>>)
    requires forall a, b | a in cs && b in cs && a != b :: a !! b
    requires {} !in cs
    ensures StrictTotalOn(cs, Before)
  {
    forall a, b | a in cs && b in cs && a != b ensures Before(a, b) || Before(b, a) {
      assert MinOf(a) in SortedInts(a) && MinOf(b) in SortedInts(b);
      assert MinOf(a) in a && MinOf(b) in b;
    }
  }

  /** A search over a symmetric graph from an unvisited root yields the root's whole class. */
  lemma NewlyReachedIsClass(adj: Adjacency, root: int, before: set<int>, component: set<int>)
    requires Symmetric(adj) && root in adj && root !in before && Closed(adj, before)
    requires IsNewlyReached(adj, root, before, component)
    ensures IsClass(adj, component)
  {
    ReachesSelf(adj, root);
    forall u, v | u in component ensures v in component <==> Reaches(adj, u, v) {
      ReachesBack(adj, root, u);
      if Reaches(adj, u, v) {
        ReachesTransitive(adj, root, u, v);
        if v in before {
          ReachesBack(adj, root, v);
          ClosedHoldsReachable(adj, before, v, root);
        }
      }
      if v in component { ReachesTransitive(adj, u, root, v); }
    }
    forall u | u in component ensures u in adj {
      if u != root { ReachableIsKey(adj, root, u); }
    }
  }

  lemma ReachableIsKey(adj: Adjacency, root: int, u: int)
    requires Symmetric(adj) && Reaches(adj, root, u) && u != root
    ensures u in adj
  {
    var p :| IsPathBetween(adj, p, root, u);
    var t := p[|p| - 2];
    assert p[|p| - 2 + 1] in Neighbours(adj, t);
    assert t in Neighbours(adj, u);
  }

  /** The components found so far: disjoint, non-empty, together everything visited, classes when links are
      symmetric. */
  ghost predicate Discovered(adj: Adjacency, components: seq<set<int>>, visited: set<int>) {
    && visited <= Universe(adj) && Closed(adj, visited)
    && (forall v :: v in visited <==> InSome(components, v))
    && PairwiseDisjoint(components)
    && (forall i | 0 <= i < |components| :: components[i] != {})
    && (Symmetric(adj) ==> forall i | 0 <= i < |components| :: IsClass(adj, components[i]))
  }

  /** Every key is in some cluster; clusters are disjoint, non-empty and strictly ordered. */
  ghost predicate IsOrderedCover(adj: Adjacency, clusters: seq<set<int>>) {
    && (forall k | k in adj :: InSome(clusters, k))
    && PairwiseDisjoint(clusters) && {} !in clusters && Ascending(clusters, Before)
  }

  /** _connected_components */
  method ConnectedComponents(adj: Adjacency) returns (clusters: seq<set<int>>)
    ensures IsOrderedCover(adj, clusters)
    ensures Symmetric(adj) ==> IsClustering(adj, clusters)
  {
    hide Discovered, IsOrderedCover, IsClustering, Symmetric, IsNewlyReached, Universe, Closed, SortedInts;
    var components: seq<set<int>> := [];
    var visited: set<int> := {};
    var roots := SortedInts(adj.Keys);
    NothingDiscovered(adj);
    for k := 0 to |roots|
      invariant Discovered(adj, components, visited)
      invariant forall j | 0 <= j < k :: roots[j] in visited
    {
      var root := roots[k];
      assert root in adj;
      if root in visited {
        continue;
      }
      DiscoveredIsClosed(adj, components, visited);
      var now, component := Search(adj, root, visited);
      GrowComponents(adj, components, root, component, visited);
      components := components + [component];
      visited := now;
    }
    clusters := SortComponents(adj, components, roots, visited);
  }

  /** components.sort(key=...); a list without repeated components is sorted as a set. */
  method SortComponents(adj: Adjacency, components: seq<set<int>>, ghost roots: seq<int>, ghost visited: set<int>)
    returns (clusters: seq<set<int>>)
    requires Discovered(adj, components, visited)
    requires forall k :: k in roots <==> k in adj
    requires forall j | 0 <= j < |roots| :: roots[j] in visited
    ensures IsOrderedCover(adj, clusters)
    ensures Symmetric(adj) ==> IsClustering(adj, clusters)
    ensures |clusters| == |components| && forall c :: c in clusters <==> c in components
  {
    var found := set c | c in components;
    FoundIsTotal(adj, components, visited, found);
    DiscoveredDistinct(adj, components, visited);
    SetOfDistinct(components);
    hide Discovered, IsOrderedCover, IsClustering;
    clusters := Sorted(found, Before);
    SortedKeepsAll(adj, components, clusters, roots, visited);
  }

  lemma DiscoveredDistinct(adj: Adjacency, components: seq<set<int>>, visited: set<int>)
    requires Discovered(adj, components, visited)
    ensures Distinct(components)
  {
    forall i, j | 0 <= i < j < |components| ensures components[i] != components[j] {
      assert components[i] !! components[j];
      var u := Member(components[i]);
    }
  }

  lemma {:induction false} SetOfDistinct(cs: seq<set<int>>)
    requires Distinct(cs)
    ensures |set c | c in cs| == |cs|
  {
    if cs != [] {
      var front, c := cs[..|cs| - 1], cs[|cs| - 1];
      SetOfDistinct(front);
      assert (set d | d in cs) == (set d | d in front) + {c};
    }
  }

  lemma NothingDiscovered(adj: Adjacency)
    ensures Discovered(adj, [], {})
  {
  }

  lemma DiscoveredIsClosed(adj: Adjacency, components: seq<set<int>>, visited: set<int>)
    requires Discovered(adj, components, visited)
    ensures visited <= Universe(adj) && Closed(adj, visited)
  {
  }

  lemma FoundIsTotal(adj: Adjacency, components: seq<set<int>>, visited: set<int>, found: set<set<int>>)
    requires Discovered(adj, components, visited) && found == set c | c in components
    ensures StrictTotalOn(found, Before)
  {
    forall a, b | a in found && b in found && a != b ensures a !! b {
      var i :| 0 <= i < |components| && components[i] == a;
      var j :| 0 <= j < |components| && components[j] == b;
      assert i < j ==> components[i] !! components[j];
      assert j < i ==> components[j] !! components[i];
    }
    BeforeIsTotal(found);
  }

  lemma GrowComponents(adj: Adjacency, components: seq<set<int>>, root: int, component: set<int>, visited: set<int>)
    requires Discovered(adj, components, visited)
    requires root in adj && root !in visited && IsNewlyReached(adj, root, visited, component)
    requires visited + component <= Universe(adj) && Closed(adj, visited + component)
    ensures Discovered(adj, components + [component], visited + component)
    ensures root in component
  {
    ReachesSelf(adj, root);
    assert root in component;
    assert component !! visited by { assert forall v | v in component :: v !in visited; }
    if Symmetric(adj) { NewlyReachedIsClass(adj, root, visited, component); }
    GrowDisjoint(components, component, visited);
  }

  lemma GrowDisjoint(components: seq<set<int>>, component: set<int>, visited: set<int>)
    requires PairwiseDisjoint(components) && component !! visited
    requires forall v :: v in visited <==> InSome(components, v)
    ensures PairwiseDisjoint(components + [component])
    ensures forall v :: v in visited + component <==> InSome(components + [component], v)
  {
    var grown := components + [component];
    forall i, j | 0 <= i < j < |grown| ensures grown[i] !! grown[j] {
      if j == |components| {
        assert grown[i] == components[i];
        forall v | v in components[i] ensures v in visited { assert InSome(components, v); }
      }
    }
    forall v ensures InSome(grown, v) <==> InSome(components, v) || v in component {
      InSomeAppend(components, component, v);
    }
  }

  lemma InSomeAppend(cs: seq<set<int>>, c: set<int>, v: int)
    ensures InSome(cs + [c], v) <==> InSome(cs, v) || v in c
  {
    var grown := cs + [c];
    if InSome(cs, v) {
      var i :| 0 <= i < |cs| && v in cs[i];
      assert v in grown[i];
    }
    if v in c { assert v in grown[|cs|]; }
  }

  lemma SortedKeepsAll(adj: Adjacency, components: seq<set<int>>, clusters: seq<set<int>>, roots: seq<int>,
                       visited: set<int>)
    requires Discovered(adj, components, visited)
    requires forall c :: c in clusters <==> c in components
    requires Ascending(clusters, Before)
    requires forall k :: k in roots <==> k in adj
    requires forall j | 0 <= j < |roots| :: roots[j] in visited
    ensures IsOrderedCover(adj, clusters)
    ensures Symmetric(adj) ==> IsClustering(adj, clusters)
  {
    forall k | k in adj ensures InSome(clusters, k) {
      assert k in roots;
      assert InSome(components, k);
      var c :| 0 <= c < |components| && k in components[c];
      assert components[c] in clusters;
      var i :| 0 <= i < |clusters| && clusters[i] == components[c];
      assert k in clusters[i];
    }
    forall i, j | 0 <= i < j < |clusters| ensures clusters[i] !! clusters[j] {
      assert clusters[i] in components && clusters[j] in components;
      var a :| 0 <= a < |components| && components[a] == clusters[i];
      var b :| 0 <= b < |components| && components[b] == clusters[j];
      assert Before(clusters[i], clusters[j]);
      assert a < b ==> components[a] !! components[b];
      assert b < a ==> components[b] !! components[a];
    }
    if Symmetric(adj) {
      forall i | 0 <= i < |clusters| ensures IsClass(adj, clusters[i]) {
        assert clusters[i] in components;
      }
    }
  }

  /** The clustering of a graph is unique, so the order of the search does not show in the result. */
  lemma ClusteringUnique(adj: Adjacency, cs: seq<set<int>>, ds: seq<set<int>>)
    requires IsClustering(adj, cs) && IsClustering(adj, ds)
    ensures cs == ds
  {
    var classes := set c | c in cs;
    forall c ensures c in ds <==> c in classes {
      if c in classes { SameClasses(adj, cs, ds, c); }
      if c in ds { SameClasses(adj, ds, cs, c); }
    }
    forall a, b | a in classes && b in classes && a != b ensures a !! b {
      assert IsClass(adj, a) && IsClass(adj, b);
      ClassesDisjoint(adj, a, b);
    }
    assert forall c | c in classes :: IsClass(adj, c);
    BeforeIsTotal(classes);
    AscendingUnique(cs, ds, classes, Before);
  }

  lemma SharedMember(adj: Adjacency, a: set<int>, b: set<int>, u: int)
    requires IsClass(adj, a) && IsClass(adj, b) && u in a && u in b
    ensures a == b
  {
    forall v ensures v in a <==> v in b {
      assert v in a <==> Reaches(adj, u, v);
      assert v in b <==> Reaches(adj, u, v);
    }
  }

  lemma ClassesDisjoint(adj: Adjacency, a: set<int>, b: set<int>)
    requires IsClass(adj, a) && IsClass(adj, b) && a != b
    ensures a !! b
  {
    forall u | u in a ensures u !in b {
      if u in b { SharedMember(adj, a, b, u); }
    }
  }

  lemma SameClasses(adj: Adjacency, cs: seq<set<int>>, ds: seq<set<int>>, c: set<int>)
    requires IsClustering(adj, cs) && IsClustering(adj, ds) && c in cs
    ensures c in ds
  {
    var k :| 0 <= k < |cs| && cs[k] == c;
    assert IsClass(adj, cs[k]);
    var u := Member(cs[k]);
    assert u in adj;
    assert InSome(ds, u);
    var i :| 0 <= i < |ds| && u in ds[i];
    assert IsClass(adj, ds[i]);
    SharedMember(adj, cs[k], ds[i], u);
  }

  // ---- building the adjacency ----

  /** Some seed among the first n has the other node among its candidates. */
  ghost predicate Linked(seeds: seq<int>, candidates: seq<seq<int>>, n: nat, u: int, v: int)
    requires n <= |seeds| == |candidates|
  {
    u != v && exists i :: 0 <= i < n && LinkedBy(seeds[i], candidates[i], u, v)
  }

  predicate LinkedBy(seed: int, found: seq<int>, u: int, v: int) {
    (seed == u && v in found) || (seed == v && u in found)
  }

  /** One link in both directions; a seed found among its own candidates adds nothing. */
  function AddLink(adj: Adjacency, seed: int, candidate: int): (r: Adjacency)
    ensures forall u, v :: v in Neighbours(r, u) <==> v in Neighbours(adj, u) || (u != v && {u, v} == {seed, candidate})
    ensures r.Keys == adj.Keys + if candidate == seed then {} else {seed, candidate}
  {
    if candidate == seed then adj
    else
      var one := adj[seed := Neighbours(adj, seed) + {candidate}];
      one[candidate := Neighbours(one, candidate) + {seed}]
  }

  /** The loop over seeds and their candidates: a symmetric graph without self-links over the seeds and candidates. */
  method BuildAdjacency(seeds: seq<int>, candidates: seq<seq<int>>) returns (adj: Adjacency)
    requires |seeds| == |candidates|
    ensures forall k :: k in adj <==> k in seeds || exists i :: 0 <= i < |seeds| && k in candidates[i]
    ensures forall u, v :: v in Neighbours(adj, u) <==> Linked(seeds, candidates, |seeds|, u, v)
    ensures Symmetric(adj)
  {
    adj := map k | k in seeds :: {};
    for i := 0 to |seeds|
      invariant forall k :: k in adj <==> k in seeds || exists j :: 0 <= j < i && k in candidates[j]
      invariant forall u, v :: v in Neighbours(adj, u) <==> Linked(seeds, candidates, i, u, v)
    {
      ghost var before := adj;
      for c := 0 to |candidates[i]|
        invariant forall k :: k in adj <==> k in before || k in candidates[i][..c]
        invariant forall u, v :: v in Neighbours(adj, u) <==>
                    v in Neighbours(before, u) || (u != v && LinkedBy(seeds[i], candidates[i][..c], u, v))
      {
        adj := AddLink(adj, seeds[i], candidates[i][c]);
        SplitAt(candidates[i], c);
      }
      assert candidates[i][..|candidates[i]|] == candidates[i];
      LinkedGrows(seeds, candidates, i);
    }
  }

  lemma LinkedGrows(seeds: seq<int>, candidates: seq<seq<int>>, i: nat)
    requires i < |seeds| == |candidates|
    ensures forall u, v :: Linked(seeds, candidates, i + 1, u, v) <==>
              Linked(seeds, candidates, i, u, v) || (u != v && LinkedBy(seeds[i], candidates[i], u, v))
  {
  }
}
