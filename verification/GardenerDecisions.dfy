/** What the gardener asks about a batch of clusters and which replies it accepts
    (domain/graph/gardener.py, _batch_cluster_llm_decisions). */
module GardenerDecisions {
  import opened Wrappers
  import opened Ordering
  import opened Sequences
  import opened GraphTables

  datatype Kind = MergeInto | CreateNew | LinkOnly

  /** One operation of a reply; Unparsable is what the payload model rejects outright. A proposed tier outside the
      four known ones is None. */
  datatype Op =
    | Unparsable
    | Op(kind: Kind, mergeInto: Option<int>, confidence: real, linkTo: Option<int>, relation: Option<string>,
         proposedTier: Option<Tier>)

  /** One cluster member put to the model, with the ids it may answer with. */
  datatype Item = Item(cluster: nat, own: int, candidates: set<int>)

  /** What was decided for a member: an accepted operation, or nothing usable. */
  datatype MemberDecision = MemberDecision(own: int, op: Option<Op>)

  /** The ordering that puts the most relevant of a member's cluster mates first. */
  type Relevance = (int, seq<int>) -> seq<int>

  ghost predicate IsReordering(relevance: Relevance) {
    forall own, ids :: multiset(relevance(own, ids)) == multiset(ids)
  }

  function Without(ids: seq<int>, own: int): seq<int> {
    if ids == [] then []
    else Without(ids[..|ids| - 1], own) + if ids[|ids| - 1] == own then [] else [ids[|ids| - 1]]
  }

  /** The cluster mates offered for one member: all of them, or the most relevant ones up to the bound. */
  function Shortlist(relevance: Relevance, maxCandidates: nat, own: int, ids: seq<int>): seq<int> {
    var others := Without(ids, own);
    if |others| > maxCandidates then
      var ranked := relevance(own, others);
      ranked[..if |ranked| < maxCandidates then |ranked| else maxCandidates]
    else others
  }

  function ItemFor(relevance: Relevance, maxCandidates: nat, cluster: nat, own: int, ids: seq<int>): Item {
    Item(cluster, own, set c | c in Shortlist(relevance, maxCandidates, own, ids))
  }

  lemma {:induction false} WithoutMembers(ids: seq<int>, own: int)
    ensures forall c :: c in Without(ids, own) <==> c in ids && c != own
  {
    if ids != [] {
      WithoutMembers(ids[..|ids| - 1], own);
      assert ids == ids[..|ids| - 1] + [ids[|ids| - 1]];
    }
  }

  /** A member is offered only other members of its own cluster. */
  lemma ShortlistInCluster(relevance: Relevance, maxCandidates: nat, own: int, ids: seq<int>)
    requires IsReordering(relevance)
    ensures forall c | c in Shortlist(relevance, maxCandidates, own, ids) :: c in ids && c != own
  {
    WithoutMembers(ids, own);
    var others := Without(ids, own);
    var ranked := relevance(own, others);
    forall c | c in ranked ensures c in others {
      assert c in multiset(ranked);
      assert c in multiset(others);
    }
  }

  ghost predicate ItemsInClusters(items: seq<Item>, clusters: seq<set<int>>) {
    forall i | 0 <= i < |items| ::
      && items[i].cluster < |clusters|
      && items[i].own in clusters[items[i].cluster]
      && items[i].candidates <= clusters[items[i].cluster] - {items[i].own}
  }

  /** The items of the first n members of one cluster; a member with nobody to be compared with is left out. */
  function MemberItems(relevance: Relevance, maxCandidates: nat, cluster: nat, ids: seq<int>, n: nat): seq<Item>
    requires n <= |ids|
  {
    if n == 0 then []
    else
      var item := ItemFor(relevance, maxCandidates, cluster, ids[n - 1], ids);
      MemberItems(relevance, maxCandidates, cluster, ids, n - 1) + if item.candidates == {} then [] else [item]
  }

  /** The items of the first k clusters, members in ascending order. */
  function ItemsOf(relevance: Relevance, maxCandidates: nat, clusters: seq<set<int>>, k: nat): seq<Item>
    requires k <= |clusters|
  {
    if k == 0 then []
    else
      var ids := SortedInts(clusters[k - 1]);
      ItemsOf(relevance, maxCandidates, clusters, k - 1) + MemberItems(relevance, maxCandidates, k - 1, ids, |ids|)
  }

  method BuildItems(relevance: Relevance, maxCandidates: nat, clusters: seq<set<int>>) returns (items: seq<Item>)
    ensures items == ItemsOf(relevance, maxCandidates, clusters, |clusters|)
  {
    hide SortedInts, ItemFor;
    items := [];
    for k := 0 to |clusters|
      invariant items == ItemsOf(relevance, maxCandidates, clusters, k)
    {
      var ids := SortedInts(clusters[k]);
      ghost var before := items;
      for n := 0 to |ids|
        invariant items == before + MemberItems(relevance, maxCandidates, k, ids, n)
      {
        var item := ItemFor(relevance, maxCandidates, k, ids[n], ids);
        if item.candidates == {} {
          continue;
        }
        Assoc(before, MemberItems(relevance, maxCandidates, k, ids, n), [item]);
        assert MemberItems(relevance, maxCandidates, k, ids, n + 1) ==
                 MemberItems(relevance, maxCandidates, k, ids, n) + [item];
        items := items + [item];
      }
    }
  }

  lemma ItemForInside(relevance: Relevance, maxCandidates: nat, cluster: set<int>, k: nat, own: int)
    requires IsReordering(relevance)
    ensures ItemFor(relevance, maxCandidates, k, own, SortedInts(cluster)).candidates <= cluster - {own}
  {
    hide SortedInts, IsReordering, Shortlist;
    var ids := SortedInts(cluster);
    ShortlistInCluster(relevance, maxCandidates, own, ids);
    forall c | c in ItemFor(relevance, maxCandidates, k, own, ids).candidates ensures c in cluster - {own} {
      assert c in Shortlist(relevance, maxCandidates, own, ids);
    }
  }

  lemma {:induction false} MemberItemsInside(relevance: Relevance, maxCandidates: nat, clusters: seq<set<int>>, k: nat,
                                             n: nat)
    requires IsReordering(relevance) && k < |clusters| && n <= |SortedInts(clusters[k])|
    ensures ItemsInClusters(MemberItems(relevance, maxCandidates, k, SortedInts(clusters[k]), n), clusters)
  {
    hide IsReordering, SortedInts, Shortlist;
    if n > 0 {
      var ids := SortedInts(clusters[k]);
      MemberItemsInside(relevance, maxCandidates, clusters, k, n - 1);
      ItemForInside(relevance, maxCandidates, clusters[k], k, ids[n - 1]);
      assert ids[n - 1] in ids;
      var item := ItemFor(relevance, maxCandidates, k, ids[n - 1], ids);
      var more := if item.candidates == {} then [] else [item];
      assert ItemsInClusters(more, clusters);
      InsideConcat(MemberItems(relevance, maxCandidates, k, ids, n - 1), more, clusters);
    }
  }

  lemma InsideConcat(a: seq<Item>, b: seq<Item>, clusters: seq<set<int>>)
    requires ItemsInClusters(a, clusters) && ItemsInClusters(b, clusters)
    ensures ItemsInClusters(a + b, clusters)
  {
  }

  /** Every item asks about a member of a cluster and offers it only other members of that cluster. */
  lemma {:induction false} ItemsStayInside(relevance: Relevance, maxCandidates: nat, clusters: seq<set<int>>, k: nat)
    requires IsReordering(relevance) && k <= |clusters|
    ensures ItemsInClusters(ItemsOf(relevance, maxCandidates, clusters, k), clusters)
  {
    hide IsReordering, SortedInts, MemberItems;
    if k > 0 {
      hide ItemsInClusters;
      var ids := SortedInts(clusters[k - 1]);
      ItemsStayInside(relevance, maxCandidates, clusters, k - 1);
      MemberItemsInside(relevance, maxCandidates, clusters, k - 1, |ids|);
      InsideConcat(ItemsOf(relevance, maxCandidates, clusters, k - 1),
                   MemberItems(relevance, maxCandidates, k - 1, ids, |ids|), clusters);
    }
  }

  // ---- the replies ----

  predicate IsValidPayload(op: Op) {
    && op.Op? && 0.0 <= op.confidence <= 1.0
    && (op.kind == MergeInto ==> op.mergeInto.Some?)
    && (op.kind == LinkOnly ==> op.linkTo.Some?)
  }

  /** An operation is kept when it is valid, decides something, and names another member that was offered. */
  predicate IsKept(item: Item, op: Op) {
    && IsValidPayload(op) && op.kind != CreateNew
    && (op.kind == MergeInto ==> op.mergeInto.value != item.own && op.mergeInto.value in item.candidates)
    && (op.kind == LinkOnly ==> op.linkTo.value in item.candidates)
  }

  function KeptOps(item: Item, ops: seq<Op>): seq<MemberDecision> {
    if ops == [] then []
    else KeptOps(item, ops[..|ops| - 1]) +
         if IsKept(item, ops[|ops| - 1]) then [MemberDecision(item.own, Some(ops[|ops| - 1]))] else []
  }

  /** The decisions taken from one reply; one empty decision when none of its operations is kept. */
  function Entries(item: Item, ops: seq<Op>): seq<MemberDecision> {
    if KeptOps(item, ops) == [] then [MemberDecision(item.own, None)] else KeptOps(item, ops)
  }

  /** A decision concerns a member of the cluster and names only another member of it. */
  ghost predicate StaysInside(cluster: set<int>, d: MemberDecision) {
    && d.own in cluster
    && (d.op.Some? ==>
          && IsValidPayload(d.op.value) && d.op.value.kind != CreateNew
          && (d.op.value.kind == MergeInto ==> d.op.value.mergeInto.value in cluster - {d.own})
          && (d.op.value.kind == LinkOnly ==> d.op.value.linkTo.value in cluster - {d.own}))
  }

  ghost predicate AllInside(cluster: set<int>, ds: seq<MemberDecision>) {
    forall i | 0 <= i < |ds| :: StaysInside(cluster, ds[i])
  }

  ghost predicate AllStayInside(clusters: seq<set<int>>, results: seq<seq<MemberDecision>>) {
    |results| == |clusters| && forall k | 0 <= k < |results| :: AllInside(clusters[k], results[k])
  }

  lemma {:induction false} KeptOpsInside(cluster: set<int>, item: Item, ops: seq<Op>)
    requires item.own in cluster && item.candidates <= cluster - {item.own}
    ensures AllInside(cluster, KeptOps(item, ops))
  {
    if ops != [] { KeptOpsInside(cluster, item, ops[..|ops| - 1]); }
  }

  /** The first n replies, each added to the list of its item's cluster. */
  function Collected(items: seq<Item>, replies: seq<seq<Op>>, count: nat, n: nat): (results: seq<seq<MemberDecision>>)
    requires n <= |items| && n <= |replies| && forall i | 0 <= i < |items| :: items[i].cluster < count
    ensures |results| == count
  {
    if n == 0 then seq(count, _ => [])
    else
      var before := Collected(items, replies, count, n - 1);
      var k := items[n - 1].cluster;
      before[k := before[k] + Entries(items[n - 1], replies[n - 1])]
  }

  /** The decisions per cluster for one batch; a reply of None stands for a call that raised. */
  function Decided(relevance: Relevance, maxCandidates: nat, clusters: seq<set<int>>,
                   reply: Option<seq<seq<Op>>>): (results: seq<seq<MemberDecision>>)
    requires IsReordering(relevance)
    ensures |results| == |clusters|
  {
    ItemsStayInside(relevance, maxCandidates, clusters, |clusters|);
    var items := ItemsOf(relevance, maxCandidates, clusters, |clusters|);
    if reply == None then seq(|clusters|, _ => [])
    else Collected(items, reply.value, |clusters|, if |items| <= |reply.value| then |items| else |reply.value|)
  }

  method BatchClusterDecisions(relevance: Relevance, maxCandidates: nat, clusters: seq<set<int>>,
                               reply: Option<seq<seq<Op>>>)
    returns (results: seq<seq<MemberDecision>>)
    requires IsReordering(relevance)
    ensures results == Decided(relevance, maxCandidates, clusters, reply)
  {
    var items := BuildItems(relevance, maxCandidates, clusters);
    ItemsStayInside(relevance, maxCandidates, clusters, |clusters|);
    results := seq(|clusters|, _ => []);
    if items == [] || reply == None {
      return;
    }
    var replies := reply.value;
    var n := if |items| <= |replies| then |items| else |replies|;
    for i := 0 to n
      invariant results == Collected(items, replies, |clusters|, i)
    {
      var k := items[i].cluster;
      results := results[k := results[k] + Entries(items[i], replies[i])];
    }
  }

  lemma {:induction false} CollectedInside(items: seq<Item>, clusters: seq<set<int>>, replies: seq<seq<Op>>, n: nat)
    requires n <= |items| && n <= |replies| && ItemsInClusters(items, clusters)
    ensures AllStayInside(clusters, Collected(items, replies, |clusters|, n))
  {
    if n > 0 {
      CollectedInside(items, clusters, replies, n - 1);
      KeptOpsInside(clusters[items[n - 1].cluster], items[n - 1], replies[n - 1]);
      hide StaysInside, KeptOps;
    }
  }

  /** Whatever the model replies, every decision stays inside its cluster. */
  lemma DecisionsStayInside(relevance: Relevance, maxCandidates: nat, clusters: seq<set<int>>,
                            reply: Option<seq<seq<Op>>>)
    requires IsReordering(relevance)
    ensures AllStayInside(clusters, Decided(relevance, maxCandidates, clusters, reply))
  {
    ItemsStayInside(relevance, maxCandidates, clusters, |clusters|);
    var items := ItemsOf(relevance, maxCandidates, clusters, |clusters|);
    if reply.Some? {
      CollectedInside(items, clusters, reply.value, if |items| <= |reply.value| then |items| else |reply.value|);
    }
  }

  /** From a reply exactly the kept operations become decisions, in order, and none of them creates: a proposal to
      create a new concept is dropped together with the tier it proposes. A reply without any kept operation becomes one
      empty decision. */
  lemma CreateNewIsDropped(item: Item, ops: seq<Op>)
    ensures forall d | d in Entries(item, ops) ::
              d.own == item.own && (d.op.Some? ==> d.op.value in ops && IsKept(item, d.op.value))
    ensures forall d | d in Entries(item, ops) && d.op.Some? :: d.op.value.Op? && d.op.value.kind != CreateNew
    ensures forall op | op in ops && IsKept(item, op) :: MemberDecision(item.own, Some(op)) in Entries(item, ops)
    ensures (forall op | op in ops :: !IsKept(item, op)) <==> Entries(item, ops) == [MemberDecision(item.own, None)]
  {
    KeptOpsAre(item, ops);
    KeptCreatesNothing(item);
    hide IsKept, KeptOps;
    var kept := KeptOps(item, ops);
    assert kept != [] ==> kept[0] in kept;
    assert kept == [] ==> forall op | op in ops :: MemberDecision(item.own, Some(op)) !in kept;
  }

  lemma KeptCreatesNothing(item: Item)
    ensures forall op | IsKept(item, op) :: op.Op? && op.kind != CreateNew
  {
  }

  lemma {:induction false} KeptOpsAre(item: Item, ops: seq<Op>)
    ensures forall d | d in KeptOps(item, ops) ::
              d.own == item.own && d.op.Some? && d.op.value in ops && IsKept(item, d.op.value)
    ensures forall op | op in ops && IsKept(item, op) :: MemberDecision(item.own, Some(op)) in KeptOps(item, ops)
  {
    hide IsKept;
    if ops != [] {
      KeptOpsAre(item, ops[..|ops| - 1]);
      assert ops == ops[..|ops| - 1] + [ops[|ops| - 1]];
    }
  }
}
