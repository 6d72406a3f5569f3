/** What the gardener asks about and what it takes from the replies, said of clusters and replies alone
    (domain/graph/gardener.py, _batch_cluster_llm_decisions). */
module GardenerBatches {
  import opened Wrappers
  import opened Ordering
  import opened Sequences
  import opened GraphTables
  import opened GardenerDecisions

  // ---- what is asked ----

  /** The cluster mates a member is offered: all others, or the most relevant ones when there are too many. */
  function Offered(relevance: Relevance, maxCandidates: nat, cluster: set<int>, own: int): set<int>
    requires IsReordering(relevance)
  {
    var others := SortedInts(cluster - {own});
    if |others| <= maxCandidates then cluster - {own}
    else
      RankedIsLong(relevance, own, others);
      set c | c in relevance(own, others)[..maxCandidates]
  }

  lemma RankedIsLong(relevance: Relevance, own: int, others: seq<int>)
    requires IsReordering(relevance)
    ensures |relevance(own, others)| == |others|
  {
    assert |multiset(relevance(own, others))| == |multiset(others)|;
  }

  predicate Rises(xs: seq<int>) { forall i, j | 0 <= i < j < |xs| :: xs[i] < xs[j] }

  lemma RisesOn(xs: seq<int>, x: int)
    requires Rises(xs) && forall y | y in xs :: y < x
    ensures Rises(xs + [x])
  {
    forall i, j | 0 <= i < j < |xs + [x]| ensures (xs + [x])[i] < (xs + [x])[j] {
      assert xs[i] in xs;
    }
  }

  lemma {:induction false} WithoutAscends(ids: seq<int>, own: int)
    requires Rises(ids)
    ensures Rises(Without(ids, own))
  {
    if ids != [] {
      var front, last := ids[..|ids| - 1], ids[|ids| - 1];
      WithoutAscends(front, own);
      WithoutMembers(front, own);
      forall x | x in Without(front, own) ensures x < last {
        var j :| 0 <= j < |front| && front[j] == x;
        assert ids[j] < ids[|ids| - 1];
      }
      RisesOn(Without(front, own), last);
    }
  }

  lemma SortedOnce(xs: seq<int>, s: set<int>)
    requires Rises(xs) && forall x :: x in xs <==> x in s
    ensures xs == SortedInts(s)
  {
    AscendingUnique(xs, SortedInts(s), s, (x, y) => x < y);
  }

  lemma WithoutIsSorted(cluster: set<int>, own: int)
    ensures Without(SortedInts(cluster), own) == SortedInts(cluster - {own})
  {
    var ids := SortedInts(cluster);
    WithoutAscends(ids, own);
    WithoutMembers(ids, own);
    SortedOnce(Without(ids, own), cluster - {own});
  }

  lemma SortedAscend(s: set<int>)
    ensures var xs := SortedInts(s);
            (forall x :: x in xs <==> x in s) && forall i, j | 0 <= i < j < |xs| :: xs[i] < xs[j]
  {
  }

  lemma ShortlistIs(relevance: Relevance, maxCandidates: nat, own: int, ids: seq<int>, others: seq<int>)
    requires IsReordering(relevance) && Without(ids, own) == others
    ensures |relevance(own, others)| == |others|
    ensures Shortlist(relevance, maxCandidates, own, ids) ==
            if |others| <= maxCandidates then others else relevance(own, others)[..maxCandidates]
  {
    RankedIsLong(relevance, own, others);
    hide IsReordering, Without;
  }

  lemma ItemForIs(relevance: Relevance, maxCandidates: nat, k: nat, cluster: set<int>, own: int)
    requires IsReordering(relevance)
    ensures ItemFor(relevance, maxCandidates, k, own, SortedInts(cluster)) ==
            Item(k, own, Offered(relevance, maxCandidates, cluster, own))
  {
    hide IsReordering, Without, Shortlist, Sorted;
    WithoutIsSorted(cluster, own);
    var others := SortedInts(cluster - {own});
    ShortlistIs(relevance, maxCandidates, own, SortedInts(cluster), others);
    MembersOnly(others, cluster - {own});
  }

  lemma MembersOnly(xs: seq<int>, s: set<int>)
    requires forall x :: x in xs <==> x in s
    ensures (set x | x in xs) == s
  {
    var members := set x | x in xs;
    forall x: int ensures x in members <==> x in s {
      assert x in members <==> x in xs;
    }
  }

  /** The items of one cluster up to a position in the order of its members. */
  ghost predicate ListsMembers(relevance: Relevance, maxCandidates: nat, k: nat, cluster: set<int>, items: seq<Item>,
                               upTo: int)
    requires IsReordering(relevance)
  {
    && (forall i | 0 <= i < |items| ::
          && items[i].cluster == k && items[i].own in cluster && items[i].own < upTo
          && items[i].candidates == Offered(relevance, maxCandidates, cluster, items[i].own) != {})
    && (forall own | own in cluster && own < upTo && Offered(relevance, maxCandidates, cluster, own) != {} ::
          exists i :: 0 <= i < |items| && items[i].own == own)
    && (forall i, j | 0 <= i < j < |items| :: items[i].own < items[j].own)
  }

  lemma {:induction false} MembersListed(relevance: Relevance, maxCandidates: nat, k: nat, cluster: set<int>, n: nat)
    requires IsReordering(relevance) && n <= |SortedInts(cluster)|
    ensures var ids := SortedInts(cluster);
            forall upTo | (n > 0 ==> ids[n - 1] < upTo) && (n < |ids| ==> upTo <= ids[n]) ::
              ListsMembers(relevance, maxCandidates, k, cluster, MemberItems(relevance, maxCandidates, k, ids, n), upTo)
  {
    var ids := SortedInts(cluster);
    SortedAscend(cluster);
    hide SortedInts, IsReordering, Offered;
    forall upTo | (n > 0 ==> ids[n - 1] < upTo) && (n < |ids| ==> upTo <= ids[n])
      ensures ListsMembers(relevance, maxCandidates, k, cluster, MemberItems(relevance, maxCandidates, k, ids, n), upTo)
    {
      if n == 0 {
        NobodyBelow(cluster, ids, upTo);
      } else {
        MembersListed(relevance, maxCandidates, k, cluster, n - 1);
        ItemForIs(relevance, maxCandidates, k, cluster, ids[n - 1]);
        assert ids[n - 1] in ids;
        var front := MemberItems(relevance, maxCandidates, k, ids, n - 1);
        assert ListsMembers(relevance, maxCandidates, k, cluster, front, ids[n - 1]);
        OneMoreMember(relevance, maxCandidates, k, cluster, ids, n, front, upTo);
      }
    }
  }

  lemma NobodyBelow(cluster: set<int>, ids: seq<int>, upTo: int)
    requires forall x :: x in ids <==> x in cluster
    requires forall i, j | 0 <= i < j < |ids| :: ids[i] < ids[j]
    requires |ids| > 0 ==> upTo <= ids[0]
    ensures forall own | own in cluster :: upTo <= own
  {
    forall own | own in cluster ensures upTo <= own {
      var i :| 0 <= i < |ids| && ids[i] == own;
    }
  }

  lemma OneMoreMember(relevance: Relevance, maxCandidates: nat, k: nat, cluster: set<int>, ids: seq<int>, n: nat,
                      front: seq<Item>, upTo: int)
    requires IsReordering(relevance) && 0 < n <= |ids| && (forall x :: x in ids <==> x in cluster)
    requires forall i, j | 0 <= i < j < |ids| :: ids[i] < ids[j]
    requires ids[n - 1] < upTo && (n < |ids| ==> upTo <= ids[n])
    requires ListsMembers(relevance, maxCandidates, k, cluster, front, ids[n - 1])
    ensures var own := ids[n - 1];
            var item := Item(k, own, Offered(relevance, maxCandidates, cluster, own));
            ListsMembers(relevance, maxCandidates, k, cluster, front + if item.candidates == {} then [] else [item],
                         upTo)
  {
    hide IsReordering, Offered;
    var last := ids[n - 1];
    var item := Item(k, last, Offered(relevance, maxCandidates, cluster, last));
    var items := front + if item.candidates == {} then [] else [item];
    assert last in ids;
    forall own | own in cluster && own < upTo && Offered(relevance, maxCandidates, cluster, own) != {}
      ensures exists i :: 0 <= i < |items| && items[i].own == own
    {
      var j :| 0 <= j < |ids| && ids[j] == own;
      assert j <= n - 1;
      if own == last {
        assert items[|front|].own == own;
      } else {
        var i :| 0 <= i < |front| && front[i].own == own;
        assert items[i].own == own;
      }
    }
  }

  /** Every member that has somebody to be compared with is asked about, with exactly what it is offered, cluster by
      cluster and in ascending order within each. */
  ghost predicate AsksAll(relevance: Relevance, maxCandidates: nat, clusters: seq<set<int>>, n: nat, items: seq<Item>)
    requires IsReordering(relevance) && n <= |clusters|
  {
    && (forall i | 0 <= i < |items| ::
          && items[i].cluster < n && items[i].own in clusters[items[i].cluster]
          && items[i].candidates == Offered(relevance, maxCandidates, clusters[items[i].cluster], items[i].own) != {})
    && (forall k: nat, own | k < n && own in clusters[k] && Offered(relevance, maxCandidates, clusters[k], own) != {} ::
          exists i :: 0 <= i < |items| && items[i].cluster == k && items[i].own == own)
    && (forall i, j | 0 <= i < j < |items| ::
          items[i].cluster < items[j].cluster || (items[i].cluster == items[j].cluster && items[i].own < items[j].own))
  }

  lemma {:induction false} ItemsMeaning(relevance: Relevance, maxCandidates: nat, clusters: seq<set<int>>, n: nat)
    requires IsReordering(relevance) && n <= |clusters|
    ensures AsksAll(relevance, maxCandidates, clusters, n, ItemsOf(relevance, maxCandidates, clusters, n))
  {
    hide IsReordering, Offered, SortedInts, MemberItems;
    if n > 0 {
      ItemsMeaning(relevance, maxCandidates, clusters, n - 1);
      var cluster, ids := clusters[n - 1], SortedInts(clusters[n - 1]);
      MembersListed(relevance, maxCandidates, n - 1, cluster, |ids|);
      var upTo := if |ids| > 0 then ids[|ids| - 1] + 1 else 0;
      assert ListsMembers(relevance, maxCandidates, n - 1, cluster,
                          MemberItems(relevance, maxCandidates, n - 1, ids, |ids|), upTo);
      AllBelow(cluster, upTo);
      OneMoreCluster(relevance, maxCandidates, clusters, n, ItemsOf(relevance, maxCandidates, clusters, n - 1),
                     MemberItems(relevance, maxCandidates, n - 1, ids, |ids|), upTo);
    }
  }

  ghost predicate IsAbove(x: int, s: set<int>) { forall y | y in s :: y < x }

  lemma AllBelow(cluster: set<int>, upTo: int)
    requires var ids := SortedInts(cluster); upTo == if |ids| > 0 then ids[|ids| - 1] + 1 else 0
    ensures IsAbove(upTo, cluster)
  {
    var ids := SortedInts(cluster);
    SortedAscend(cluster);
    hide SortedInts;
    forall own | own in cluster ensures own < upTo {
      var i :| 0 <= i < |ids| && ids[i] == own;
    }
  }

  lemma OneMoreCluster(relevance: Relevance, maxCandidates: nat, clusters: seq<set<int>>, n: nat, front: seq<Item>,
                       more: seq<Item>, upTo: int)
    requires IsReordering(relevance) && 0 < n <= |clusters|
    requires AsksAll(relevance, maxCandidates, clusters, n - 1, front)
    requires ListsMembers(relevance, maxCandidates, n - 1, clusters[n - 1], more, upTo)
    requires IsAbove(upTo, clusters[n - 1])
    ensures AsksAll(relevance, maxCandidates, clusters, n, front + more)
  {
    hide IsReordering, Offered;
    var items := front + more;
    forall k: nat, own | k < n && own in clusters[k] && Offered(relevance, maxCandidates, clusters[k], own) != {}
      ensures exists i :: 0 <= i < |items| && items[i].cluster == k && items[i].own == own
    {
      if k < n - 1 {
        var i :| 0 <= i < |front| && front[i].cluster == k && front[i].own == own;
        assert items[i] == front[i];
      } else {
        var i :| 0 <= i < |more| && more[i].own == own;
        assert items[|front| + i] == more[i];
      }
    }
  }

  // ---- what is taken from the replies ----

  /** An operation is taken when its payload is valid, it merges or links, and it names a member that was offered. */
  predicate IsTaken(item: Item, op: Op) {
    && op.Op? && 0.0 <= op.confidence <= 1.0
    && ((op.kind == MergeInto && op.mergeInto.Some? && op.mergeInto.value in item.candidates &&
         op.mergeInto.value != item.own)
        || (op.kind == LinkOnly && op.linkTo.Some? && op.linkTo.value in item.candidates))
  }

  /** The decisions of a reply: the taken operations in their order, or one empty decision when there is none. */
  ghost predicate AreTaken(item: Item, ops: seq<Op>, ds: seq<MemberDecision>) {
    if forall i | 0 <= i < |ops| :: !IsTaken(item, ops[i]) then ds == [MemberDecision(item.own, None)]
    else
      exists at: seq<nat> :: AreAt(item, ops, ds, at)
  }

  lemma KeptIsTaken(item: Item, op: Op)
    ensures IsKept(item, op) <==> IsTaken(item, op)
  {
  }

  /** The positions of the taken operations. */
  ghost predicate AreAt(item: Item, ops: seq<Op>, ds: seq<MemberDecision>, at: seq<nat>) {
    && |at| == |ds| && (forall m | 0 <= m < |at| :: at[m] < |ops| && IsTaken(item, ops[at[m]]))
    && (forall m | 0 <= m < |at| :: at[m] < |ops| && ds[m] == MemberDecision(item.own, Some(ops[at[m]])))
    && (forall m, l | 0 <= m < l < |at| :: at[m] < at[l])
    && (forall i: nat | i < |ops| && IsTaken(item, ops[i]) :: i in at)
  }

  lemma {:induction false} KeptAreTaken(item: Item, ops: seq<Op>) returns (at: seq<nat>)
    ensures AreAt(item, ops, KeptOps(item, ops), at)
  {
    at := [];
    if ops != [] {
      var n := |ops| - 1;
      var front := ops[..n];
      var before := KeptAreTaken(item, front);
      hide IsTaken, IsKept;
      KeptIsTaken(item, ops[n]);
      at := before + if IsTaken(item, ops[n]) then [n] else [];
      forall i: nat | i < |ops| && IsTaken(item, ops[i]) ensures i in at {
        if i < n { assert front[i] == ops[i]; assert i in before; } else { assert at[|before|] == n; }
      }
      assert forall m | 0 <= m < |before| :: front[before[m]] == ops[before[m]];
    }
  }

  /** From one reply: its taken operations in their order, or one empty decision. */
  lemma EntriesMeaning(item: Item, ops: seq<Op>)
    ensures AreTaken(item, ops, Entries(item, ops))
  {
    var at := KeptAreTaken(item, ops);
    hide IsTaken, KeptOps;
    if KeptOps(item, ops) == [] {
      assert at == [];
    } else {
      assert IsTaken(item, ops[at[0]]);
      assert AreAt(item, ops, KeptOps(item, ops), at);
    }
  }

  /** A reply's decisions go to the cluster of its item, after those of the replies before it, and to no other. */
  lemma {:induction false} CollectedMeaning(items: seq<Item>, replies: seq<seq<Op>>, count: nat, i: nat, n: nat)
    requires i < n <= |items| && n <= |replies| && forall j | 0 <= j < |items| :: items[j].cluster < count
    ensures exists ds ::
              && AreTaken(items[i], replies[i], ds)
              && var before, after := Collected(items, replies, count, i), Collected(items, replies, count, i + 1);
                 && after == before[items[i].cluster := before[items[i].cluster] + ds]
                 && (forall k | 0 <= k < count :: after[k] <= Collected(items, replies, count, n)[k])
    decreases n
  {
    EntriesMeaning(items[i], replies[i]);
    hide AreTaken, Entries;
    CollectedGrows(items, replies, count, i + 1, n);
    assert AreTaken(items[i], replies[i], Entries(items[i], replies[i]));
  }

  lemma {:induction false} CollectedGrows(items: seq<Item>, replies: seq<seq<Op>>, count: nat, i: nat, n: nat)
    requires i <= n <= |items| && n <= |replies| && forall j | 0 <= j < |items| :: items[j].cluster < count
    ensures forall k | 0 <= k < count ::
              Collected(items, replies, count, i)[k] <= Collected(items, replies, count, n)[k]
    decreases n
  {
    hide Entries;
    if i < n { CollectedGrows(items, replies, count, i, n - 1); }
  }

  /** The decisions of a batch: none when the call raised; otherwise those of the replies that have an item, reply by
      reply, beginning with none. */
  lemma BatchMeaning(relevance: Relevance, maxCandidates: nat, clusters: seq<set<int>>, reply: Option<seq<seq<Op>>>)
    requires IsReordering(relevance)
    ensures var items, results := ItemsOf(relevance, maxCandidates, clusters, |clusters|),
                                  Decided(relevance, maxCandidates, clusters, reply);
            && (forall i | 0 <= i < |items| :: items[i].cluster < |clusters|)
            && (reply.None? ==> forall k | 0 <= k < |results| :: results[k] == [])
            && (reply.Some? ==>
                  var n := if |items| <= |reply.value| then |items| else |reply.value|;
                  && results == Collected(items, reply.value, |clusters|, n)
                  && forall k | 0 <= k < |clusters| :: Collected(items, reply.value, |clusters|, 0)[k] == [])
  {
    ItemsStayInside(relevance, maxCandidates, clusters, |clusters|);
    hide ItemsOf, IsReordering;
  }
}
