/** The merges of one run, as a forest: where following them from a concept leads. */
module MergeForest {
  import opened Sequences

  datatype Merge = Merge(from: int, to: int)

  ghost function Sources(merges: seq<Merge>): set<int> { set m | m in merges :: m.from }

  /** No merge names, as source or target, a concept that an earlier merge retired, and none is a self-merge. */
  ghost predicate IsForest(merges: seq<Merge>) {
    && (forall i | 0 <= i < |merges| :: merges[i].from != merges[i].to)
    && (forall i, j | 0 <= i < j < |merges| :: merges[i].from != merges[j].from && merges[i].from != merges[j].to)
  }

  /** Where the merges take a concept. */
  function Follow(merges: seq<Merge>, c: int): int
    decreases merges
  {
    if merges == [] then c
    else if merges[0].from == c then Follow(merges[1..], merges[0].to)
    else Follow(merges[1..], c)
  }

  lemma SourcesAppend(merges: seq<Merge>, m: Merge)
    ensures Sources(merges + [m]) == Sources(merges) + {m.from}
  {
    assert m in merges + [m];
    forall x | x in Sources(merges) ensures x in Sources(merges + [m]) {
      var n :| n in merges && n.from == x;
      assert n in merges + [m];
    }
  }

  /** Appending a merge that names no retired concept keeps a forest. */
  lemma ForestAppend(merges: seq<Merge>, m: Merge)
    requires IsForest(merges) && m.from != m.to && m.from !in Sources(merges) && m.to !in Sources(merges)
    ensures IsForest(merges + [m])
  {
    var all := merges + [m];
    forall i, j | 0 <= i < j < |all| ensures all[i].from != all[j].from && all[i].from != all[j].to {
      if j == |merges| { assert merges[i] in merges; }
    }
  }

  /** Merges are acyclic: a merge's target can only be a source later on. */
  lemma ForestAcyclic(merges: seq<Merge>, i: nat, j: nat)
    requires IsForest(merges) && i < |merges| && j < |merges| && merges[i].to == merges[j].from
    ensures i < j
  {
  }

  ghost predicate Preserves(merges: seq<Merge>, s: set<int>) {
    forall i | 0 <= i < |merges| :: merges[i].from in s ==> merges[i].to in s
  }

  /** Following leads out of the sources, stays in any set the merges stay in, and fixes what was never merged. */
  lemma {:induction false} FollowMeaning(merges: seq<Merge>, c: int, s: set<int>)
    requires IsForest(merges) && Preserves(merges, s) && c in s
    ensures Follow(merges, c) in s && Follow(merges, c) !in Sources(merges)
    ensures c !in Sources(merges) ==> Follow(merges, c) == c
    decreases merges
  {
    if merges != [] {
      var m, rest := merges[0], merges[1..];
      assert forall i | 0 <= i < |rest| :: rest[i] == merges[i + 1];
      assert m in merges;
      var next := if m.from == c then m.to else c;
      FollowMeaning(rest, next, s);
      forall x ensures x in Sources(merges) <==> x in Sources(rest) || x == m.from {
        if x in Sources(merges) {
          var n :| n in merges && n.from == x;
          if n != m { var i :| 0 <= i < |merges| && merges[i] == n; assert rest[i - 1] == n; }
        }
        if x in Sources(rest) { var n :| n in rest && n.from == x; assert n in merges; }
      }
      NeverBack(rest, next, m.from);
    }
  }

  /** Following never arrives at a concept that no merge has as its target. */
  lemma {:induction false} NeverBack(merges: seq<Merge>, c: int, x: int)
    requires c != x && forall i | 0 <= i < |merges| :: merges[i].to != x
    ensures Follow(merges, c) != x
    decreases merges
  {
    if merges != [] {
      NeverBack(merges[1..], if merges[0].from == c then merges[0].to else c, x);
    }
  }

  /** A concept that was never merged stays where it is. */
  lemma {:induction false} FollowUntouched(merges: seq<Merge>, c: int)
    requires forall m | m in merges :: m.from != c
    ensures Follow(merges, c) == c
    decreases merges
  {
    if merges != [] {
      assert merges[0] in merges && forall m | m in merges[1..] :: m in merges;
      FollowUntouched(merges[1..], c);
    }
  }

  /** Wherever one starts, following ends outside the sources. */
  lemma FollowLeavesSources(merges: seq<Merge>, c: int)
    requires IsForest(merges)
    ensures Follow(merges, c) !in Sources(merges)
  {
    var reachable := {c} + set m | m in merges :: m.to;
    forall i | 0 <= i < |merges| ensures merges[i].to in reachable {
      assert merges[i] in merges;
    }
    FollowMeaning(merges, c, reachable);
  }

  /** One more merge redirects what ended at its source. */
  lemma {:induction false} FollowAppend(merges: seq<Merge>, m: Merge, c: int)
    ensures Follow(merges + [m], c) == if Follow(merges, c) == m.from then m.to else Follow(merges, c)
    decreases merges
  {
    var all := merges + [m];
    if merges == [] {
      assert all[1..] == [];
    } else {
      assert all[1..] == merges[1..] + [m];
      FollowAppend(merges[1..], m, if merges[0].from == c then merges[0].to else c);
    }
  }
}
