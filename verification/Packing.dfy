/** In-order greedy packing under a size limit, shared by the graph windows and the disambiguation sub-batches. */
module Packing {
  import opened Wrappers

  /** A group costs overhead plus its items' weights, may cost at most cap, and may hold at most maxItems items. */
  datatype Limits = Limits(overhead: int, cap: int, maxItems: Option<int>)

  function Sum<T>(w: T -> nat, items: seq<T>): nat {
    if items == [] then 0 else Sum(w, items[..|items| - 1]) + w(items[|items| - 1])
  }

  /** A lone item is always accepted; a larger group must respect the limits. */
  predicate Fits<T>(w: T -> nat, lim: Limits, group: seq<T>) {
    || |group| == 1
    || (group != [] && lim.overhead + Sum(w, group) <= lim.cap &&
        (lim.maxItems.Some? ==> |group| <= lim.maxItems.value))
  }

  function Flatten<T>(groups: seq<seq<T>>): seq<T> {
    if groups == [] then [] else groups[0] + Flatten(groups[1..])
  }

  /** The groups list all items in order, and every group is acceptable. */
  ghost predicate IsPacking<T>(w: T -> nat, lim: Limits, items: seq<T>, groups: seq<seq<T>>) {
    Flatten(groups) == items && forall i | 0 <= i < |groups| :: Fits(w, lim, groups[i])
  }

  /** What the packing loop makes of the remaining items when current is the open group. */
  function Greedy<T>(w: T -> nat, lim: Limits, current: seq<T>, rest: seq<T>): seq<seq<T>>
    decreases rest
  {
    if rest == [] then (if current == [] then [] else [current])
    else if current == [] || Fits(w, lim, current + [rest[0]]) then Greedy(w, lim, current + [rest[0]], rest[1..])
    else [current] + Greedy(w, lim, [rest[0]], rest[1..])
  }

  /** One step of the loop: the next item is taken, or the open group is closed and the item opens a new one. */
  lemma GreedyStep<T>(w: T -> nat, lim: Limits, current: seq<T>, x: T, rest: seq<T>)
    ensures Greedy(w, lim, current, [x] + rest) ==
            if current == [] || Fits(w, lim, current + [x]) then Greedy(w, lim, current + [x], rest)
            else [current] + Greedy(w, lim, [x], rest)
    ensures current != [] ==>
              (Fits(w, lim, current + [x]) <==>
               lim.overhead + Sum(w, current) + w(x) <= lim.cap &&
                 (lim.maxItems.Some? ==> |current| < lim.maxItems.value))
  {
    assert ([x] + rest)[1..] == rest;
    assert (current + [x])[..|current|] == current;
  }

  lemma GreedyEnd<T>(w: T -> nat, lim: Limits, current: seq<T>)
    ensures Greedy(w, lim, current, []) == if current == [] then [] else [current]
  {
  }

  lemma SumAppendOne<T>(w: T -> nat, items: seq<T>, x: T)
    ensures Sum(w, items + [x]) == Sum(w, items) + w(x)
    ensures items == [] ==> Sum(w, items) == 0
  {
    assert (items + [x])[..|items|] == items;
  }

  lemma {:induction false} SumAppend<T>(w: T -> nat, a: seq<T>, b: seq<T>)
    ensures Sum(w, a + b) == Sum(w, a) + Sum(w, b)
  {
    if b == [] {
      assert a + b == a;
    } else {
      var front, x := b[..|b| - 1], b[|b| - 1];
      SumAppend(w, a, front);
      assert (a + b)[..|a + b| - 1] == a + front;
    }
  }

  /** Every contiguous non-empty part of an acceptable group is acceptable. */
  lemma FitsPart<T>(w: T -> nat, lim: Limits, a: seq<T>, b: seq<T>, c: seq<T>)
    requires Fits(w, lim, a + b + c) && b != []
    ensures Fits(w, lim, b)
  {
    SumAppend(w, a + b, c);
    SumAppend(w, a, b);
  }

  lemma {:induction false} GreedyIsPacking<T>(w: T -> nat, lim: Limits, current: seq<T>, rest: seq<T>)
    requires current == [] || Fits(w, lim, current)
    ensures IsPacking(w, lim, current + rest, Greedy(w, lim, current, rest))
    decreases rest
  {
    if rest == [] {
      assert current + rest == current;
      if current != [] { assert [current][1..] == []; assert Flatten([current]) == current + []; }
    } else {
      var x := rest[0];
      assert rest == [x] + rest[1..];
      if current == [] || Fits(w, lim, current + [x]) {
        GreedyIsPacking(w, lim, current + [x], rest[1..]);
        assert current + rest == (current + [x]) + rest[1..];
      } else {
        GreedyIsPacking(w, lim, [x], rest[1..]);
        var tail := Greedy(w, lim, [x], rest[1..]);
        assert ([current] + tail)[1..] == tail;
      }
    }
  }

  /** Dropping leading items from a packing leaves a packing with no more groups. */
  lemma {:induction false} DropItems<T>(w: T -> nat, lim: Limits, items: seq<T>, groups: seq<seq<T>>, k: nat)
    returns (fewer: seq<seq<T>>)
    requires IsPacking(w, lim, items, groups) && k <= |items|
    ensures IsPacking(w, lim, items[k..], fewer) && |fewer| <= |groups|
    decreases |groups|
  {
    if groups == [] || k == 0 {
      fewer := groups;
      assert items[k..] == items;
    } else {
      var g, rest := groups[0], groups[1..];
      assert items == g + Flatten(rest);
      assert IsPacking(w, lim, Flatten(rest), rest);
      if k >= |g| {
        fewer := DropItems(w, lim, Flatten(rest), rest, k - |g|);
        assert items[k..] == Flatten(rest)[k - |g|..];
      } else {
        assert g[..k] + g[k..] + [] == g;
        FitsPart(w, lim, g[..k], g[k..], []);
        fewer := [g[k..]] + rest;
        assert fewer[1..] == rest;
        assert items[k..] == g[k..] + Flatten(rest);
      }
    }
  }

  /** With an open group that cannot take the next item, any packing's first group is no longer than it. */
  lemma FirstGroupNoLonger<T>(w: T -> nat, lim: Limits, current: seq<T>, x: T, rest: seq<T>, groups: seq<seq<T>>)
    requires current != [] && !Fits(w, lim, current + [x])
    requires IsPacking(w, lim, current + [x] + rest, groups)
    ensures groups != [] && |groups[0]| <= |current|
  {
    var g := groups[0];
    if |g| > |current| {
      var n := |current| + 1;
      var all := current + [x] + rest;
      assert g == all[..|g|];
      assert g[..n] == current + [x];
      assert [] + g[..n] + g[n..] == g;
      FitsPart(w, lim, [], g[..n], g[n..]);
      assert false;
    }
  }

  /** Greedy packing is optimal: no in-order packing of the same items has fewer groups. */
  lemma {:induction false} GreedyIsOptimal<T>(w: T -> nat, lim: Limits, current: seq<T>, rest: seq<T>,
                                              groups: seq<seq<T>>)
    requires current == [] || Fits(w, lim, current)
    requires IsPacking(w, lim, current + rest, groups)
    ensures |Greedy(w, lim, current, rest)| <= |groups|
    decreases rest
  {
    if rest == [] {
      assert current + rest == current;
    } else {
      var x := rest[0];
      assert rest == [x] + rest[1..];
      assert current + rest == (current + [x]) + rest[1..];
      if current == [] || Fits(w, lim, current + [x]) {
        GreedyIsOptimal(w, lim, current + [x], rest[1..], groups);
      } else {
        FirstGroupNoLonger(w, lim, current, x, rest[1..], groups);
        var g := groups[0];
        assert IsPacking(w, lim, Flatten(groups[1..]), groups[1..]);
        var k := |current| - |g|;
        var fewer := DropItems(w, lim, Flatten(groups[1..]), groups[1..], k);
        var all := current + rest;
        assert Flatten(groups[1..]) == all[|g|..];
        assert all[|g|..][k..] == all[|current|..] == rest;
        GreedyIsOptimal(w, lim, [x], rest[1..], fewer);
      }
    }
  }

  /** The loop closes the open group before an item it cannot take, so two neighbouring groups never fit together
      with only the next item: the group just closed could not have taken the first item of the one after it. */
  lemma {:induction false} GreedyIsMaximal<T>(w: T -> nat, lim: Limits, current: seq<T>, rest: seq<T>, i: nat)
    requires i + 1 < |Greedy(w, lim, current, rest)|
    ensures var groups := Greedy(w, lim, current, rest);
            groups[i + 1] != [] && !Fits(w, lim, groups[i] + [groups[i + 1][0]])
    decreases rest
  {
    var x := rest[0];
    if current == [] || Fits(w, lim, current + [x]) {
      GreedyIsMaximal(w, lim, current + [x], rest[1..], i);
    } else {
      GreedyStart(w, lim, [x], rest[1..]);
      if i > 0 { GreedyIsMaximal(w, lim, [x], rest[1..], i - 1); }
    }
  }

  lemma {:induction false} GreedyStart<T>(w: T -> nat, lim: Limits, current: seq<T>, rest: seq<T>)
    requires current != []
    ensures Greedy(w, lim, current, rest) != [] && current <= Greedy(w, lim, current, rest)[0]
    decreases rest
  {
    if rest != [] && Fits(w, lim, current + [rest[0]]) {
      GreedyStart(w, lim, current + [rest[0]], rest[1..]);
    }
  }
}
