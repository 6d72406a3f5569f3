/** Sorting a finite set by a strict total order: the source's sorted() on sets and SQL's ORDER BY on keyed rows. */
module Ordering {

  ghost predicate StrictTotalOn<T(!new)>(s: set<T>, lt: (T, T) -> bool) {
    && (forall x | x in s :: !lt(x, x))
    && (forall x, y | x in s && y in s && x != y :: lt(x, y) || lt(y, x))
    && (forall x, y, z | x in s && y in s && z in s && lt(x, y) && lt(y, z) :: lt(x, z))
  }

  predicate IsLeast<T(==)>(m: T, s: set<T>, lt: (T, T) -> bool) {
    forall x | x in s :: x == m || lt(m, x)
  }

  ghost predicate Ascending<T>(xs: seq<T>, lt: (T, T) -> bool) {
    forall i, j | 0 <= i < j < |xs| :: lt(xs[i], xs[j])
  }

  ghost predicate Distinct<T>(xs: seq<T>) {
    forall i, j | 0 <= i < j < |xs| :: xs[i] != xs[j]
  }

  lemma Member<T>(s: set<T>) returns (x: T)
    requires s != {}
    ensures x in s
  {
    x :| x in s;
  }

  lemma {:induction false} LeastExists<T(!new)>(s: set<T>, lt: (T, T) -> bool) 
    requires s != {}
    requires StrictTotalOn(s, lt)
    ensures exists m :: m in s && IsLeast(m, s, lt)
  {
    var m :| m in s;
    var rest := s - {m};
    assert s == rest + {m};
    if rest == {} {
      assert IsLeast(m, s, lt);
    } else {
      LeastExists(rest, lt);
      var n :| n in rest && IsLeast(n, rest, lt);
      assert lt(n, m) ==> IsLeast(n, s, lt);
      assert !lt(n, m) ==> IsLeast(m, s, lt);
    }
  }

  /** The elements of s from least to greatest. */
  function Sorted<T(!new, ==)>(s: set<T>, lt: (T, T) -> bool): (xs: seq<T>)
    requires StrictTotalOn(s, lt)
    ensures forall x :: x in xs <==> x in s
    ensures Ascending(xs, lt)
    ensures |xs| == |s|
    decreases |s|
  {
    if s == {} then []
    else
      LeastExists(s, lt);
      var m :| m in s && IsLeast(m, s, lt);
      RestIsOrdered(s, m, lt);
      hide StrictTotalOn, IsLeast, Ascending;
      var rest := Sorted(s - {m}, lt);
      LeastFirst(s, m, rest, lt);
      [m] + rest
  }

  lemma RestIsOrdered<T(!new)>(s: set<T>, m: T, lt: (T, T) -> bool)
    requires StrictTotalOn(s, lt)
    ensures StrictTotalOn(s - {m}, lt)
  {
  }

  lemma LeastFirst<T(!new)>(s: set<T>, m: T, rest: seq<T>, lt: (T, T) -> bool)
    requires m in s && IsLeast(m, s, lt) && Ascending(rest, lt) && forall x :: x in rest <==> x in s - {m}
    ensures Ascending([m] + rest, lt) && forall x :: x in [m] + rest <==> x in s
  {
    var all := [m] + rest;
    forall i, j | 0 <= i < j < |all| ensures lt(all[i], all[j]) {
      assert all[j] in rest && all[j] == rest[j - 1];
    }
  }

  /** Two ascending listings of the same elements are equal, so sorting has one answer. */
  lemma {:induction false} AscendingUnique<T(!new)>(xs: seq<T>, ys: seq<T>, s: set<T>, lt: (T, T) -> bool)
    requires StrictTotalOn(s, lt)
    requires forall x :: x in xs <==> x in s
    requires forall x :: x in ys <==> x in s
    requires Ascending(xs, lt) && Ascending(ys, lt)
    ensures xs == ys
    decreases |xs|
  {
    assert ys != [] ==> ys[0] in xs;
    assert xs != [] ==> xs[0] in ys;
    if xs != [] {
      assert xs[0] == ys[0];
      var s' := s - {xs[0]};
      forall x ensures x in xs[1..] <==> x in s' {
        if x in s' { var i :| 0 <= i < |xs| && xs[i] == x; assert xs[1..][i - 1] == x; }
      }
      forall x ensures x in ys[1..] <==> x in s' {
        if x in s' { var i :| 0 <= i < |ys| && ys[i] == x; assert ys[1..][i - 1] == x; }
      }
      AscendingUnique(xs[1..], ys[1..], s', lt);
      assert xs == [xs[0]] + xs[1..] && ys == [ys[0]] + ys[1..];
    }
  }

  /** sorted() on a set of integers. */
  function SortedInts(s: set<int>): (xs: seq<int>)
    ensures forall x :: x in xs <==> x in s
    ensures forall i, j | 0 <= i < j < |xs| :: xs[i] < xs[j]
    ensures |xs| == |s|
  {
    Sorted(s, (x, y) => x < y)
  }
}
