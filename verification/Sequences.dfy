/** Ranges, and facts about concatenation that the verifier wants spelled out. */
module Sequences {

  lemma Regroup<T>(xs: seq<T>, y: T, zs: seq<T>)
    ensures xs + ([y] + zs) == (xs + [y]) + zs
  {
  }

  lemma Assoc<T>(xs: seq<T>, ys: seq<T>, zs: seq<T>)
    ensures xs + (ys + zs) == (xs + ys) + zs
  {
  }

  lemma Unit<T>(xs: seq<T>)
    ensures xs + [] == xs && [] + xs == xs
  {
  }

  /** The element at k splits a sequence. */
  lemma SplitAt<T>(xs: seq<T>, k: nat)
    requires k < |xs|
    ensures xs[k..] == [xs[k]] + xs[k + 1..]
    ensures xs[..k + 1] == xs[..k] + [xs[k]]
  {
  }

  lemma Whole<T>(xs: seq<T>)
    ensures xs[0..] == xs && xs[|xs|..] == []
  {
  }

  lemma Rest<T>(xs: seq<T>, first: nat, m: nat)
    requires first + m <= |xs|
    ensures xs[first..][..m] == xs[first..first + m] && xs[first..][m..] == xs[first + m..]
  {
  }

  /** range(n) */
  function Indices(n: nat): (ids: seq<nat>)
    ensures |ids| == n && forall i | 0 <= i < n :: ids[i] == i
  {
    if n == 0 then [] else Indices(n - 1) + [n - 1]
  }
}
