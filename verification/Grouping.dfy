/** Grouping items by key in one pass over an insertion-ordered dictionary. */
module Grouping {
  import opened Wrappers
  import opened Ordering
  import opened Sequences

  /** keyOf rejects an item with None; make builds an entry; merge folds a later entry into an earlier one. */
  datatype Grouper<!P, K, !V> = Grouper(keyOf: P -> Option<K>, make: P -> V, merge: (V, V) -> V)

  /** The items with one key, in order. */
  function Group<P, K(==, !new), V>(g: Grouper<P, K, V>, items: seq<P>, k: K): (ps: seq<P>)
    ensures forall p | p in ps :: p in items && g.keyOf(p) == Some(k)
  {
    if items == [] then []
    else
      var front, last := items[..|items| - 1], items[|items| - 1];
      if g.keyOf(last) == Some(k) then Group(g, front, k) + [last] else Group(g, front, k)
  }

  /** The keys in order of first appearance. */
  function Keys<P, K(==, !new), V>(g: Grouper<P, K, V>, items: seq<P>): (ks: seq<K>)
    ensures Distinct(ks)
    ensures forall k :: k in ks <==> Group(g, items, k) != []
  {
    if items == [] then []
    else
      var front, last := items[..|items| - 1], items[|items| - 1];
      var ks := Keys(g, front);
      if g.keyOf(last).None? || g.keyOf(last).value in ks then ks else ks + [g.keyOf(last).value]
  }

  /** The entry a group folds to. */
  function Fold<P, K(!new), V>(g: Grouper<P, K, V>, ps: seq<P>): V
    requires ps != []
  {
    if |ps| == 1 then g.make(ps[0]) else g.merge(Fold(g, ps[..|ps| - 1]), g.make(ps[|ps| - 1]))
  }

  /** The dictionary after all items. */
  function Table<P, K(==, !new), V>(g: Grouper<P, K, V>, items: seq<P>): (t: map<K, V>)
    ensures forall k :: k in t <==> k in Keys(g, items)
  {
    map k | k in Keys(g, items) :: Fold(g, Group(g, items, k))
  }

  /** list(d.values()) of a dictionary with these keys, in insertion order. */
  function Entries<K, V>(t: map<K, V>, ks: seq<K>): (vs: seq<V>)
    requires forall k | k in ks :: k in t
    ensures |vs| == |ks| && forall i | 0 <= i < |vs| :: ks[i] in t && vs[i] == t[ks[i]]
  {
    if ks == [] then []
    else
      var front, last := ks[..|ks| - 1], ks[|ks| - 1];
      assert last in ks;
      assert forall k | k in front :: k in ks;
      Entries(t, front) + [t[last]]
  }

  function GroupBy<P, K(==, !new), V>(g: Grouper<P, K, V>, items: seq<P>): seq<V> {
    Entries(Table(g, items), Keys(g, items))
  }

  /** There are no more groups than items. */
  lemma {:induction false} GroupsAreFew<P, K(!new), V>(g: Grouper<P, K, V>, items: seq<P>)
    ensures |GroupBy(g, items)| == |Keys(g, items)| <= |items|
  {
    if items != [] { GroupsAreFew(g, items[..|items| - 1]); }
  }

  lemma GroupAppend<P, K(!new), V>(g: Grouper<P, K, V>, items: seq<P>, p: P, k: K)
    ensures Group(g, items + [p], k) == if g.keyOf(p) == Some(k) then Group(g, items, k) + [p] else Group(g, items, k)
  {
    assert (items + [p])[..|items|] == items;
  }

  lemma KeysAppend<P, K(!new), V>(g: Grouper<P, K, V>, items: seq<P>, p: P)
    ensures var k, ks := g.keyOf(p), Keys(g, items);
            Keys(g, items + [p]) == if k.None? || k.value in ks then ks else ks + [k.value]
  {
    assert (items + [p])[..|items|] == items;
  }

  lemma FoldAppend<P, K(!new), V>(g: Grouper<P, K, V>, ps: seq<P>, p: P)
    ensures Fold(g, ps + [p]) == if ps == [] then g.make(p) else g.merge(Fold(g, ps), g.make(p))
  {
    assert (ps + [p])[..|ps|] == ps;
  }

  /** What the table holds after one more item. */
  function Updated<P, K(==, !new), V>(g: Grouper<P, K, V>, t: map<K, V>, p: P): map<K, V> {
    if g.keyOf(p).None? then t
    else
      var k := g.keyOf(p).value;
      t[k := if k in t then g.merge(t[k], g.make(p)) else g.make(p)]
  }

  /** One pass of the loop: an item is rejected, opens a group, or is folded into its group. */
  lemma TableStep<P, K(!new), V>(g: Grouper<P, K, V>, items: seq<P>, p: P)
    ensures var k, ks, t := g.keyOf(p), Keys(g, items), Table(g, items);
            && Keys(g, items + [p]) == (if k.None? || k.value in t then ks else ks + [k.value])
            && Table(g, items + [p]) == Updated(g, t, p)
  {
    hide Group, Fold, Updated;
    KeysAppend(g, items, p);
    forall k ensures k in Table(g, items + [p]) <==> k in Updated(g, Table(g, items), p) {
      EntryStep(g, items, p, k);
    }
    forall k | k in Table(g, items + [p]) ensures Table(g, items + [p])[k] == Updated(g, Table(g, items), p)[k] {
      EntryStep(g, items, p, k);
    }
  }

  lemma EntryStep<P, K(!new), V>(g: Grouper<P, K, V>, items: seq<P>, p: P, k: K)
    ensures k in Table(g, items + [p]) <==> k in Updated(g, Table(g, items), p)
    ensures k in Table(g, items + [p]) ==> Table(g, items + [p])[k] == Updated(g, Table(g, items), p)[k]
  {
    hide Group, Keys, Fold;
    KeysAppend(g, items, p);
    GroupAppend(g, items, p, k);
    FoldAppend(g, Group(g, items, k), p);
  }

  /** Position of the first item with a key. */
  function First<P, K(==, !new), V>(g: Grouper<P, K, V>, items: seq<P>, k: K): (i: nat)
    requires Group(g, items, k) != []
    ensures i < |items| && g.keyOf(items[i]) == Some(k) && Group(g, items, k)[0] == items[i]
    ensures forall j | 0 <= j < i :: g.keyOf(items[j]) != Some(k)
  {
    var front, last := items[..|items| - 1], items[|items| - 1];
    if Group(g, front, k) != [] then First(g, front, k)
    else
      assert forall j | 0 <= j < |front| :: g.keyOf(front[j]) != Some(k) by { NoGroup(g, front, k); }
      |items| - 1
  }

  lemma {:induction false} NoGroup<P, K(!new), V>(g: Grouper<P, K, V>, items: seq<P>, k: K)
    ensures Group(g, items, k) == [] <==> forall j | 0 <= j < |items| :: g.keyOf(items[j]) != Some(k)
  {
    if items != [] {
      var front := items[..|items| - 1];
      NoGroup(g, front, k);
      assert forall j | 0 <= j < |front| :: front[j] == items[j];
    }
  }

  /** The keys really are in order of first appearance. */
  lemma {:induction false} KeysAreInOrder<P, K(!new), V>(g: Grouper<P, K, V>, items: seq<P>, i: nat, j: nat)
    requires i < j < |Keys(g, items)|
    ensures var ks := Keys(g, items);
            && Group(g, items, ks[i]) != [] && Group(g, items, ks[j]) != []
            && First(g, items, ks[i]) < First(g, items, ks[j])
  {
    var ks := Keys(g, items);
    assert ks[i] in ks && ks[j] in ks;
    var front := items[..|items| - 1];
    if j < |Keys(g, front)| {
      assert ks[i] == Keys(g, front)[i] && ks[j] == Keys(g, front)[j];
      KeysAreInOrder(g, front, i, j);
    } else {
      assert ks[i] == Keys(g, front)[i] && ks[i] in Keys(g, front);
      assert ks[j] !in Keys(g, front);
    }
  }

  /** When no two items share a key, every group is a single item and the result lists the made entries. */
  lemma {:induction false} GroupDistinct<P, K(!new), V>(g: Grouper<P, K, V>, items: seq<P>)
    requires forall i | 0 <= i < |items| :: g.keyOf(items[i]).Some?
    requires forall i, j | 0 <= i < j < |items| :: g.keyOf(items[i]) != g.keyOf(items[j])
    ensures |Keys(g, items)| == |items|
    ensures forall i | 0 <= i < |items| :: Some(Keys(g, items)[i]) == g.keyOf(items[i])
    ensures forall i | 0 <= i < |items| :: Group(g, items, Keys(g, items)[i]) == [items[i]]
  {
    if items != [] {
      var front, last := items[..|items| - 1], items[|items| - 1];
      assert items == front + [last];
      GroupDistinct(g, front);
      OneMoreDistinct(g, front, last);
    }
  }

  /** One more item with a key of its own. */
  lemma OneMoreDistinct<P, K(!new), V>(g: Grouper<P, K, V>, front: seq<P>, last: P)
    requires g.keyOf(last).Some? && forall i | 0 <= i < |front| :: g.keyOf(front[i]) != g.keyOf(last)
    requires |Keys(g, front)| == |front|
    requires forall i | 0 <= i < |front| :: Some(Keys(g, front)[i]) == g.keyOf(front[i])
    requires forall i | 0 <= i < |front| :: Group(g, front, Keys(g, front)[i]) == [front[i]]
    ensures var items := front + [last];
            && |Keys(g, items)| == |items|
            && (forall i | 0 <= i < |items| :: Some(Keys(g, items)[i]) == g.keyOf(items[i]))
            && (forall i | 0 <= i < |items| :: Group(g, items, Keys(g, items)[i]) == [items[i]])
  {
    hide Group, Keys;
    var k, items := g.keyOf(last).value, front + [last];
    NoGroup(g, front, k);
    KeysAppend(g, front, last);
    forall i | 0 <= i < |items| ensures Group(g, items, Keys(g, items)[i]) == [items[i]] {
      GroupAppend(g, front, last, Keys(g, items)[i]);
    }
  }

  /** So grouping already grouped entries gives them back. */
  lemma GroupByFixpoint<P, K(!new), V>(g: Grouper<P, K, V>, items: seq<P>, entries: seq<V>)
    requires |entries| == |items|
    requires forall i | 0 <= i < |items| :: g.keyOf(items[i]).Some? && g.make(items[i]) == entries[i]
    requires forall i, j | 0 <= i < j < |items| :: g.keyOf(items[i]) != g.keyOf(items[j])
    ensures GroupBy(g, items) == entries
  {
    GroupDistinct(g, items);
    hide Group;
    forall i | 0 <= i < |items| ensures GroupBy(g, items)[i] == entries[i] {
      assert Keys(g, items)[i] in Keys(g, items);
    }
  }

  /** r is the first of the values whose measure is greatest. */
  ghost predicate IsFirstMax<T(!new)>(xs: seq<T>, measure: T -> int, r: T) {
    exists i :: 0 <= i < |xs| && IsFirstMaxAt(xs, measure, r, i)
  }

  ghost predicate IsFirstMaxAt<T>(xs: seq<T>, measure: T -> int, r: T, i: nat) {
    && i < |xs| && r == xs[i]
    && (forall j | 0 <= j < i :: measure(xs[j]) < measure(r))
    && (forall j | i <= j < |xs| :: measure(xs[j]) <= measure(r))
  }

  lemma FirstMaxOne<T(!new)>(x: T, measure: T -> int)
    ensures IsFirstMax([x], measure, x)
  {
    assert IsFirstMaxAt([x], measure, x, 0);
  }

  lemma FirstMaxStep<T(!new)>(xs: seq<T>, x: T, measure: T -> int, r: T)
    requires IsFirstMax(xs, measure, r)
    ensures IsFirstMax(xs + [x], measure, if measure(x) > measure(r) then x else r)
  {
    var i :| 0 <= i < |xs| && IsFirstMaxAt(xs, measure, r, i);
    if measure(x) > measure(r) {
      forall j | 0 <= j < |xs| ensures measure(xs[j]) < measure(x) {
        assert j < i ==> measure(xs[j]) < measure(r);
      }
      assert IsFirstMaxAt(xs + [x], measure, x, |xs|);
    } else {
      assert IsFirstMaxAt(xs + [x], measure, r, i);
    }
  }
}
