/** What stored text keeps of the text it comes from (domain/graph/types.py). */
module TextMeaning {
  import opened Wrappers
  import opened Sequences
  import opened Text

  ghost predicate AllSpaces(s: string) { forall i | 0 <= i < |s| :: IsSpace(s[i]) }

  ghost predicate NoSpaces(s: string) { forall i | 0 <= i < |s| :: !IsSpace(s[i]) }

  /** Stripping removes the whitespace at both ends and nothing else. */
  lemma StripMeaning(s: string)
    ensures exists i, j :: 0 <= i <= j <= |s| && Strip(s) == s[i..j] && AllSpaces(s[..i]) && AllSpaces(s[j..])
    ensures IsStripped(Strip(s))
  {
    StripFixes(s);
    var i, j := StripStart(s), StripEnd(s);
    assert Strip(s) == s[i..j] && AllSpaces(s[..i]) && AllSpaces(s[j..]);
  }

  /** Only one text can be what stripping leaves. */
  lemma StripUnique(a: string, t: string, b: string)
    requires IsStripped(t) && t != "" && AllSpaces(a) && AllSpaces(b)
    ensures Strip(a + t + b) == t
  {
    var s := a + t + b;
    assert s[|a|] == t[0] && s[|a| + |t| - 1] == t[|t| - 1];
    assert forall i | 0 <= i < |a| :: s[i] == a[i];
    assert forall i | |a| + |t| <= i < |s| :: s[i] == b[i - |a| - |t|];
    assert StripStart(s) == |a|;
    assert StripEnd(s) == |a| + |t|;
  }

  /** A bounded text is the stripped text if that fits; otherwise as much of its front as leaves room for the
      ellipsis, without whitespace at its end, and the ellipsis. */
  lemma TruncateMeaning(text: string, maxChars: int)
    requires maxChars >= 1
    ensures TruncateText(None, maxChars) == ""
    ensures |Strip(text)| <= maxChars ==> TruncateText(Some(text), maxChars) == Strip(text)
    ensures |Strip(text)| > maxChars ==>
              exists n :: && 0 <= n <= maxChars - 1 && TruncateText(Some(text), maxChars) == Strip(text)[..n] + "…"
                          && AllSpaces(Strip(text)[n..maxChars - 1]) && (n > 0 ==> !IsSpace(Strip(text)[n - 1]))
  {
    var bounded := Strip(text);
    if |bounded| > maxChars {
      var cut := bounded[..maxChars - 1];
      assert TakeSlice(bounded, maxChars - 1) == cut;
      var n := BackSpaces(cut, 0, |cut|);
      assert RStrip(cut) == cut[..n] == bounded[..n];
      hide Strip;
      assert forall k | n <= k < maxChars - 1 :: cut[k] == bounded[k];
      assert AllSpaces(bounded[n..maxChars - 1]);
    }
  }

  /** Without whitespace nothing collapses. */
  lemma {:induction false} CollapsePlain(s: string)
    requires NoSpaces(s)
    ensures CollapseSpaces(s) == s
  {
    if s != "" { CollapsePlain(s[1..]); }
  }

  /** A run of whitespace becomes one space, and what stands before and after it collapses by itself. */
  lemma {:induction false} CollapseRun(a: string, run: string, b: string)
    requires run != "" && AllSpaces(run) && (b != "" ==> !IsSpace(b[0])) && (a != "" ==> !IsSpace(a[|a| - 1]))
    ensures CollapseSpaces(a + run + b) == CollapseSpaces(a) + " " + CollapseSpaces(b)
    decreases |a|
  {
    hide CollapseSpaces, SkipSpaces, IsSpace, AllSpaces;
    if a == "" {
      NothingBefore(a, run, b);
    } else {
      var n := NextPart(a);
      LaterParts(a, run, b, n);
      CollapseRun(a[n..], run, b);
      PartFirst(a, n);
      PartFirst(a + run + b, n);
      Joined(First(a), CollapseSpaces(a[n..]), CollapseSpaces(b));
    }
  }

  lemma Joined(a: string, b: string, c: string)
    ensures a + (b + " " + c) == a + b + " " + c
  {
  }

  /** Where the text goes on after its first character or its first run of whitespace, and what that becomes. */
  function NextPart(s: string): (n: nat)
    requires s != ""
    ensures 0 < n <= |s|
  {
    if IsSpace(s[0]) then SkipSpaces(s, 1) else 1
  }

  function First(s: string): string
    requires s != ""
  {
    if IsSpace(s[0]) then " " else [s[0]]
  }

  lemma PartFirst(s: string, n: nat)
    requires s != "" && n == NextPart(s)
    ensures CollapseSpaces(s) == First(s) + CollapseSpaces(s[n..])
  {
  }

  lemma NothingBefore(a: string, run: string, b: string)
    requires a == "" && run != "" && AllSpaces(run) && (b != "" ==> !IsSpace(b[0]))
    ensures CollapseSpaces(a + run + b) == CollapseSpaces(a) + " " + CollapseSpaces(b)
  {
    var s := a + run + b;
    hide CollapseSpaces;
    assert s == run + b && forall k | 0 <= k < |run| :: s[k] == run[k];
    assert b != "" ==> s[|run|] == b[0];
    assert NextPart(s) == |run| && s[|run|..] == b && First(s) == " ";
    PartFirst(s, |run|);
    assert CollapseSpaces("") == "" by { CollapsePlain(""); }
  }

  lemma LaterParts(a: string, run: string, b: string, n: nat)
    requires a != "" && !IsSpace(a[|a| - 1]) && n == NextPart(a)
    ensures NextPart(a + run + b) == n && First(a + run + b) == First(a)
    ensures (a + run + b)[n..] == a[n..] + run + b
    ensures n < |a| ==> a[n..] != "" && a[n..][|a[n..]| - 1] == a[|a| - 1]
  {
    assert (a + run + b)[0] == a[0] && a + (run + b) == a + run + b;
    SkipsWithin(a, run + b, 1);
  }

  lemma {:induction false} SkipsWithin(a: string, b: string, i: nat)
    requires 0 < i <= |a| && !IsSpace(a[|a| - 1])
    ensures SkipSpaces(a + b, i) == SkipSpaces(a, i) < |a| || i == |a|
    decreases |a| - i
  {
    if i < |a| {
      assert (a + b)[i] == a[i];
      if IsSpace(a[i]) { SkipsWithin(a, b, i + 1); }
    }
  }

  // ---- keywords ----

  /** No earlier keyword has the same normal form, which is not blank. */
  ghost predicate IsFirstOfItsKind(names: Names, ks: seq<string>, i: nat)
    requires i < |ks|
  {
    names.Normalize(ks[i]) != "" && forall j | 0 <= j < i :: names.Normalize(ks[j]) != names.Normalize(ks[i])
  }

  /** The kept keywords are those at these positions, stripped. */
  ghost predicate AreKept(names: Names, ks: seq<string>, kept: seq<string>, at: seq<nat>) {
    && |at| == |kept|
    && (forall m | 0 <= m < |at| :: at[m] < |ks| && IsFirstOfItsKind(names, ks, at[m]) && kept[m] == Strip(ks[at[m]]))
    && (forall m, l | 0 <= m < l < |at| :: at[m] < at[l])
    && (forall i: nat | i < |ks| && IsFirstOfItsKind(names, ks, i) :: i in at)
  }

  /** Deduplication keeps the first keyword of every normal form, stripped, in the order they come. */
  lemma {:induction false} DedupeKeepsFirst(names: Names, ks: seq<string>) returns (at: seq<nat>)
    ensures AreKept(names, ks, names.Dedupe(ks), at)
  {
    at := [];
    if ks != [] {
      var n := |ks| - 1;
      var front, last := ks[..n], ks[n];
      var before := DedupeKeepsFirst(names, front);
      hide Names.Normalize, Strip;
      StillFirst(names, front, ks);
      at := before + if IsFirstOfItsKind(names, ks, n) then [n] else [];
      LastIsNew(names, front, last);
      KeepsOneMore(names, front, ks, names.Dedupe(front), names.Dedupe(ks), before, at);
    }
  }

  lemma StillFirst(names: Names, front: seq<string>, ks: seq<string>)
    requires ks != [] && front == ks[..|ks| - 1]
    ensures forall i: nat | i < |front| :: IsFirstOfItsKind(names, ks, i) <==> IsFirstOfItsKind(names, front, i)
  {
    hide Names.Normalize;
    assert forall i | 0 <= i < |front| :: front[i] == ks[i];
  }

  lemma LastIsNew(names: Names, front: seq<string>, last: string)
    ensures IsFirstOfItsKind(names, front + [last], |front|) <==>
            names.Normalize(last) != "" && names.Normalize(last) !in names.NormSet(front)
  {
    hide Names.Normalize;
    var ks := front + [last];
    assert ks[|front|] == last && forall i | 0 <= i < |front| :: ks[i] == front[i];
    if names.Normalize(last) in names.NormSet(front) {
      var k :| k in front && names.Normalize(k) == names.Normalize(last);
      var i :| 0 <= i < |front| && front[i] == k;
      assert names.Normalize(ks[i]) == names.Normalize(last);
    }
  }

  lemma KeepsOneMore(names: Names, front: seq<string>, ks: seq<string>, kept: seq<string>, now: seq<string>,
                     before: seq<nat>, at: seq<nat>)
    requires ks != [] && front == ks[..|ks| - 1] && AreKept(names, front, kept, before)
    requires forall i: nat | i < |front| :: IsFirstOfItsKind(names, ks, i) <==> IsFirstOfItsKind(names, front, i)
    requires var n := |front|;
             if IsFirstOfItsKind(names, ks, n) then at == before + [n] && now == kept + [Strip(ks[n])]
             else at == before && now == kept
    ensures AreKept(names, ks, now, at)
  {
    hide IsFirstOfItsKind, Strip;
    var n := |front|;
    assert forall i | 0 <= i < n :: front[i] == ks[i];
    forall i: nat | i < |ks| && IsFirstOfItsKind(names, ks, i) ensures i in at {
      if i < n { assert i in before; } else { assert at[|before|] == n; }
    }
  }
}
