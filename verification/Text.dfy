/** String handling shared by the chunker, the graph windows and extraction. */
module Text {
  import opened Sequences
  import opened Wrappers

  /** The code points for which Python's str.isspace (and the regular expression \s) is true. */
  predicate IsSpace(c: char) {
    var n := c as int;
    0x09 <= n <= 0x0D || 0x1C <= n <= 0x20 || n == 0x85 || n == 0xA0 || n == 0x1680
    || 0x2000 <= n <= 0x200A || n == 0x2028 || n == 0x2029 || n == 0x202F || n == 0x205F || n == 0x3000
  }

  /** First position at or after i that holds no whitespace. */
  function SkipSpaces(s: string, i: nat): (j: nat)
    requires i <= |s|
    ensures i <= j <= |s|
    ensures forall k | i <= k < j :: IsSpace(s[k])
    ensures j < |s| ==> !IsSpace(s[j])
    decreases |s| - i
  {
    if i < |s| && IsSpace(s[i]) then SkipSpaces(s, i + 1) else i
  }

  /** Last position j in lo..hi with no whitespace just before it. */
  function BackSpaces(s: string, lo: nat, hi: nat): (j: nat)
    requires lo <= hi <= |s|
    ensures lo <= j <= hi
    ensures forall k | j <= k < hi :: IsSpace(s[k])
    ensures lo < j ==> !IsSpace(s[j - 1])
  {
    if lo < hi && IsSpace(s[hi - 1]) then BackSpaces(s, lo, hi - 1) else hi
  }

  function StripStart(s: string): nat { SkipSpaces(s, 0) }

  function StripEnd(s: string): (e: nat)
    ensures StripStart(s) <= e <= |s|
  {
    BackSpaces(s, StripStart(s), |s|)
  }

  /** str.strip() */
  function Strip(s: string): string { s[StripStart(s)..StripEnd(s)] }

  /** str.rstrip() */
  function RStrip(s: string): string { s[..BackSpaces(s, 0, |s|)] }

  predicate IsStripped(s: string) {
    s == "" || (!IsSpace(s[0]) && !IsSpace(s[|s| - 1]))
  }

  /** strip() yields a string with no outer whitespace, is empty only on blank input, and fixes stripped strings. */
  lemma StripLaws(s: string)
    ensures IsStripped(Strip(s))
    ensures IsStripped(s) ==> Strip(s) == s
    ensures Strip(Strip(s)) == Strip(s)
    ensures Strip(s) == "" <==> forall i | 0 <= i < |s| :: IsSpace(s[i])
  {
    StripFixes(s);
    StripFixes(Strip(s));
  }

  lemma StripFixes(s: string)
    ensures IsStripped(Strip(s))
    ensures IsStripped(s) ==> Strip(s) == s
  {
    if IsStripped(s) && s != "" {
      assert StripStart(s) == 0;
      assert StripEnd(s) == |s|;
    }
  }

  lemma StripIdempotent(s: string)
    ensures Strip(Strip(s)) == Strip(s)
  {
    StripLaws(s);
  }

  /** Every run of whitespace becomes one space. */
  function CollapseSpaces(s: string): string
    decreases |s|
  {
    if s == "" then ""
    else if IsSpace(s[0]) then " " + CollapseSpaces(s[SkipSpaces(s, 1)..])
    else [s[0]] + CollapseSpaces(s[1..])
  }

  // ---- words ----

  predicate IsWordStart(s: string, p: nat) {
    p < |s| && !IsSpace(s[p]) && (p == 0 || IsSpace(s[p - 1]))
  }

  /** Start offsets of the maximal whitespace-free runs at or after i. */
  function WordStartsFrom(s: string, i: nat): (ps: seq<nat>)
    requires i <= |s|
    ensures forall p :: p in ps <==> i <= p && IsWordStart(s, p)
    ensures forall j, k | 0 <= j < k < |ps| :: ps[j] < ps[k]
    decreases |s| - i
  {
    if i == |s| then []
    else
      var rest := WordStartsFrom(s, i + 1);
      assert forall k | 0 <= k < |rest| :: rest[k] in rest;
      if IsWordStart(s, i) then [i] + rest else rest
  }

  function WordStarts(s: string): (ps: seq<nat>)
    ensures forall p :: p in ps <==> IsWordStart(s, p)
    ensures forall j, k | 0 <= j < k < |ps| :: ps[j] < ps[k]
  {
    WordStartsFrom(s, 0)
  }

  /** len(s.split()) */
  function WordCount(s: string): nat { |WordStarts(s)| }

  /** Word starts of a suffix that begins a fresh word are the shifted word starts of the whole. */
  lemma {:induction false} WordStartsShift(c: string, b: string, k: nat, i: nat)
    requires k <= |c| && c[k..] == b && i <= |b|
    requires k == 0 || IsSpace(c[k - 1])
    ensures |WordStartsFrom(c, k + i)| == |WordStartsFrom(b, i)|
    decreases |b| - i
  {
    hide IsSpace;
    if i < |b| {
      assert c[k + i] == b[i];
      assert i > 0 ==> c[k + i - 1] == b[i - 1];
      WordStartsShift(c, b, k, i + 1);
    }
  }

  /** Words that start inside a prefix are the prefix's own words. */
  lemma {:induction false} WordStartsPrefix(c: string, a: string, i: nat)
    requires a <= c && i <= |a|
    ensures |WordStartsFrom(c, i)| == |WordStartsFrom(a, i)| + |WordStartsFrom(c, |a|)|
    decreases |a| - i
  {
    hide IsSpace;
    if i < |a| {
      WordStartsPrefix(c, a, i + 1);
    }
  }

  /** Joining two texts with a blank line neither splits nor merges words. */
  lemma WordCountJoin(a: string, b: string)
    ensures WordCount(a + "\n\n" + b) == WordCount(a) + WordCount(b)
  {
    var c := a + "\n\n" + b;
    assert a <= c;
    WordStartsPrefix(c, a, 0);
    assert IsSpace(c[|a|]) && IsSpace(c[|a| + 1]);
    assert WordStartsFrom(c, |a|) == WordStartsFrom(c, |a| + 1) == WordStartsFrom(c, |a| + 2);
    WordStartsShift(c, b, |a| + 2, 0);
  }

  // ---- bounded text ----

  /** s[:k] for any integer k, negative counts from the end. */
  function TakeSlice(s: string, k: int): string {
    if k >= |s| then s
    else if k >= 0 then s[..k]
    else if |s| + k >= 0 then s[..|s| + k]
    else ""
  }

  /** The stored form of an optional text: stripped, and cut with an ellipsis past maxChars. */
  function TruncateText(value: Option<string>, maxChars: int): string {
    if value == None || value.value == "" then ""
    else
      var bounded := Strip(value.value);
      if |bounded| <= maxChars then bounded
      else RStrip(TakeSlice(bounded, maxChars - 1)) + "…"
  }

  /** The cut form: a stripped text shortened to fit, ending in the ellipsis. */
  lemma CutLaws(bounded: string, maxChars: int)
    requires maxChars >= 1 && |bounded| > maxChars && IsStripped(bounded)
    ensures var r := RStrip(TakeSlice(bounded, maxChars - 1)) + "…"; 1 <= |r| <= maxChars && IsStripped(r)
  {
    var cut := RStrip(TakeSlice(bounded, maxChars - 1));
    assert cut <= bounded;
    assert !IsSpace('…');
  }

  /** For a positive bound the result respects it, has no outer whitespace and truncating again changes nothing. */
  lemma TruncateTextLaws(value: Option<string>, maxChars: int)
    requires maxChars >= 1
    ensures |TruncateText(value, maxChars)| <= maxChars
    ensures IsStripped(TruncateText(value, maxChars))
    ensures TruncateText(Some(TruncateText(value, maxChars)), maxChars) == TruncateText(value, maxChars)
  {
    if value.Some? && value.value != "" {
      var bounded := Strip(value.value);
      StripFixes(value.value);
      if |bounded| > maxChars {
        CutLaws(bounded, maxChars);
      }
      var r := TruncateText(value, maxChars);
      StripFixes(r);
    }
  }

  /** The longer of two texts, the earlier one on a tie. */
  function Longer(existing: string, candidate: string): string {
    if |candidate| > |existing| then candidate else existing
  }

  // ---- normalized names ----

  /** The names of a workspace, compared under one case-folding function. */
  datatype Names = Names(casefold: string -> string) {

    function Normalize(s: string): string { CollapseSpaces(casefold(Strip(s))) }

    lemma NormalizeStrip(s: string)
      ensures Normalize(Strip(s)) == Normalize(s)
    {
      StripLaws(s);
    }

    function NormSet(ks: seq<string>): set<string> { set k | k in ks :: Normalize(k) }

    lemma NormSetAppend(ks: seq<string>, k: string)
      ensures NormSet(ks + [k]) == NormSet(ks) + {Normalize(k)}
    {
      assert k in ks + [k];
      forall n | n in NormSet(ks) + {Normalize(k)} ensures n in NormSet(ks + [k]) {
        if n in NormSet(ks) { var x :| x in ks && Normalize(x) == n; assert x in ks + [k]; }
      }
    }

    /** A keyword is kept, stripped, when its normal form is non-empty and new. */
    function Dedupe(ks: seq<string>): seq<string> {
      if ks == [] then []
      else
        var front, k := ks[..|ks| - 1], ks[|ks| - 1];
        if Normalize(k) == "" || Normalize(k) in NormSet(front) then Dedupe(front)
        else Dedupe(front) + [Strip(k)]
    }

    ghost predicate IsDeduped(ks: seq<string>) {
      && (forall k | k in ks :: IsStripped(k) && Normalize(k) != "")
      && (forall i, j | 0 <= i < j < |ks| :: Normalize(ks[i]) != Normalize(ks[j]))
    }

    lemma {:induction false} DedupeNormSet(ks: seq<string>)
      ensures NormSet(Dedupe(ks)) == NormSet(ks) - {""}
    {
      if ks != [] {
        var front, k := ks[..|ks| - 1], ks[|ks| - 1];
        DedupeNormSet(front);
        assert ks == front + [k];
        NormSetAppend(front, k);
        NormSetAppend(Dedupe(front), Strip(k));
        NormalizeStrip(k);
      }
    }

    lemma IsDedupedAppend(d: seq<string>, k: string)
      requires IsDeduped(d) && IsStripped(k)
      requires Normalize(k) != "" && Normalize(k) !in NormSet(d)
      ensures IsDeduped(d + [k])
    {
      var e := d + [k];
      forall i, j | 0 <= i < j < |e| ensures Normalize(e[i]) != Normalize(e[j]) {
        assert e[i] in d;
        if j == |d| { assert Normalize(e[i]) in NormSet(d); }
      }
    }

    /** Deduplication loses no non-empty normal form and repeats none. */
    lemma {:induction false} DedupeMeaning(ks: seq<string>)
      ensures NormSet(Dedupe(ks)) == NormSet(ks) - {""}
      ensures IsDeduped(Dedupe(ks))
    {
      DedupeNormSet(ks);
      if ks != [] {
        var front, k := ks[..|ks| - 1], ks[|ks| - 1];
        DedupeMeaning(front);
        if Normalize(k) != "" && Normalize(k) !in NormSet(front) {
          NormalizeStrip(k);
          StripFixes(k);
          IsDedupedAppend(Dedupe(front), Strip(k));
        }
      }
    }

    /** A list that is already deduplicated is returned unchanged. */
    lemma {:induction false} DedupeFixpoint(ks: seq<string>)
      requires IsDeduped(ks)
      ensures Dedupe(ks) == ks
    {
      if ks != [] {
        var front, k := ks[..|ks| - 1], ks[|ks| - 1];
        assert ks == front + [k];
        DedupeFixpoint(front);
        StripLaws(k);
        assert k in ks;
      }
    }

    ghost predicate IsNew(k: string, ks: seq<string>) {
      Normalize(k) != "" && Normalize(k) !in NormSet(ks)
    }

    lemma DedupeAppend(ks: seq<string>, k: string)
      ensures Dedupe(ks + [k]) == if IsNew(k, ks) then Dedupe(ks) + [Strip(k)] else Dedupe(ks)
    {
      assert (ks + [k])[..|ks|] == ks;
    }

    lemma IsNewInParts(a: seq<string>, b: seq<string>, k: string)
      ensures IsNew(k, a + b) <==> IsNew(k, a) && IsNew(k, b)
      ensures IsNew(Strip(k), Dedupe(a) + Dedupe(b)) <==> IsNew(k, a + b)
    {
      NormSetConcat(a, b);
      DedupePartsNormSet(a, b);
      NormalizeStrip(k);
    }

    lemma DedupePartsNormSet(a: seq<string>, b: seq<string>)
      ensures NormSet(Dedupe(a) + Dedupe(b)) == NormSet(a + b) - {""}
    {
      NormSetConcat(a, b);
      NormSetConcat(Dedupe(a), Dedupe(b));
      DedupeNormSet(a);
      DedupeNormSet(b);
    }

    /** Deduplicating the parts first changes nothing: keywords may be merged in any grouping. */
    lemma {:induction false} DedupeConcat(a: seq<string>, b: seq<string>)
      ensures Dedupe(Dedupe(a) + Dedupe(b)) == Dedupe(a + b)
    {
      hide IsSpace, Strip, IsStripped;
      if b == [] {
        assert a + b == a;
        assert Dedupe(a) + Dedupe(b) == Dedupe(a);
        DedupeMeaning(a);
        hide Dedupe;
        DedupeFixpoint(Dedupe(a));
      } else {
        hide Dedupe;
        var front, k := b[..|b| - 1], b[|b| - 1];
        DedupeConcat(a, front);
        assert b == front + [k];
        DedupeConcatStep(a, front, k);
      }
    }

    lemma DedupeConcatStep(a: seq<string>, front: seq<string>, k: string)
      requires Dedupe(Dedupe(a) + Dedupe(front)) == Dedupe(a + front)
      ensures Dedupe(Dedupe(a) + Dedupe(front + [k])) == Dedupe(a + (front + [k]))
    {
      var parts := Dedupe(a) + Dedupe(front);
      var k' := Strip(k);
      IsNewInParts(a, front, k);
      StripIdempotent(k);
      calc {
        Dedupe(a + (front + [k]));
        { Assoc(a, front, [k]); }
        Dedupe((a + front) + [k]);
        { DedupeAppend(a + front, k); }
        if IsNew(k, a + front) then Dedupe(parts) + [k'] else Dedupe(parts);
        { DedupeAppend(parts, k'); }
        if IsNew(k, front) then Dedupe(parts + [k']) else Dedupe(parts);
        { DedupeAppend(front, k); Assoc(Dedupe(a), Dedupe(front), [k']); }
        Dedupe(Dedupe(a) + Dedupe(front + [k]));
      }
    }

    lemma NormSetConcat(a: seq<string>, b: seq<string>)
      ensures NormSet(a + b) == NormSet(a) + NormSet(b)
    {
      forall n ensures n in NormSet(a + b) <==> n in NormSet(a) + NormSet(b) {
        if n in NormSet(a) { var x :| x in a && Normalize(x) == n; assert x in a + b; }
        if n in NormSet(b) { var x :| x in b && Normalize(x) == n; assert x in a + b; }
      }
    }

    /** One more keyword in the pass. */
    lemma DedupePass(front: seq<string>, k: string, seen: set<string>)
      requires seen == NormSet(front) - {""}
      ensures var skip := Normalize(k) == "" || Normalize(k) in seen;
              && Dedupe(front + [k]) == (if skip then Dedupe(front) else Dedupe(front) + [Strip(k)])
              && NormSet(front + [k]) - {""} == if skip then seen else seen + {Normalize(k)}
    {
      hide Dedupe, Normalize, Strip;
      NormSetAppend(front, k);
      DedupeAppend(front, k);
    }

    /** dedupe_keywords: one pass with the set of normal forms already seen. */
    method DedupeKeywords(keywords: seq<string>) returns (deduped: seq<string>)
      ensures deduped == Dedupe(keywords)
      ensures IsDeduped(deduped) && NormSet(deduped) == NormSet(keywords) - {""}
    {
      deduped := [];
      var seen: set<string> := {};
      assert Dedupe([]) == [] && NormSet([]) == {};
      hide Dedupe, Normalize, Strip, IsDeduped, NormSet;
      for i := 0 to |keywords|
        invariant deduped == Dedupe(keywords[..i])
        invariant seen == NormSet(keywords[..i]) - {""}
      {
        SplitAt(keywords, i);
        DedupePass(keywords[..i], keywords[i], seen);
        var normalized := Normalize(keywords[i]);
        if normalized == "" || normalized in seen {
          continue;
        }
        seen := seen + {normalized};
        deduped := deduped + [Strip(keywords[i])];
      }
      assert keywords[..|keywords|] == keywords;
      DedupeMeaning(keywords);
    }
  }
}
