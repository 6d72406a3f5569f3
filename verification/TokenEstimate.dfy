/** The word estimate that counts tokens when the model's tokenizer is missing (core/tokenization.py,
    count_text_tokens). */
module TokenEstimate {
  import opened Text
  import opened Tokenization

  /** int(len(text.split()) * 1.3) */
  function Estimate(text: string): nat { WordCount(text) * 13 / 10 }

  // ---- counting words ----

  /** Past its first character a suffix has the word starts of the whole. */
  lemma {:induction false} WordStartsInside(c: string, b: string, k: nat, i: nat)
    requires k <= |c| && c[k..] == b && 1 <= i <= |b|
    ensures |WordStartsFrom(c, k + i)| == |WordStartsFrom(b, i)|
    decreases |b| - i
  {
    hide IsSpace;
    if i < |b| {
      assert c[k + i] == b[i] && c[k + i - 1] == b[i - 1];
      WordStartsInside(c, b, k, i + 1);
    }
  }

  /** Whether joining two texts makes one word of the last and the first. */
  predicate Fuses(a: string, b: string) {
    a != "" && b != "" && !IsSpace(a[|a| - 1]) && !IsSpace(b[0])
  }

  lemma WordsJoined(a: string, b: string)
    ensures WordCount(a + b) == WordCount(a) + WordCount(b) - if Fuses(a, b) then 1 else 0
  {
    hide IsSpace;
    WordStartsPrefix(a + b, a, 0);
    if b != "" {
      assert (a + b)[|a|] == b[0] && (a != "" ==> (a + b)[|a| - 1] == a[|a| - 1]);
      WordStartsInside(a + b, b, |a|, 1);
      assert WordStartsFrom(b, 0) == (if IsSpace(b[0]) then [] else [0]) + WordStartsFrom(b, 1);
    }
  }

  /** The estimate never counts a longer prefix lower. */
  lemma EstimateIsMonotone()
    ensures IsMonotone(Estimate)
  {
    assert WordStarts("") == [];
    forall a: string, b: string | a <= b ensures Estimate(a) <= Estimate(b) {
      WordStartsPrefix(b, a, 0);
    }
  }

  // ---- when the budget holds ----

  /** A suffix that the estimate never counts higher once it is appended: it has no first blank, or its words come in
      tens. */
  predicate AppendsWell(suffix: string) {
    suffix == "" || !IsSpace(suffix[0]) || WordCount(suffix) % 10 == 0
  }

  lemma TokensJoined(x: nat, w: nat)
    ensures w >= 1 ==> (x + w - 1) * 13 / 10 <= x * 13 / 10 + w * 13 / 10
    ensures w % 10 == 0 ==> (x + w) * 13 / 10 == x * 13 / 10 + w * 13 / 10
    ensures w % 10 != 0 && x == 3 ==> (x + w) * 13 / 10 == x * 13 / 10 + w * 13 / 10 + 1
  {
    var p, q := x / 10, w / 10;
    var s, r := x - 10 * p, w - 10 * q;
    Tens(p, 13 * s);
    Tens(q, 13 * r);
    Tens(p + q, 13 * (s + r));
    Tens(p + q, 13 * (s + r - 1));
    UnitsJoined(s, r);
  }

  lemma Tens(q: int, n: int)
    ensures (130 * q + n) / 10 == 13 * q + n / 10
  {
  }

  lemma UnitsJoined(s: nat, r: nat)
    requires s < 10 && r < 10
    ensures 13 * (s + r - 1) / 10 <= 13 * s / 10 + 13 * r / 10
    ensures r == 0 ==> 13 * (s + r) / 10 == 13 * s / 10 + 13 * r / 10
    ensures r != 0 && s == 3 ==> 13 * (s + r) / 10 == 13 * s / 10 + 13 * r / 10 + 1
  {
  }

  /** With such a suffix the estimate keeps every budget, unless the suffix alone is too long. */
  lemma EstimateKeepsBudget(text: string, maxTokens: int, suffix: string, r: string)
    requires AppendsWell(suffix) && maxTokens >= 0 && IsTruncation(Estimate, text, maxTokens, suffix, r)
    ensures Estimate(r) <= maxTokens || SuffixOverruns(Estimate, text, maxTokens, suffix)
  {
    EstimateIsMonotone();
    hide Estimate, IsCutHere, CutText, AppendsWell;
    if IsCut(Estimate, text, maxTokens, suffix) {
      var lo: nat :| lo <= |text| && IsCutHere(Estimate, text, maxTokens, suffix, lo) && r == CutText(text, lo, suffix);
      CutKeepsBudget(text, maxTokens, suffix, lo);
    }
  }

  lemma CutKeepsBudget(text: string, maxTokens: int, suffix: string, lo: nat)
    requires AppendsWell(suffix) && IsCut(Estimate, text, maxTokens, suffix)
    requires lo <= |text| && IsCutHere(Estimate, text, maxTokens, suffix, lo)
    ensures Estimate(CutText(text, lo, suffix)) <= maxTokens
  {
    EstimateIsMonotone();
    var cut := text[..CutAt(text, lo)];
    var kept := RStrip(cut);
    assert IsTrimmed(kept) && kept <= cut;
    assert cut <= text[..lo] by { hide LastBlank, RStrip; }
    hide AppendsWell, Estimate, RStrip, CutAt, IsTrimmed, SearchRange;
    assert lo == 0 ==> text[..lo] == "";
    assert kept <= text[..lo];
    KeptFits(kept, suffix, maxTokens);
  }

  lemma KeptFits(kept: string, suffix: string, maxTokens: int)
    requires AppendsWell(suffix) && IsTrimmed(kept)
    requires Estimate(kept) + (if suffix != "" then Estimate(suffix) else 0) <= maxTokens
    ensures Estimate(kept + suffix) <= maxTokens
  {
    hide WordCount, IsSpace;
    WordsJoined(kept, suffix);
    TokensJoined(WordCount(kept), WordCount(suffix));
    if kept == "" { assert kept + suffix == suffix; }
    if suffix == "" { assert kept + suffix == kept; }
    if Fuses(kept, suffix) { FirstWord(suffix); }
  }

  lemma FirstWord(s: string)
    requires s != "" && !IsSpace(s[0])
    ensures WordCount(s) >= 1
  {
    assert IsWordStart(s, 0) && 0 in WordStarts(s);
  }

  predicate IsTrimmed(s: string) { s == "" || !IsSpace(s[|s| - 1]) }

  // ---- when it does not ----

  function Letters(n: nat): string { if n == 0 then "" else Letters(n - 1) + "a " }

  lemma {:induction false} LettersAre(n: nat)
    ensures |Letters(n)| == 2 * n && WordCount(Letters(n)) == n
    ensures n > 0 ==> Letters(n)[2 * n - 1] == ' ' && Letters(n)[2 * n - 2] == 'a'
  {
    if n == 0 {
      assert WordStarts("") == [];
    } else {
      LettersAre(n - 1);
      OneLetter();
      hide WordCount;
      WordsJoined(Letters(n - 1), "a ");
    }
  }

  lemma OneLetter()
    ensures WordCount("a ") == 1 && WordCount(" ") == 0
  {
    assert WordStartsFrom("a ", 2) == [] && WordStartsFrom("a ", 1) == [] && WordStartsFrom("a ", 0) == [0];
    assert WordStartsFrom(" ", 1) == [] && WordStartsFrom(" ", 0) == [];
  }

  lemma {:induction false} LettersBegin(m: nat, n: nat)
    requires m <= n
    ensures Letters(m) <= Letters(n)
  {
    if m < n { LettersBegin(m, n - 1); }
  }

  /** The first words of such a text, up to a blank or just before it. */
  lemma LettersCut(m: nat, text: string)
    requires m > 0 && Letters(m) <= text
    ensures |text| >= 2 * m && text[2 * m - 1] == ' ' && text[2 * m - 2] == 'a'
    ensures WordCount(text[..2 * m]) == m && WordCount(text[..2 * m - 1]) == m
  {
    LettersAre(m);
    OneLetter();
    hide WordCount, Letters;
    assert text[..2 * m] == Letters(m) == text[..2 * m - 1] + " ";
    WordsJoined(text[..2 * m - 1], " ");
  }

  lemma EndsThere(text: string, k: nat)
    requires 2 <= k <= |text| && text[k - 1] == ' ' && text[k - 2] == 'a'
    ensures CutAt(text, k) == k - 1 && RStrip(text[..k - 1]) == text[..k - 1]
  {
    assert text[..k][k - 1] == ' ';
  }

  /** Any other suffix overruns some budget by one. */
  lemma EstimateOverruns(suffix: string) returns (text: string, maxTokens: int, r: string)
    requires !AppendsWell(suffix)
    ensures maxTokens > 0 && IsTruncation(Estimate, text, maxTokens, suffix, r)
    ensures Estimate(r) == maxTokens + 1 && !SuffixOverruns(Estimate, text, maxTokens, suffix)
  {
    var w := WordCount(suffix);
    text, maxTokens := Letters(w + 10), 3 + Estimate(suffix);
    LettersAre(w + 10);
    LettersBegin(3, w + 10);
    LettersBegin(4, w + 10);
    LettersCut(3, text);
    r := text[..5] + suffix;
    hide WordCount, Letters;
    WordsJoined(text[..5], suffix);
    TokensJoined(3, w);
    CutAfterThree(text, maxTokens, suffix);
  }

  lemma CutAfterThree(text: string, maxTokens: int, suffix: string)
    requires |text| >= 20 && Letters(3) <= text && Letters(4) <= text && suffix != ""
    requires Estimate(text) > maxTokens == 3 + Estimate(suffix)
    ensures IsTruncation(Estimate, text, maxTokens, suffix, text[..5] + suffix)
  {
    LettersCut(3, text);
    LettersCut(4, text);
    EndsThere(text, 6);
    RangeReaches(|text|, Estimate(text));
    assert Estimate(text[..6]) == 3 && Estimate(text[..7]) == 5;
    hide Estimate, CutAt, RStrip, Letters;
    FourthOverruns(text);
    hide SearchRange;
    assert IsCutHere(Estimate, text, maxTokens, suffix, 6);
  }

  lemma RangeReaches(size: nat, total: nat)
    requires size >= 20 && total > 0
    ensures SearchRange(size, 3, total) >= 6
  {
  }

  /** A longer prefix than the three words does not fit three tokens. */
  lemma FourthOverruns(text: string)
    requires |text| >= 7 && Estimate(text[..7]) == 5
    ensures forall j | 6 < j <= |text| :: Estimate(text[..j]) > 3
  {
    EstimateIsMonotone();
    hide Estimate;
    forall j | 6 < j <= |text| ensures Estimate(text[..j]) > 3 {
      assert text[..7] <= text[..j];
    }
  }

  /** So with the estimate a suffix keeps every budget that it fits alone if and only if it appends well. */
  lemma EstimateBudget(suffix: string)
    ensures (forall text, maxTokens, r | maxTokens >= 0 && IsTruncation(Estimate, text, maxTokens, suffix, r) ::
               Estimate(r) <= maxTokens || SuffixOverruns(Estimate, text, maxTokens, suffix)) <==>
            AppendsWell(suffix)
  {
    hide IsTruncation, Estimate, AppendsWell, SuffixOverruns;
    if AppendsWell(suffix) {
      forall text, maxTokens, r | maxTokens >= 0 && IsTruncation(Estimate, text, maxTokens, suffix, r)
        ensures Estimate(r) <= maxTokens || SuffixOverruns(Estimate, text, maxTokens, suffix)
      {
        EstimateKeepsBudget(text, maxTokens, suffix, r);
      }
    } else {
      var text, maxTokens, r := EstimateOverruns(suffix);
    }
  }
}
