/** Cutting text to a token budget by binary search over a token counter (core/tokenization.py, truncate_to_tokens). */
module Tokenization {
  import opened Text

  /** How many tokens a model makes of a text. */
  type Counter = string -> nat

  /** A counter that never counts a longer prefix lower, and counts nothing for nothing. */
  ghost predicate IsMonotone(count: Counter) {
    count("") == 0 && forall a, b | a <= b :: count(a) <= count(b)
  }

  /** One that does not charge for joining either. */
  ghost predicate IsRegular(count: Counter) {
    IsMonotone(count) && forall a, b :: count(a + b) <= count(a) + count(b)
  }

  /** k is the longest prefix length within the range whose tokens fit, or 0. */
  ghost predicate IsLongestFit(count: Counter, text: string, target: int, range: nat, k: nat)
    requires range <= |text|
  {
    && k <= range && (k == 0 || count(text[..k]) <= target)
    && forall j | k < j <= range :: count(text[..j]) > target
  }

  /** For any counter the search ends at a prefix that fits and whose one-longer neighbour in the range does not; for a
      counter monotone on prefixes that is the longest fit in the range. */
  method SearchPrefix(count: Counter, text: string, target: int, range: nat) returns (lo: nat)
    requires range <= |text|
    ensures lo <= range && (lo == 0 || count(text[..lo]) <= target)
    ensures lo == range || count(text[..lo + 1]) > target
    ensures (forall a, b | a <= b :: count(a) <= count(b)) ==> IsLongestFit(count, text, target, range, lo)
  {
    lo := 0;
    var hi := range;
    while lo < hi
      invariant lo <= hi <= range
      invariant lo == 0 || count(text[..lo]) <= target
      invariant hi == range || count(text[..hi + 1]) > target
    {
      var mid := (lo + hi + 1) / 2;
      if count(text[..mid]) <= target {
        lo := mid;
      } else {
        hi := mid - 1;
      }
    }
    if forall a, b | a <= b :: count(a) <= count(b) {
      forall j | lo < j <= range ensures count(text[..j]) > target {
        assert text[..lo + 1] <= text[..j];
      }
    }
  }

  /** str.rfind(" "), -1 when there is none. */
  function LastBlank(s: string): (p: int)
    ensures -1 <= p < |s|
    ensures p >= 0 ==> s[p] == ' '
    ensures forall j | p < j < |s| :: s[j] != ' '
  {
    if s == "" then -1 else if s[|s| - 1] == ' ' then |s| - 1 else LastBlank(s[..|s| - 1])
  }

  /** Where the text is cut once the prefix length is known: at its last blank, unless that is none or the very
      first. */
  function CutAt(text: string, lo: nat): (pos: nat)
    requires lo <= |text|
    ensures pos <= lo
    ensures pos < lo ==> pos > 0 && text[pos] == ' '
  {
    var p := LastBlank(text[..lo]);
    if p <= 0 then lo else p
  }

  /** The range searched: half as much again as the proportional estimate, and at least 64 characters more. */
  function SearchRange(size: nat, target: nat, total: nat): (range: nat)
    requires total > 0
    ensures range <= size
  {
    var estimate := size * target / total;
    var more := if estimate / 2 >= 64 then estimate / 2 else 64;
    if estimate + more <= size then estimate + more else size
  }

  function TargetOf(count: Counter, maxTokens: int, suffix: string): int {
    maxTokens - if suffix != "" then count(suffix) else 0
  }

  /** The text needs cutting and the suffix leaves room for some of it. */
  predicate IsCut(count: Counter, text: string, maxTokens: int, suffix: string) {
    maxTokens > 0 && text != "" && count(text) > maxTokens && TargetOf(count, maxTokens, suffix) > 0
  }

  /** The result for the prefix length found. */
  function CutText(text: string, lo: nat, suffix: string): string
    requires lo <= |text|
  {
    RStrip(text[..CutAt(text, lo)]) + suffix
  }

  /** What truncate_to_tokens returns for a monotone counter. */
  ghost predicate IsTruncation(count: Counter, text: string, maxTokens: int, suffix: string, r: string) {
    if maxTokens <= 0 then r == ""
    else if text == "" || count(text) <= maxTokens then r == text
    else if TargetOf(count, maxTokens, suffix) <= 0 then r == suffix
    else exists lo: nat ::
      lo <= |text| && IsCutHere(count, text, maxTokens, suffix, lo) && r == CutText(text, lo, suffix)
  }

  /** Where a monotone counter has the text cut: the longest prefix in the range that leaves room for the suffix. */
  ghost predicate IsCutHere(count: Counter, text: string, maxTokens: int, suffix: string, lo: nat)
    requires IsCut(count, text, maxTokens, suffix) && lo <= |text|
  {
    var target := TargetOf(count, maxTokens, suffix);
    IsLongestFit(count, text, target, SearchRange(|text|, target, count(text)), lo)
  }

  /** The one failure that no counter avoids: the text needs cutting and the suffix alone is too long. */
  predicate SuffixOverruns(count: Counter, text: string, maxTokens: int, suffix: string) {
    text != "" && count(text) > maxTokens > 0 && count(suffix) > maxTokens
  }

  method TruncateToTokens(count: Counter, text: string, maxTokens: int, suffix: string)
    returns (r: string, ghost lo: nat)
    ensures maxTokens <= 0 ==> r == ""
    ensures maxTokens > 0 && (text == "" || count(text) <= maxTokens) ==> r == text
    ensures maxTokens > 0 && text != "" && count(text) > maxTokens && TargetOf(count, maxTokens, suffix) <= 0 ==>
              r == suffix
    ensures IsCut(count, text, maxTokens, suffix) ==>
              && lo <= |text| && r == CutText(text, lo, suffix)
              && (IsMonotone(count) ==> IsCutHere(count, text, maxTokens, suffix, lo))
    ensures IsMonotone(count) ==> IsTruncation(count, text, maxTokens, suffix, r)
    ensures IsRegular(count) && maxTokens >= 0 ==>
              (count(r) <= maxTokens <==> !SuffixOverruns(count, text, maxTokens, suffix))
  {
    lo := 0;
    if text == "" || maxTokens <= 0 {
      r := if maxTokens <= 0 then "" else text;
      return;
    }
    var total := count(text);
    if total <= maxTokens {
      return text, 0;
    }
    var suffixTokens := if suffix != "" then count(suffix) else 0;
    var target := maxTokens - suffixTokens;
    if target <= 0 {
      return suffix, 0;
    }
    var found := SearchPrefix(count, text, target, SearchRange(|text|, target, total));
    lo := found;
    if IsRegular(count) { CutFits(count, text, maxTokens, suffix, found); }
    r := CutText(text, found, suffix);
  }

  lemma CutFits(count: Counter, text: string, maxTokens: int, suffix: string, lo: nat)
    requires IsRegular(count) && IsCut(count, text, maxTokens, suffix)
    requires lo <= |text| && (lo == 0 || count(text[..lo]) <= TargetOf(count, maxTokens, suffix))
    ensures count(CutText(text, lo, suffix)) <= maxTokens
  {
    var kept := RStrip(text[..CutAt(text, lo)]);
    assert kept <= text[..CutAt(text, lo)] <= text[..lo];
    assert kept <= text[..lo];
    assert lo == 0 ==> text[..lo] == "";
    assert count(kept) <= count(text[..lo]);
  }

  /** The prefix found is the longest fit of the whole text exactly when the range was not too short for it: either it
      ended inside the range, or the range is the whole text, or the next character already overruns the target. */
  lemma FoundIsLongest(count: Counter, text: string, target: int, range: nat, lo: nat)
    requires IsMonotone(count) && range <= |text| && IsLongestFit(count, text, target, range, lo)
    ensures IsLongestFit(count, text, target, |text|, lo) <==>
              lo < range || range == |text| || count(text[..range + 1]) > target
  {
    if lo < range || (lo == range < |text| && count(text[..range + 1]) > target) {
      forall j | lo < j <= |text| ensures count(text[..j]) > target {
        assert text[..lo + 1] <= text[..j];
        assert count(text[..lo + 1]) > target;
      }
    }
  }

  /** The cut ends a word whenever the prefix holds a blank after its first character: what follows the cut is a blank,
      and no blank of the prefix comes later. */
  lemma CutEndsAWord(text: string, lo: nat)
    requires lo <= |text|
    ensures (exists j | 0 < j < lo :: text[j] == ' ') <==> CutAt(text, lo) < lo
    ensures forall j | CutAt(text, lo) < j < lo :: text[j] != ' '
    ensures CutAt(text, lo) < lo ==> text[CutAt(text, lo)] == ' '
  {
    var p := LastBlank(text[..lo]);
    if j :| 0 < j < lo && text[j] == ' ' {
      assert text[..lo][j] == ' ';
    }
  }

  /** How far the search goes: to the whole text, or as far as the target's share of the text, rounded down, and half
      as much again, rounded down, but at least 64 characters. */
  lemma SearchRangeMeaning(size: nat, target: nat, total: nat, share: nat)
    requires total > 0 && share * total <= size * target < (share + 1) * total
    ensures var range := SearchRange(size, target, total);
            || (range == size && size <= share + (if share >= 128 then share / 2 else 64))
            || (range < size && share >= 128 && 2 * (range - share) <= share < 2 * (range - share + 1))
            || (range < size && share < 128 && range - share == 64)
  {
    ShareUnique(size * target, total, share);
  }

  lemma ShareUnique(amount: nat, total: nat, share: nat)
    requires total > 0 && share * total <= amount < (share + 1) * total
    ensures amount / total == share
  {
    var q := amount / total;
    Divided(amount, total);
    Scaled(total, q + 1, share);
    Scaled(total, share + 1, q);
  }

  lemma Divided(amount: nat, total: nat)
    requires total > 0
    ensures amount / total * total <= amount < (amount / total + 1) * total
  {
  }

  lemma Scaled(total: nat, a: nat, b: nat)
    ensures a <= b ==> a * total <= b * total
  {
  }

  /** Every prefix has at least three quarters of its share of the tokens. */
  ghost predicate IsEven(count: Counter, text: string) {
    forall j | 0 <= j <= |text| :: 4 * |text| * count(text[..j]) >= 3 * count(text) * j
  }

  /** On such a text the search does not stop too soon: the prefix kept is the longest of the whole text that leaves
      room for the suffix. */
  lemma EvenTextKeepsMost(count: Counter, text: string, target: int, lo: nat)
    requires IsMonotone(count) && IsEven(count, text) && 0 < target < count(text) && text != ""
    requires lo <= |text| && IsLongestFit(count, text, target, SearchRange(|text|, target, count(text)), lo)
    ensures IsLongestFit(count, text, target, |text|, lo)
  {
    var range := SearchRange(|text|, target, count(text));
    FoundIsLongest(count, text, target, range, lo);
    if range < |text| && count(text[..range + 1]) <= target {
      assert 4 * |text| * count(text[..range + 1]) >= 3 * count(text) * (range + 1);
      RangeIsFar(|text|, target, count(text), count(text[..range + 1]));
    }
  }

  lemma RangeIsFar(size: nat, target: nat, total: nat, tokens: nat)
    requires total > 0 && tokens <= target && SearchRange(size, target, total) < size
    ensures 4 * size * tokens < 3 * total * (SearchRange(size, target, total) + 1)
  {
    var share, range := size * target / total, SearchRange(size, target, total);
    Divided(size * target, total);
    RangeIsLong(size, target, total);
    hide SearchRange;
    Scaled(size, tokens, target);
    Commutes(size, tokens);
    Commutes(size, target);
    Scaled(total, 4 * (share + 1), 3 * (range + 1));
    Regroup(size, tokens, total, share, range);
  }

  lemma Commutes(a: nat, b: nat)
    ensures a * b == b * a
  {
  }

  lemma RangeIsLong(size: nat, target: nat, total: nat)
    requires total > 0 && SearchRange(size, target, total) < size
    ensures 4 * (size * target / total + 1) <= 3 * (SearchRange(size, target, total) + 1)
  {
  }

  lemma Regroup(size: nat, tokens: nat, total: nat, share: nat, range: nat)
    requires size * tokens < (share + 1) * total && 4 * (share + 1) * total <= 3 * (range + 1) * total
    ensures 4 * size * tokens < 3 * total * (range + 1)
  {
    assert 4 * size * tokens == 4 * (size * tokens);
    assert 4 * (share + 1) * total == 4 * ((share + 1) * total);
    assert 3 * (range + 1) * total == 3 * total * (range + 1);
  }

  // ---- the whole cut ----

  /** A cut text: as much of the front as was kept, and the suffix. The prefix found ends at its last blank after the
      first character, if it has one, and whitespace before the cut goes too. */
  ghost predicate IsCutOf(text: string, lo: nat, suffix: string, r: string) {
    exists pos: nat, n: nat :: IsCutAtWord(text, lo, pos) && KeepsUpTo(text, pos, n) && r == text[..n] + suffix
  }

  ghost predicate IsCutAtWord(text: string, lo: nat, pos: nat) {
    && pos <= lo <= |text|
    && (if exists j :: 0 < j < lo && text[j] == ' '
        then 0 < pos < lo && text[pos] == ' ' && forall j | pos < j < lo :: text[j] != ' '
        else pos == lo)
  }

  ghost predicate KeepsUpTo(text: string, pos: nat, n: nat) {
    n <= pos <= |text| && (forall i | n <= i < pos :: IsSpace(text[i])) && (n > 0 ==> !IsSpace(text[n - 1]))
  }

  /** For a monotone counter, a text that needs cutting is cut within a prefix that leaves room for the suffix; on an
      even text no longer prefix does. */
  lemma TruncationMeaning(count: Counter, text: string, maxTokens: int, suffix: string, lo: nat)
    requires IsMonotone(count) && IsCut(count, text, maxTokens, suffix)
    requires lo <= |text| && IsCutHere(count, text, maxTokens, suffix, lo)
    ensures IsCutOf(text, lo, suffix, CutText(text, lo, suffix))
    ensures count(text[..lo]) + count(suffix) <= maxTokens
    ensures IsEven(count, text) ==> forall j | lo < j <= |text| :: count(text[..j]) + count(suffix) > maxTokens
  {
    var target := TargetOf(count, maxTokens, suffix);
    CutEndsAWord(text, lo);
    var pos := CutAt(text, lo);
    var n := BackSpaces(text[..pos], 0, pos);
    assert KeepsUpTo(text, pos, n);
    assert RStrip(text[..pos]) == text[..n];
    assert IsCutAtWord(text, lo, pos);
    assert lo == 0 ==> text[..lo] == "";
    hide SearchRange, CutAt, RStrip;
    if IsEven(count, text) { EvenTextKeepsMost(count, text, target, lo); }
  }
}
