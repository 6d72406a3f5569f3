/** Deterministic text chunking by characters and by words (adapters/parsers/chunker.py). */
module Chunker {
  import opened Numbers
  import opened Wrappers
  import opened Text
  import opened Sequences

  // ---- break points ----

  predicate OccursAt(region: string, sep: string, p: nat) {
    p + |sep| <= |region| && region[p..p + |sep|] == sep
  }

  function RFindUpTo(region: string, sep: string, p: int): (r: int)
    requires p < |region| + 1
    ensures -1 <= r <= p || (r == -1 && p < -1)
    ensures r >= 0 ==> OccursAt(region, sep, r)
    ensures forall q: nat | r < q <= p :: !OccursAt(region, sep, q)
    decreases p + 1
  {
    if p < 0 then -1
    else if OccursAt(region, sep, p) then p
    else RFindUpTo(region, sep, p - 1)
  }

  /** str.rfind: the last occurrence, or -1. */
  function RFind(region: string, sep: string): (r: int)
    ensures -1 <= r
    ensures r >= 0 ==> OccursAt(region, sep, r)
    ensures forall q: nat | r < q :: !OccursAt(region, sep, q)
  {
    RFindUpTo(region, sep, |region|)
  }

  /** Separators in order of preference: paragraph, line, sentence ends, space. */
  const SEPARATORS: seq<string> := ["\n\n", "\n", ". ", "? ", "! ", " "]

  lemma SeparatorsEndInSpace(i: nat)
    requires i < |SEPARATORS|
    ensures |SEPARATORS[i]| >= 1 && IsSpace(SEPARATORS[i][|SEPARATORS[i]| - 1])
  {
  }

  /** Offset after the chosen break of the region, trying separators from index i on. */
  function BreakFrom(region: string, minOffset: nat, i: nat): (off: nat)
    requires i <= |SEPARATORS|
    decreases |SEPARATORS| - i
  {
    if i == |SEPARATORS| then |region|
    else if RFind(region, SEPARATORS[i]) >= minOffset then RFind(region, SEPARATORS[i]) + |SEPARATORS[i]|
    else BreakFrom(region, minOffset, i + 1)
  }

  function BestBreak(region: string, minOffset: nat): nat { BreakFrom(region, minOffset, 0) }

  ghost predicate Usable(region: string, i: nat, minOffset: nat, p: nat)
    requires i < |SEPARATORS|
  {
    p >= minOffset && OccursAt(region, SEPARATORS[i], p)
  }

  /** off follows the last usable occurrence of the most preferred separator that has one; with none, it is the
      region's end. */
  ghost predicate IsBestBreak(region: string, minOffset: nat, off: nat) {
    || (off == |region| && forall i: nat, p: nat | i < |SEPARATORS| :: !Usable(region, i, minOffset, p))
    || exists i: nat :: i < |SEPARATORS| && IsBreakAfter(region, minOffset, off, i)
  }

  ghost predicate IsBreakAfter(region: string, minOffset: nat, off: nat, i: nat)
    requires i < |SEPARATORS|
  {
    && off >= |SEPARATORS[i]|
    && Usable(region, i, minOffset, off - |SEPARATORS[i]|)
    && (forall q: nat | q > off - |SEPARATORS[i]| :: !OccursAt(region, SEPARATORS[i], q))
    && (forall j: nat, p: nat | j < i :: !Usable(region, j, minOffset, p))
  }

  lemma {:induction false} BreakFromMeaning(region: string, minOffset: nat, i: nat)
    requires i <= |SEPARATORS|
    requires forall j: nat, p: nat | j < i :: !Usable(region, j, minOffset, p)
    ensures IsBestBreak(region, minOffset, BreakFrom(region, minOffset, i))
    decreases |SEPARATORS| - i
  {
    if i < |SEPARATORS| {
      var r := RFind(region, SEPARATORS[i]);
      if r >= minOffset {
        assert IsBreakAfter(region, minOffset, r + |SEPARATORS[i]|, i);
      } else {
        BreakFromMeaning(region, minOffset, i + 1);
      }
    }
  }

  /** The break is the preferred one, and lies past minOffset inside the region. */
  lemma BestBreakMeaning(region: string, minOffset: nat)
    ensures IsBestBreak(region, minOffset, BestBreak(region, minOffset))
    ensures 0 < BestBreak(region, minOffset) <= |region| || BestBreak(region, minOffset) == |region|
    ensures minOffset < |region| ==> BestBreak(region, minOffset) > minOffset
    ensures BestBreak(region, minOffset) < |region| ==> IsSpace(region[BestBreak(region, minOffset) - 1])
  {
    BreakFromMeaning(region, minOffset, 0);
    var off := BestBreak(region, minOffset);
    if i: nat :| i < |SEPARATORS| && IsBreakAfter(region, minOffset, off, i) {
      SeparatorsEndInSpace(i);
      var sep := SEPARATORS[i];
      assert region[off - |sep|..off][|sep| - 1] == region[off - 1];
    }
  }

  lemma BreakBounds(text: string, start: nat, hardEnd: nat, minOffset: nat)
    requires start <= hardEnd <= |text|
    ensures var end := start + BestBreak(text[start..hardEnd], minOffset);
            && end <= hardEnd
            && (minOffset < hardEnd - start ==> end > start + minOffset)
            && (end < hardEnd ==> end > 0 && IsSpace(text[end - 1]))
  {
    var region := text[start..hardEnd];
    BestBreakMeaning(region, minOffset);
    hide IsSpace, BestBreak, IsBestBreak;
    var off := BestBreak(region, minOffset);
    if off < |region| { assert off > 0 && region[off - 1] == text[start + off - 1]; }
  }

  /** _find_best_break */
  method FindBestBreak(text: string, start: nat, hardEnd: nat, minOffset: nat) returns (end: nat)
    requires start <= hardEnd <= |text|
    ensures end == start + BestBreak(text[start..hardEnd], minOffset)
    ensures IsBestBreak(text[start..hardEnd], minOffset, end - start)
  {
    var region := text[start..hardEnd];
    BestBreakMeaning(region, minOffset);
    hide IsSpace, IsBestBreak, OccursAt;
    for i := 0 to |SEPARATORS|
      invariant BestBreak(region, minOffset) == BreakFrom(region, minOffset, i)
    {
      var pos := RFind(region, SEPARATORS[i]);
      if pos >= minOffset {
        return start + pos + |SEPARATORS[i]|;
      }
    }
    return hardEnd;
  }

  // ---- windows and the chunks cut from them ----

  /** A half-open range of text positions. */
  datatype Span = Span(start: nat, end: nat)

  predicate InText(text: string, ws: seq<Span>) {
    forall i | 0 <= i < |ws| :: ws[i].start <= ws[i].end <= |text|
  }

  predicate Holds(w: Span, p: nat) { w.start <= p < w.end }

  /** The range left of a window after strip(). */
  function Trim(text: string, w: Span): (t: Span)
    requires w.start <= w.end <= |text|
    ensures w.start <= t.start <= t.end <= w.end
    ensures text[t.start..t.end] == Strip(text[w.start..w.end])
    ensures forall p | w.start <= p < w.end && !IsSpace(text[p]) :: t.start <= p < t.end
  {
    var sub := text[w.start..w.end];
    var t := Span(w.start + StripStart(sub), w.start + StripEnd(sub));
    assert forall p | w.start <= p < w.end :: text[p] == sub[p - w.start];
    t
  }

  /** The stripped, non-empty ranges of a list of windows, in order. */
  function Spans(text: string, ws: seq<Span>): (ts: seq<Span>)
    requires InText(text, ws)
    ensures InText(text, ts)
  {
    if ws == [] then []
    else
      var front := Spans(text, ws[..|ws| - 1]);
      var t := Trim(text, ws[|ws| - 1]);
      if t.start < t.end then front + [t] else front
  }

  function Cut(text: string, ts: seq<Span>): (chunks: seq<string>)
    requires InText(text, ts)
    ensures |chunks| == |ts|
    ensures forall i | 0 <= i < |ts| :: chunks[i] == text[ts[i].start..ts[i].end]
  {
    if ts == [] then [] else Cut(text, ts[..|ts| - 1]) + [text[ts[|ts| - 1].start..ts[|ts| - 1].end]]
  }

  /** The chunks of a list of windows: each window stripped, blank ones dropped. */
  function ChunksOf(text: string, ws: seq<Span>): seq<string>
    requires InText(text, ws)
  {
    Cut(text, Spans(text, ws))
  }

  lemma ChunksOfAppend(text: string, ws: seq<Span>, w: Span)
    requires InText(text, ws + [w])
    ensures InText(text, ws)
    ensures w.start <= w.end <= |text|
    ensures var chunk := Strip(text[w.start..w.end]);
            ChunksOf(text, ws + [w]) == ChunksOf(text, ws) + if chunk != "" then [chunk] else []
  {
    var all := ws + [w];
    assert all[|ws|] == w;
    assert all[..|ws|] == ws;
    var ts := Spans(text, all);
    if Strip(text[w.start..w.end]) != "" { assert ts[..|ts| - 1] == Spans(text, ws); }
  }

  ghost predicate Covered(ws: seq<Span>, p: nat) {
    exists i :: 0 <= i < |ws| && Holds(ws[i], p)
  }

  /** A position holding no whitespace is in a chunk exactly when it is in a window. */
  lemma {:induction false} SpansCover(text: string, ws: seq<Span>, p: nat)
    requires InText(text, ws)
    requires p < |text| && !IsSpace(text[p])
    ensures Covered(ws, p) <==> Covered(Spans(text, ws), p)
  {
    hide IsSpace, Strip;
    if ws != [] {
      var front, w := ws[..|ws| - 1], ws[|ws| - 1];
      SpansCover(text, front, p);
      var t := Trim(text, w);
      assert Holds(w, p) <==> Holds(t, p);
      assert Spans(text, ws) == Spans(text, front) + if t.start < t.end then [t] else [];
      hide Covered, Spans, Trim;
      CoveredAppend(front, w, p);
      assert ws == front + [w];
      CoveredAppend(Spans(text, front), t, p);
    }
  }

  lemma CoveredAppend(ws: seq<Span>, w: Span, p: nat)
    ensures Covered(ws + [w], p) <==> Covered(ws, p) || Holds(w, p)
  {
    var all := ws + [w];
    if Covered(ws, p) {
      var i :| 0 <= i < |ws| && Holds(ws[i], p);
      assert Holds(all[i], p);
    }
    if Holds(w, p) { assert Holds(all[|ws|], p); }
  }

  ghost predicate Inside(t: Span, w: Span) { w.start <= t.start < t.end <= w.end }

  /** Every chunk is non-blank, has no outer whitespace, and is a contiguous piece of one window. */
  lemma {:induction false} SpansTrimmed(text: string, ws: seq<Span>, k: nat)
    requires InText(text, ws)
    requires k < |Spans(text, ws)|
    ensures exists i :: 0 <= i < |ws| && Inside(Spans(text, ws)[k], ws[i])
    ensures ChunksOf(text, ws)[k] != "" && IsStripped(ChunksOf(text, ws)[k])
  {
    var front, w := ws[..|ws| - 1], ws[|ws| - 1];
    if k < |Spans(text, front)| {
      SpansTrimmed(text, front, k);
      var i :| 0 <= i < |front| && Inside(Spans(text, front)[k], front[i]);
      assert ws[i] == front[i];
    } else {
      StripFixes(text[w.start..w.end]);
      assert Inside(Trim(text, w), ws[|ws| - 1]);
    }
  }

  lemma NoChunks(text: string)
    ensures ChunksOf(text, []) == []
  {
  }

  // ---- chunking by characters ----

  datatype ChunkError = SizeNotPositive | NegativeOverlap | OverlapNotSmaller | NoProgress

  /** End of the character window that begins at start. */
  function CharEnd(text: string, size: nat, start: nat): (end: nat)
    requires size > 0 && start < |text|
    ensures start < end <= |text| && end - start <= size
    ensures end < |text| ==> end - start > size / 2
    ensures end == |text| || IsSpace(text[end - 1]) || end - start == size
  {
    var hardEnd := Min(start + size, |text|);
    if hardEnd < |text| then
      BreakBounds(text, start, hardEnd, size / 2);
      start + BestBreak(text[start..hardEnd], size / 2)
    else hardEnd
  }

  /** The windows read by character chunking from position start on. */
  function CharWindows(text: string, size: nat, overlap: nat, start: nat): (ws: seq<Span>)
    requires size > 0
    ensures InText(text, ws)
    decreases |text| - start
  {
    if start >= |text| then []
    else
      var end := CharEnd(text, size, start);
      [Span(start, end)] + if end >= |text| then [] else CharWindows(text, size, overlap, Max(end - overlap, start + 1))
  }

  /** Start of the window after the one that runs from start to end. */
  function NextStart(end: nat, overlap: nat, start: nat): nat { Max(end - overlap, start + 1) }

  lemma CharEndIs(text: string, size: nat, start: nat)
    requires size > 0 && start < |text|
    ensures CharEnd(text, size, start) ==
            if start + size < |text| then start + BestBreak(text[start..start + size], size / 2) else |text|
  {
  }

  lemma CharWindowsStep(text: string, size: nat, overlap: nat, start: nat)
    requires size > 0
    ensures start >= |text| ==> CharWindows(text, size, overlap, start) == []
    ensures start < |text| ==>
              var end := CharEnd(text, size, start);
              CharWindows(text, size, overlap, start) ==
              [Span(start, end)] +
                if end >= |text| then [] else CharWindows(text, size, overlap, NextStart(end, overlap, start))
  {
    hide CharEnd, IsSpace;
  }

  /** The windows left to read once ws have been read, and the chunks so far. */
  ghost predicate Reading(text: string, size: nat, overlap: nat, ws: seq<Span>, rest: seq<Span>, chunks: seq<string>)
    requires size > 0
  {
    && CharWindows(text, size, overlap, 0) == ws + rest
    && InText(text, ws)
    && chunks == ChunksOf(text, ws)
  }

  lemma ReadOne(text: string, size: nat, overlap: nat, ws: seq<Span>, w: Span, rest: seq<Span>, chunks: seq<string>)
    requires size > 0
    requires Reading(text, size, overlap, ws, [w] + rest, chunks)
    requires w.start <= w.end <= |text|
    ensures var chunk := Strip(text[w.start..w.end]);
            Reading(text, size, overlap, ws + [w], rest, chunks + if chunk != "" then [chunk] else [])
  {
    Regroup(ws, w, rest);
    ChunksOfAppend(text, ws, w);
  }

  /** _chunk_by_chars; NoProgress stands for its RuntimeError. */
  method ChunkByChars(text: string, size: nat, overlap: nat) returns (r: Result<seq<string>, ChunkError>)
    requires size > 0
    ensures r == Ok(ChunksOf(text, CharWindows(text, size, overlap, 0)))
  {
    NoChunks(text);
    hide CharWindows, CharEnd, ChunksOf, BestBreak, IsBestBreak, Strip;
    var chunks: seq<string> := [];
    var start := 0;
    var minBreakSize := size / 2;
    ghost var seen: seq<Span> := [];
    ghost var rest := CharWindows(text, size, overlap, 0);
    while start < |text|
      invariant rest == CharWindows(text, size, overlap, start)
      invariant Reading(text, size, overlap, seen, rest, chunks)
      decreases |text| - start
    {
      CharWindowsStep(text, size, overlap, start);
      CharEndIs(text, size, start);
      var hardEnd := Min(start + size, |text|);
      var end;
      if hardEnd < |text| {
        end := FindBestBreak(text, start, hardEnd, minBreakSize);
      } else {
        end := hardEnd;
      }
      var chunk := Strip(text[start..end]);
      rest := if end >= |text| then [] else CharWindows(text, size, overlap, NextStart(end, overlap, start));
      ReadOne(text, size, overlap, seen, Span(start, end), rest, chunks);
      seen := seen + [Span(start, end)];
      assert chunks + [] == chunks;
      if chunk != "" {
        chunks := chunks + [chunk];
      }
      if end >= |text| {
        break;
      }
      var nextStart := Max(end - overlap, start + 1);
      if nextStart <= start {
        return Err(NoProgress);
      }
      start := nextStart;
    }
    CharWindowsStep(text, size, overlap, start);
    assert rest == [];
    assert CharWindows(text, size, overlap, 0) == seen;
    return Ok(chunks);
  }

  /** Every position from start on is read by some window. */
  lemma {:induction false} CharWindowsReach(text: string, size: nat, overlap: nat, start: nat, p: nat)
    requires size > 0 && start <= p < |text|
    ensures Covered(CharWindows(text, size, overlap, start), p)
    decreases |text| - start
  {
    CharWindowsStep(text, size, overlap, start);
    var ws := CharWindows(text, size, overlap, start);
    var end := CharEnd(text, size, start);
    if p < end {
      assert Holds(ws[0], p);
    } else {
      var next := NextStart(end, overlap, start);
      CharWindowsReach(text, size, overlap, next, p);
      var i :| 0 <= i < |CharWindows(text, size, overlap, next)| && Holds(CharWindows(text, size, overlap, next)[i], p);
      assert Holds(ws[i + 1], p);
    }
  }

  /** How one character window relates to the next: the shared part, the progress made and the break between them. */
  ghost predicate Consecutive(text: string, size: nat, overlap: nat, w: Span, v: Span) {
    && 0 < w.end < |text|
    && w.end - v.start == Min(overlap, w.end - w.start - 1)
    && v.start - w.start >= Max(1, size / 2 + 1 - overlap)
    && (IsSpace(text[w.end - 1]) || w.end - w.start == size)
  }

  ghost predicate CharSpaced(text: string, size: nat, overlap: nat, start: nat, ws: seq<Span>) {
    && ws != [] && ws[0].start == start && ws[|ws| - 1].end == |text|
    && (forall i | 0 <= i < |ws| :: ws[i].start < ws[i].end && ws[i].end - ws[i].start <= size)
    && (forall i | 0 <= i < |ws| - 1 :: Consecutive(text, size, overlap, ws[i], ws[i + 1]))
    && (|ws| - 1) * Max(1, size / 2 + 1 - overlap) < |text| - start
  }

  lemma ProgressBound(n: nat, step: nat, rest: int, total: int)
    requires n * step < rest && rest <= total - step
    ensures (n + 1) * step < total
  {
  }

  lemma CharSpacedCons(text: string, size: nat, overlap: nat, w: Span, rest: seq<Span>)
    requires 0 < size && w.start < w.end < |text| && w.end - w.start <= size && w.end - w.start > size / 2
    requires IsSpace(text[w.end - 1]) || w.end - w.start == size
    requires CharSpaced(text, size, overlap, NextStart(w.end, overlap, w.start), rest)
    ensures CharSpaced(text, size, overlap, w.start, [w] + rest)
  {
    hide IsSpace;
    var ws := [w] + rest;
    assert Consecutive(text, size, overlap, ws[0], ws[1]);
    forall i | 0 <= i < |ws| - 1 ensures Consecutive(text, size, overlap, ws[i], ws[i + 1]) {
      if i > 0 { assert Consecutive(text, size, overlap, rest[i - 1], rest[i]); }
    }
    ProgressBound(|rest| - 1, Max(1, size / 2 + 1 - overlap), |text| - rest[0].start, |text| - w.start);
  }

  lemma {:induction false} CharWindowsSpaced(text: string, size: nat, overlap: nat, start: nat)
    requires 0 < size && start < |text|
    ensures CharSpaced(text, size, overlap, start, CharWindows(text, size, overlap, start))
    decreases |text| - start
  {
    hide IsSpace, CharWindows, CharEnd;
    CharWindowsStep(text, size, overlap, start);
    var end := CharEnd(text, size, start);
    if end < |text| {
      var next := NextStart(end, overlap, start);
      CharWindowsSpaced(text, size, overlap, next);
      CharSpacedCons(text, size, overlap, Span(start, end), CharWindows(text, size, overlap, next));
    }
  }

  /** Character chunking of a non-empty text: no non-blank character is lost, chunks are trimmed pieces of at most
      size characters, neighbouring windows share min(overlap, length - 1) characters, and the count is bounded. */
  lemma CharChunking(text: string, size: nat, overlap: nat)
    requires 0 < size && text != ""
    ensures var ws := CharWindows(text, size, overlap, 0);
            && CharSpaced(text, size, overlap, 0, ws)
            && (forall p: nat | p < |text| && !IsSpace(text[p]) :: Covered(Spans(text, ws), p))
            && (forall c | c in ChunksOf(text, ws) :: 0 < |c| <= size && IsStripped(c))
  {
    CharWindowsSpaced(text, size, overlap, 0);
    hide CharWindows, Spans, ChunksOf, IsSpace, Strip;
    var ws := CharWindows(text, size, overlap, 0);
    forall p: nat | p < |text| && !IsSpace(text[p]) ensures Covered(Spans(text, ws), p) {
      CharWindowsReach(text, size, overlap, 0, p);
      SpansCover(text, ws, p);
    }
    forall c | c in ChunksOf(text, ws) ensures 0 < |c| <= size && IsStripped(c) {
      var k :| 0 <= k < |ChunksOf(text, ws)| && ChunksOf(text, ws)[k] == c;
      ChunkFits(text, ws, size, k);
    }
  }

  lemma ChunkFits(text: string, ws: seq<Span>, size: nat, k: nat)
    requires InText(text, ws) && forall i | 0 <= i < |ws| :: ws[i].end - ws[i].start <= size
    requires k < |ChunksOf(text, ws)|
    ensures 0 < |ChunksOf(text, ws)[k]| <= size && IsStripped(ChunksOf(text, ws)[k])
  {
    hide IsSpace, Strip;
    SpansTrimmed(text, ws, k);
  }

  // ---- chunking by words ----

  /** Where the window of n words that begins with word i ends. */
  function WordEnd(text: string, ps: seq<nat>, n: nat, i: nat): (end: nat)
    requires n > 0 && ps == WordStarts(text) && i < |ps|
    ensures ps[i] < end <= |text|
    ensures i + n >= |ps| ==> end == |text|
    ensures i + n < |ps| ==> ps[i + n / 2] < end <= ps[i + n] && IsSpace(text[end - 1])
  {
    WordBreak(text, ps, n, i);
    if i + n < |ps| then ps[i] + BestBreak(text[ps[i]..ps[i + n]], ps[i + n / 2] - ps[i]) else |text|
  }

  /** Where a word window that is not the last one breaks. */
  lemma WordBreak(text: string, ps: seq<nat>, n: nat, i: nat)
    requires n > 0 && ps == WordStarts(text) && i < |ps|
    ensures ps[i] < |text|
    ensures i + n < |ps| ==>
              && ps[i] <= ps[i + n / 2] < ps[i + n] <= |text|
              && var end := ps[i] + BestBreak(text[ps[i]..ps[i + n]], ps[i + n / 2] - ps[i]);
                 ps[i + n / 2] < end <= ps[i + n] && IsSpace(text[end - 1])
  {
    hide IsSpace, WordStarts, BestBreak;
    assert ps[i] in ps;
    if i + n < |ps| {
      assert ps[i + n] in ps && IsSpace(text[ps[i + n] - 1]);
      hide IsWordStart;
      BreakBounds(text, ps[i], ps[i + n], ps[i + n / 2] - ps[i]);
    }
  }

  /** The first words of the successive windows over a text of total words, from word i on. */
  function WordFirsts(total: nat, n: nat, overlap: nat, i: nat): (firsts: seq<nat>)
    ensures forall k | 0 <= k < |firsts| :: i <= firsts[k] < total
    decreases total - i
  {
    if i >= total then []
    else [i] + if i + n >= total then [] else WordFirsts(total, n, overlap, NextStart(i + n, overlap, i))
  }

  /** The window of n words that begins with word i. */
  function WordSpan(text: string, n: nat, i: nat): (w: Span)
    requires n > 0 && i < |WordStarts(text)|
    ensures w.start <= w.end <= |text|
  {
    Span(WordStarts(text)[i], WordEnd(text, WordStarts(text), n, i))
  }

  /** The windows that begin with the given words. */
  function WordSpans(text: string, n: nat, firsts: seq<nat>): (ws: seq<Span>)
    requires n > 0 && forall k | 0 <= k < |firsts| :: firsts[k] < |WordStarts(text)|
    ensures InText(text, ws) && |ws| == |firsts|
    ensures forall k | 0 <= k < |firsts| :: ws[k] == WordSpan(text, n, firsts[k])
  {
    hide WordStarts, WordSpan, IsSpace, IsWordStart;
    if firsts == [] then []
    else WordSpans(text, n, firsts[..|firsts| - 1]) + [WordSpan(text, n, firsts[|firsts| - 1])]
  }

  function WordWindows(text: string, n: nat, overlap: nat): (ws: seq<Span>)
    requires n > 0
    ensures InText(text, ws)
  {
    WordSpans(text, n, WordFirsts(|WordStarts(text)|, n, overlap, 0))
  }

  lemma WordEndIs(text: string, ps: seq<nat>, n: nat, i: nat)
    requires n > 0 && ps == WordStarts(text) && i + n < |ps|
    ensures ps[i] < ps[i + n] <= |text|
    ensures WordEnd(text, ps, n, i) == ps[i] + BestBreak(text[ps[i]..ps[i + n]], ps[i + n / 2] - ps[i])
  {
    hide WordStarts, BestBreak, IsSpace;
    WordBreak(text, ps, n, i);
  }

  lemma WordFirstsStep(total: nat, n: nat, overlap: nat, i: nat)
    ensures i >= total ==> WordFirsts(total, n, overlap, i) == []
    ensures i < total ==>
              WordFirsts(total, n, overlap, i) ==
              [i] + if i + n >= total then [] else WordFirsts(total, n, overlap, NextStart(i + n, overlap, i))
  {
  }

  lemma WordSpansAppend(text: string, n: nat, firsts: seq<nat>, i: nat)
    requires n > 0 && i < |WordStarts(text)| && forall k | 0 <= k < |firsts| :: firsts[k] < |WordStarts(text)|
    ensures WordSpans(text, n, firsts + [i]) ==
            WordSpans(text, n, firsts) + [Span(WordStarts(text)[i], WordEnd(text, WordStarts(text), n, i))]
  {
    assert (firsts + [i])[..|firsts|] == firsts;
  }

  /** The first words read so far, those still to read, and the chunks so far. */
  ghost predicate ReadingWords(text: string, n: nat, overlap: nat, done: seq<nat>, rest: seq<nat>, chunks: seq<string>)
    requires n > 0
  {
    && WordFirsts(|WordStarts(text)|, n, overlap, 0) == done + rest
    && (forall k | 0 <= k < |done| :: done[k] < |WordStarts(text)|)
    && chunks == ChunksOf(text, WordSpans(text, n, done))
  }

  lemma ReadOneWord(text: string, n: nat, overlap: nat, done: seq<nat>, i: nat, rest: seq<nat>, chunks: seq<string>)
    requires n > 0 && i < |WordStarts(text)|
    requires ReadingWords(text, n, overlap, done, [i] + rest, chunks)
    ensures WordStarts(text)[i] < WordEnd(text, WordStarts(text), n, i) <= |text|
    ensures var chunk := Strip(text[WordStarts(text)[i]..WordEnd(text, WordStarts(text), n, i)]);
            ReadingWords(text, n, overlap, done + [i], rest, chunks + if chunk != "" then [chunk] else [])
  {
    hide WordFirsts, WordEnd, WordStarts, Strip, ChunksOf, WordSpans;
    Regroup(done, i, rest);
    WordSpansAppend(text, n, done, i);
    var w := Span(WordStarts(text)[i], WordEnd(text, WordStarts(text), n, i));
    assert InText(text, WordSpans(text, n, done) + [w]);
    ChunksOfAppend(text, WordSpans(text, n, done), w);
  }

  /** The end of one word window, as the loop body of _chunk_by_words finds it. */
  method FindWordEnd(text: string, wordStarts: seq<nat>, chunkWords: nat, wordIdx: nat) returns (end: nat)
    requires chunkWords > 0 && wordStarts == WordStarts(text) && wordIdx < |wordStarts|
    ensures end == WordEnd(text, wordStarts, chunkWords, wordIdx)
    ensures end >= |text| <==> wordIdx + chunkWords >= |wordStarts|
  {
    hide IsSpace, WordStarts;
    var endWord := Min(wordIdx + chunkWords, |wordStarts|);
    var charStart := wordStarts[wordIdx];
    if endWord < |wordStarts| {
      assert wordStarts[endWord] in wordStarts;
      WordEndIs(text, wordStarts, chunkWords, wordIdx);
      hide WordEnd, BestBreak, IsBestBreak, OccursAt, Usable, IsBreakAfter;
      var charEnd := wordStarts[endWord];
      var minOffset := (endWord - wordIdx) / 2;
      var minChar := if minOffset > 0 then wordStarts[wordIdx + minOffset] - charStart else 0;
      end := FindBestBreak(text, charStart, charEnd, minChar);
    } else {
      end := |text|;
    }
  }

  /** _chunk_by_words */
  method ChunkByWords(text: string, chunkWords: nat, overlapWords: nat) returns (chunks: seq<string>)
    requires chunkWords > 0
    ensures chunks == ChunksOf(text, WordWindows(text, chunkWords, overlapWords))
  {
    NoChunks(text);
    var wordStarts := WordStarts(text);
    hide WordFirsts, WordEnd, WordStarts, Strip, ChunksOf, IsSpace, WordSpans;
    ghost var rest := WordFirsts(|wordStarts|, chunkWords, overlapWords, 0);
    WordFirstsStep(|wordStarts|, chunkWords, overlapWords, 0);
    if wordStarts == [] {
      return [];
    }
    var totalWords := |wordStarts|;
    chunks := [];
    var wordIdx := 0;
    ghost var done: seq<nat> := [];
    assert done + rest == rest;
    while wordIdx < totalWords
      invariant rest == WordFirsts(totalWords, chunkWords, overlapWords, wordIdx)
      invariant ReadingWords(text, chunkWords, overlapWords, done, rest, chunks)
      decreases totalWords - wordIdx
    {
      WordFirstsStep(totalWords, chunkWords, overlapWords, wordIdx);
      var endWord := Min(wordIdx + chunkWords, totalWords);
      var end := FindWordEnd(text, wordStarts, chunkWords, wordIdx);
      var chunk := Strip(text[wordStarts[wordIdx]..end]);
      rest := rest[1..];
      ReadOneWord(text, chunkWords, overlapWords, done, wordIdx, rest, chunks);
      done := done + [wordIdx];
      assert chunks + [] == chunks;
      if chunk != "" {
        chunks := chunks + [chunk];
      }
      if end >= |text| {
        break;
      }
      var nextWord := Max(endWord - overlapWords, wordIdx + 1);
      if nextWord <= wordIdx {
        nextWord := wordIdx + 1;
      }
      wordIdx := nextWord;
    }
    WordFirstsStep(totalWords, chunkWords, overlapWords, wordIdx);
    assert WordFirsts(totalWords, chunkWords, overlapWords, 0) == done;
  }

  /** chunk_text_deterministic: the checks of its arguments, then chunking in the given unit. */
  method ChunkText(text: string, chunkSize: int, overlap: int, inWords: bool)
    returns (r: Result<seq<string>, ChunkError>)
    ensures r == if chunkSize <= 0 then Err(SizeNotPositive)
                 else if overlap < 0 then Err(NegativeOverlap)
                 else if overlap >= chunkSize then Err(OverlapNotSmaller)
                 else if inWords then Ok(ChunksOf(text, WordWindows(text, chunkSize, overlap)))
                 else Ok(ChunksOf(text, CharWindows(text, chunkSize, overlap, 0)))
  {
    if chunkSize <= 0 { return Err(SizeNotPositive); }
    if overlap < 0 { return Err(NegativeOverlap); }
    if overlap >= chunkSize { return Err(OverlapNotSmaller); }
    if text == "" {
      assert WordStarts(text) == [];
      return Ok([]);
    }
    if inWords {
      var chunks := ChunkByWords(text, chunkSize, overlap);
      return Ok(chunks);
    }
    r := ChunkByChars(text, chunkSize, overlap);
  }

  // ---- which words the chunks contain ----

  /** Where the whitespace-free run through position p ends. */
  function WordLimit(text: string, p: nat): (q: nat)
    requires p <= |text|
    ensures p <= q <= |text|
    ensures forall k | p <= k < q :: !IsSpace(text[k])
    ensures q < |text| ==> IsSpace(text[q])
    decreases |text| - p
  {
    if p < |text| && !IsSpace(text[p]) then WordLimit(text, p + 1) else p
  }

  /** A word is never cut: a window that holds a word's first character holds the whole word. */
  lemma WordsAreWhole(text: string, n: nat, overlap: nat, k: nat, p: nat)
    requires n > 0 && k < |WordWindows(text, n, overlap)|
    requires IsWordStart(text, p) && Holds(WordWindows(text, n, overlap)[k], p)
    ensures WordLimit(text, p) <= WordWindows(text, n, overlap)[k].end
  {
    hide WordStarts, WordEnd, WordFirsts;
    var i := WordFirsts(|WordStarts(text)|, n, overlap, 0)[k];
    var end := WordEnd(text, WordStarts(text), n, i);
    assert end < |text| ==> IsSpace(text[end - 1]);
  }

  /** Word w (by index) lies in no chunk. */
  ghost predicate Lost(text: string, n: nat, overlap: nat, w: nat)
    requires n > 0 && w < |WordStarts(text)|
  {
    !Covered(Spans(text, WordWindows(text, n, overlap)), WordStarts(text)[w])
  }

  /** The most consecutive words that can fall between two chunks. */
  function MaxLost(n: nat, overlap: nat): nat { Max(0, (n + 1) / 2 - 1 - overlap) }

  /** Firsts advance by at most n - overlap words (at least one), and only stop once a window reaches the end. */
  ghost predicate Advancing(total: nat, n: nat, overlap: nat, i: nat, firsts: seq<nat>) {
    && firsts != [] && firsts[0] == i && firsts[|firsts| - 1] + n >= total
    && (forall k | 0 <= k < |firsts| - 1 ::
        firsts[k + 1] == NextStart(firsts[k] + n, overlap, firsts[k]) && firsts[k] + n < total)
  }

  lemma {:induction false} WordFirstsAdvance(total: nat, n: nat, overlap: nat, i: nat)
    requires 0 < n && i < total
    ensures Advancing(total, n, overlap, i, WordFirsts(total, n, overlap, i))
    decreases total - i
  {
    WordFirstsStep(total, n, overlap, i);
    if i + n < total {
      var next := NextStart(i + n, overlap, i);
      WordFirstsAdvance(total, n, overlap, next);
      hide WordFirsts;
      var firsts, rest := WordFirsts(total, n, overlap, i), WordFirsts(total, n, overlap, next);
      assert firsts == [i] + rest;
      forall k | 0 <= k < |firsts| - 1
        ensures firsts[k + 1] == NextStart(firsts[k] + n, overlap, firsts[k]) && firsts[k] + n < total
      {
        if k > 0 { assert firsts[k] == rest[k - 1] && firsts[k + 1] == rest[k]; }
      }
    }
  }

  /** The last listed first word at or before w. */
  lemma {:induction false} LastFirst(total: nat, n: nat, overlap: nat, i: nat, firsts: seq<nat>, w: nat)
    returns (k: nat)
    requires Advancing(total, n, overlap, i, firsts) && i <= w
    ensures k < |firsts| && firsts[k] <= w
    ensures k + 1 < |firsts| ==> w < firsts[k + 1]
  {
    k := 0;
    while k + 1 < |firsts| && firsts[k + 1] <= w
      invariant k < |firsts| && firsts[k] <= w
    {
      k := k + 1;
    }
  }

  lemma StartsOrdered(text: string, a: nat, b: nat)
    requires a <= b < |WordStarts(text)|
    ensures WordStarts(text)[a] <= WordStarts(text)[b] < |text|
    ensures !IsSpace(text[WordStarts(text)[b]])
  {
    var ps := WordStarts(text);
    assert ps[b] in ps;
    if a < b { assert ps[a] < ps[b]; }
  }

  /** The window that begins with word i holds that word and at least the n / 2 after it. */
  lemma WindowHolds(text: string, n: nat, overlap: nat, k: nat, w: nat)
    requires n > 0 && k < |WordFirsts(|WordStarts(text)|, n, overlap, 0)| && w < |WordStarts(text)|
    requires var i := WordFirsts(|WordStarts(text)|, n, overlap, 0)[k];
             i <= w && (w <= i + n / 2 || i + n >= |WordStarts(text)|)
    ensures !Lost(text, n, overlap, w)
  {
    hide IsSpace, WordStarts, WordFirsts, WordEnd, Spans;
    var ps := WordStarts(text);
    var i := WordFirsts(|ps|, n, overlap, 0)[k];
    StartsOrdered(text, i, w);
    if i + n < |ps| { StartsOrdered(text, w, i + n / 2); }
    assert Holds(WordWindows(text, n, overlap)[k], ps[w]);
    SpansCover(text, WordWindows(text, n, overlap), ps[w]);
  }

  lemma StepBound(n: nat, overlap: nat, i: nat)
    requires n > 0
    ensures NextStart(i + n, overlap, i) - (i + n / 2) - 1 <= MaxLost(n, overlap)
  {
  }

  /** A run of lost words is never longer than max(0, ceil(n / 2) - 1 - overlap). */
  lemma LostRunsAreShort(text: string, n: nat, overlap: nat, w: nat, len: nat)
    requires 0 < n && overlap < n && w + len <= |WordStarts(text)|
    requires forall j | w <= j < w + len :: Lost(text, n, overlap, j)
    ensures len <= MaxLost(n, overlap)
  {
    if len > 0 {
      var total := |WordStarts(text)|;
      var firsts := WordFirsts(total, n, overlap, 0);
      hide WordFirsts, WordStarts, Lost, IsSpace, IsWordStart, MaxLost;
      WordFirstsAdvance(total, n, overlap, 0);
      var k := LastFirst(total, n, overlap, 0, firsts, w);
      assert Lost(text, n, overlap, w);
      if w <= firsts[k] + n / 2 || firsts[k] + n >= total {
        WindowHolds(text, n, overlap, k, w);
      } else {
        var next := firsts[k + 1];
        WindowHolds(text, n, overlap, k + 1, next);
        assert w + len <= next;
        StepBound(n, overlap, firsts[k]);
      }
    }
  }

  /** Some text on which words are lost: n + 1 one-letter words with a line break after word n / 2. */
  function LossyText(n: nat): (text: string)
    ensures |text| == 2 * n + 1
  {
    seq(2 * n + 1, (p: int) => if p % 2 == 0 then 'a' else if p / 2 == n / 2 then '\n' else ' ')
  }

  lemma LossyWordStarts(n: nat)
    ensures |WordStarts(LossyText(n))| == n + 1
    ensures forall k | 0 <= k <= n :: WordStarts(LossyText(n))[k] == 2 * k
  {
    LossyWordStartsFrom(n, 0);
  }

  lemma LossyChars(n: nat, k: nat)
    requires k <= n
    ensures !IsSpace(LossyText(n)[2 * k])
    ensures k < n ==> IsSpace(LossyText(n)[2 * k + 1])
    ensures k > 0 ==> IsSpace(LossyText(n)[2 * k - 1])
  {
    assert k > 0 ==> 2 * k - 1 == 2 * (k - 1) + 1;
  }

  lemma {:induction false} LossyWordStartsFrom(n: nat, k: nat)
    requires k <= n
    ensures |WordStartsFrom(LossyText(n), 2 * k)| == n + 1 - k
    ensures forall j | 0 <= j <= n - k :: WordStartsFrom(LossyText(n), 2 * k)[j] == 2 * (k + j)
    decreases n - k
  {
    LossyChars(n, k);
    hide LossyText, IsSpace;
    var text := LossyText(n);
    LossyWordStep(text, n, k);
    hide WordStartsFrom, IsWordStart;
    if k < n { LossyWordStartsFrom(n, k + 1); }
  }

  lemma LossyWordStep(text: string, n: nat, k: nat)
    requires k <= n && |text| == 2 * n + 1
    requires IsWordStart(text, 2 * k) && (k < n ==> !IsWordStart(text, 2 * k + 1))
    ensures WordStartsFrom(text, 2 * k) == [2 * k] + if k < n then WordStartsFrom(text, 2 * (k + 1)) else []
  {
    hide IsWordStart;
    assert WordStartsFrom(text, 2 * k) == [2 * k] + WordStartsFrom(text, 2 * k + 1);
  }

  /** In the first window of that text there is no blank line and one line break. */
  lemma LossyBreak(n: nat)
    requires n >= 3
    ensures BestBreak(LossyText(n)[0..2 * n], 2 * (n / 2)) == 2 * (n / 2) + 2
  {
    var region, m := LossyText(n)[0..2 * n], 2 * (n / 2);
    assert forall p: nat | p < |region| :: region[p] == '\n' <==> p == m + 1;
    hide LossyText, IsSpace;
    forall p: nat ensures !OccursAt(region, "\n\n", p) {
      if p + 2 <= |region| { assert region[p..p + 2][0] == region[p] && region[p..p + 2][1] == region[p + 1]; }
    }
    assert region[m + 1..m + 2] == "\n";
    assert OccursAt(region, "\n", m + 1);
    forall p: nat | p != m + 1 ensures !OccursAt(region, "\n", p) {
      if p + 1 <= |region| { assert region[p..p + 1][0] == region[p]; }
    }
    hide OccursAt;
    assert BestBreak(region, m) == BreakFrom(region, m, 1) == m + 2;
  }

  /** On that text the first window breaks at the line break, just before word n / 2 + 1. */
  lemma LossyFirstBreak(n: nat)
    requires n >= 3
    ensures WordEnd(LossyText(n), WordStarts(LossyText(n)), n, 0) == 2 * (n / 2) + 2
  {
    LossyWordStarts(n);
    LossyBreak(n);
    hide WordStarts, WordEnd, BestBreak, LossyText, IsSpace;
    WordEndIs(LossyText(n), WordStarts(LossyText(n)), n, 0);
  }

  ghost predicate AllWordsKept(text: string, n: nat, overlap: nat)
    requires n > 0
  {
    forall w: nat | w < |WordStarts(text)| :: !Lost(text, n, overlap, w)
  }

  lemma LossyTextLosesAWord(n: nat, overlap: nat)
    requires overlap < n && overlap < (n + 1) / 2 - 1
    ensures n / 2 + 1 < |WordStarts(LossyText(n))| && Lost(LossyText(n), n, overlap, n / 2 + 1)
  {
    var text := LossyText(n);
    var ps := WordStarts(text);
    var firsts := WordFirsts(n + 1, n, overlap, 0);
    LossyWordStarts(n);
    LossyFirstBreak(n);
    WordFirstsAdvance(n + 1, n, overlap, 0);
    var p := ps[n / 2 + 1];
    assert p in ps && !IsSpace(text[p]);
    hide WordStarts, WordFirsts, WordEnd, LossyText, Spans, IsSpace;
    var ws := WordWindows(text, n, overlap);
    forall k | 0 <= k < |ws| ensures !Holds(ws[k], p) {
      if k > 0 {
        FirstsIncrease(n + 1, n, overlap, 0, firsts, k);
        assert ws[k].start == 2 * firsts[k];
      }
    }
    SpansCover(text, ws, p);
  }

  lemma {:induction false} FirstsIncrease(total: nat, n: nat, overlap: nat, i: nat, firsts: seq<nat>, k: nat)
    requires Advancing(total, n, overlap, i, firsts) && 0 < k < |firsts|
    ensures firsts[k] >= firsts[1]
  {
    if k > 1 { FirstsIncrease(total, n, overlap, i, firsts, k - 1); }
  }

  /** Word chunking keeps every word of every text exactly when overlap >= ceil(n / 2) - 1. */
  lemma WordChunkingKeepsAllWords(n: nat, overlap: nat)
    requires overlap < n
    ensures (forall text :: AllWordsKept(text, n, overlap)) <==> overlap >= (n + 1) / 2 - 1
  {
    hide WordStarts, Lost, IsSpace, IsWordStart, LossyText;
    if overlap >= (n + 1) / 2 - 1 {
      forall text ensures AllWordsKept(text, n, overlap) {
        forall w: nat | w < |WordStarts(text)| ensures !Lost(text, n, overlap, w) {
          if Lost(text, n, overlap, w) { LostRunsAreShort(text, n, overlap, w, 1); }
        }
      }
    } else {
      LossyTextLosesAWord(n, overlap);
      assert !AllWordsKept(LossyText(n), n, overlap);
    }
  }
}
