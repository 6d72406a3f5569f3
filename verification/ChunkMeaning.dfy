/** The chunks of a text, said of the text alone (adapters/parsers/chunker.py). */
module ChunkMeaning {
  import opened Numbers
  import opened Wrappers
  import opened Text
  import opened Sequences
  import opened Chunker

  // ---- breaks ----

  predicate StandsAt(region: string, sep: string, p: nat) {
    p + |sep| <= |region| && region[p..p + |sep|] == sep
  }

  /** The separator stands in the region at or after the least offset. */
  ghost predicate Has(region: string, least: nat, sep: string) {
    exists p: nat :: p >= least && StandsAt(region, sep, p)
  }

  /** The break comes right after the last place where the separator stands. */
  ghost predicate ComesAfterLast(region: string, least: nat, sep: string, off: nat) {
    && off >= |sep| + least && StandsAt(region, sep, off - |sep|)
    && forall p: nat | p > off - |sep| :: !StandsAt(region, sep, p)
  }

  /** A paragraph break goes before a line break, that before a sentence end, and that before a blank; a full stop goes
      before a question mark and that before an exclamation mark; without any of them the region is not broken. */
  ghost predicate IsPreferredBreak(region: string, least: nat, off: nat) {
    if Has(region, least, "\n\n") then ComesAfterLast(region, least, "\n\n", off)
    else if Has(region, least, "\n") then ComesAfterLast(region, least, "\n", off)
    else if Has(region, least, ". ") then ComesAfterLast(region, least, ". ", off)
    else if Has(region, least, "? ") then ComesAfterLast(region, least, "? ", off)
    else if Has(region, least, "! ") then ComesAfterLast(region, least, "! ", off)
    else if Has(region, least, " ") then ComesAfterLast(region, least, " ", off)
    else off == |region|
  }

  lemma SearchMeaning(region: string, least: nat, sep: string)
    requires sep != ""
    ensures RFind(region, sep) >= least <==> Has(region, least, sep)
    ensures RFind(region, sep) >= least ==> ComesAfterLast(region, least, sep, RFind(region, sep) + |sep|)
  {
    forall p: nat ensures StandsAt(region, sep, p) <==> OccursAt(region, sep, p) {
    }
    hide StandsAt, OccursAt;
    if Has(region, least, sep) {
      var p: nat :| p >= least && StandsAt(region, sep, p);
      assert OccursAt(region, sep, p);
    }
  }

  lemma BreakIsPreferred(region: string, least: nat)
    ensures IsPreferredBreak(region, least, BestBreak(region, least))
  {
    hide RFind, Has, ComesAfterLast;
    SearchMeaning(region, least, "\n\n");
    SearchMeaning(region, least, "\n");
    SearchMeaning(region, least, ". ");
    SearchMeaning(region, least, "? ");
    SearchMeaning(region, least, "! ");
    SearchMeaning(region, least, " ");
    BreakSteps(region, least);
  }

  lemma BreakSteps(region: string, least: nat)
    ensures BestBreak(region, least) ==
            if RFind(region, "\n\n") >= least then RFind(region, "\n\n") + 2
            else if RFind(region, "\n") >= least then RFind(region, "\n") + 1
            else if RFind(region, ". ") >= least then RFind(region, ". ") + 2
            else if RFind(region, "? ") >= least then RFind(region, "? ") + 2
            else if RFind(region, "! ") >= least then RFind(region, "! ") + 2
            else if RFind(region, " ") >= least then RFind(region, " ") + 1
            else |region|
  {
    hide RFind;
    assert BreakFrom(region, least, 6) == |region|;
    assert BreakFrom(region, least, 5) == if RFind(region, " ") >= least then RFind(region, " ") + 1 else |region|;
    assert BreakFrom(region, least, 4) ==
             if RFind(region, "! ") >= least then RFind(region, "! ") + 2 else BreakFrom(region, least, 5);
    assert BreakFrom(region, least, 3) ==
             if RFind(region, "? ") >= least then RFind(region, "? ") + 2 else BreakFrom(region, least, 4);
    assert BreakFrom(region, least, 2) ==
             if RFind(region, ". ") >= least then RFind(region, ". ") + 2 else BreakFrom(region, least, 3);
    assert BreakFrom(region, least, 1) ==
             if RFind(region, "\n") >= least then RFind(region, "\n") + 1 else BreakFrom(region, least, 2);
  }

  // ---- windows by characters ----

  /** A window of characters: as long as the size allows, broken at the preferred place past its middle unless it
      reaches the end of the text. */
  ghost predicate IsCharWindow(text: string, size: nat, w: Span) {
    && w.start < w.end <= |text|
    && (if w.start + size >= |text| then w.end == |text|
        else w.end <= w.start + size && IsPreferredBreak(text[w.start..w.start + size], size / 2, w.end - w.start))
  }

  /** The windows of a text: the first at its start, each next one the overlap before the end of the one before it but
      past its start, up to the one that reaches the end of the text. */
  ghost predicate AreCharWindows(text: string, size: nat, overlap: nat, start: nat, ws: seq<Span>) {
    && ws != [] && ws[0].start == start && ws[|ws| - 1].end == |text|
    && (forall k | 0 <= k < |ws| :: IsCharWindow(text, size, ws[k]))
    && (forall k | 0 <= k < |ws| - 1 ::
          ws[k].end < |text| &&
          ws[k + 1].start == if ws[k].end - overlap > ws[k].start then ws[k].end - overlap else ws[k].start + 1)
  }

  lemma CharEndMeaning(text: string, size: nat, start: nat)
    requires size > 0 && start < |text|
    ensures IsCharWindow(text, size, Span(start, CharEnd(text, size, start)))
  {
    CharEndIs(text, size, start);
    hide BestBreak, IsPreferredBreak, IsSpace;
    if start + size < |text| { BreakIsPreferred(text[start..start + size], size / 2); }
  }

  lemma {:induction false} CharWindowsMeaning(text: string, size: nat, overlap: nat, start: nat)
    requires size > 0 && start < |text|
    ensures AreCharWindows(text, size, overlap, start, CharWindows(text, size, overlap, start))
    decreases |text| - start
  {
    hide CharEnd, IsCharWindow;
    CharWindowsStep(text, size, overlap, start);
    CharEndMeaning(text, size, start);
    CharEndBounds(text, size, start);
    var end := CharEnd(text, size, start);
    if end < |text| {
      var next := NextStart(end, overlap, start);
      CharWindowsMeaning(text, size, overlap, next);
      OneWindowBefore(text, size, overlap, Span(start, end), CharWindows(text, size, overlap, next));
    }
  }

  lemma CharEndBounds(text: string, size: nat, start: nat)
    requires size > 0 && start < |text|
    ensures start < CharEnd(text, size, start) <= |text|
  {
  }

  lemma OneWindowBefore(text: string, size: nat, overlap: nat, w: Span, rest: seq<Span>)
    requires IsCharWindow(text, size, w) && w.start < w.end < |text|
    requires AreCharWindows(text, size, overlap, NextStart(w.end, overlap, w.start), rest)
    ensures AreCharWindows(text, size, overlap, w.start, [w] + rest)
  {
    hide IsCharWindow;
    var ws := [w] + rest;
    forall k | 0 <= k < |ws| - 1
      ensures ws[k].end < |text| &&
              ws[k + 1].start == if ws[k].end - overlap > ws[k].start then ws[k].end - overlap else ws[k].start + 1
    {
      if k > 0 { assert ws[k] == rest[k - 1] && ws[k + 1] == rest[k]; }
    }
  }

  // ---- the chunks of windows ----

  /** The chunks are the windows that are not blank, stripped, in order: chunk m comes from window at[m]. */
  ghost predicate AreChunks(text: string, ws: seq<Span>, chunks: seq<string>, at: seq<nat>)
    requires InText(text, ws)
  {
    && |at| == |chunks|
    && (forall m | 0 <= m < |at| :: at[m] < |ws| && chunks[m] == Stripped(text, ws, at[m]) != "")
    && (forall m, l | 0 <= m < l < |at| :: at[m] < at[l])
    && (forall k: nat | k < |ws| && Stripped(text, ws, k) != "" :: k in at)
  }

  function Stripped(text: string, ws: seq<Span>, k: nat): string
    requires InText(text, ws) && k < |ws|
  {
    Strip(text[ws[k].start..ws[k].end])
  }

  lemma {:induction false} ChunksMeaning(text: string, ws: seq<Span>) returns (at: seq<nat>)
    requires InText(text, ws)
    ensures AreChunks(text, ws, ChunksOf(text, ws), at)
  {
    at := [];
    if ws == [] {
      NoChunks(text);
    } else {
      var n := |ws| - 1;
      var front, w := ws[..n], ws[n];
      assert ws == front + [w];
      var before := ChunksMeaning(text, front);
      ChunksOfAppend(text, front, w);
      hide Strip, ChunksOf;
      at := before + if Stripped(text, ws, n) != "" then [n] else [];
      OneMoreChunk(text, ws, ChunksOf(text, front), before, ChunksOf(text, ws), at);
    }
  }

  lemma OneMoreChunk(text: string, ws: seq<Span>, chunks: seq<string>, before: seq<nat>, now: seq<string>, at: seq<nat>)
    requires ws != [] && InText(text, ws) && InText(text, ws[..|ws| - 1])
    requires AreChunks(text, ws[..|ws| - 1], chunks, before)
    requires var last := Stripped(text, ws, |ws| - 1);
             if last != "" then now == chunks + [last] && at == before + [|ws| - 1] else now == chunks && at == before
    ensures AreChunks(text, ws, now, at)
  {
    hide Strip;
    var n, front := |ws| - 1, ws[..|ws| - 1];
    forall k | 0 <= k < n ensures Stripped(text, front, k) == Stripped(text, ws, k) {
      assert front[k] == ws[k];
    }
    hide Stripped;
    forall k: nat | k < |ws| && Stripped(text, ws, k) != "" ensures k in at {
      if k < n { assert k in before; } else { assert at[|before|] == n; }
    }
  }

  // ---- windows by words ----

  /** The offsets at which the words of a text start, in order. */
  ghost predicate AreWordStarts(text: string, ps: seq<nat>) {
    && (forall p: nat :: p in ps <==>
          p < |text| && !IsSpace(text[p]) && (p > 0 ==> IsSpace(text[p - 1])))
    && (forall j, k | 0 <= j < k < |ps| :: ps[j] < ps[k])
  }

  /** The window that begins with word i: n words long, broken at the preferred place past its middle word unless its
      words reach the last one. */
  ghost predicate IsWordWindow(text: string, ps: seq<nat>, n: nat, i: nat, w: Span) {
    && i < |ps| && w.start == ps[i] < w.end <= |text|
    && (if i + n >= |ps| then w.end == |text|
        else ps[i] < ps[i + n] <= |text| && ps[i] <= ps[i + n / 2] &&
             IsPreferredBreak(text[ps[i]..ps[i + n]], ps[i + n / 2] - ps[i], w.end - ps[i]))
  }

  /** The first words of the windows: the first word of the text, then each time the overlap before where the last
      window had its limit, but at least one word on, until a window reaches the last word. */
  ghost predicate AreFirsts(total: nat, n: nat, overlap: nat, firsts: seq<nat>) {
    if total == 0 then firsts == []
    else
      && firsts != [] && firsts[0] == 0 && firsts[|firsts| - 1] + n >= total
      && (forall k | 0 <= k < |firsts| - 1 ::
            firsts[k] + n < total &&
            firsts[k + 1] == if n > overlap then firsts[k] + (n - overlap) else firsts[k] + 1)
  }

  /** The windows of a text by words, with their first words. */
  lemma WordWindowsMeaning(text: string, n: nat, overlap: nat) returns (ps: seq<nat>, firsts: seq<nat>)
    requires n > 0
    ensures AreWordStarts(text, ps) && AreFirsts(|ps|, n, overlap, firsts)
    ensures var ws := WordWindows(text, n, overlap);
            |ws| == |firsts| && forall k | 0 <= k < |ws| :: IsWordWindow(text, ps, n, firsts[k], ws[k])
  {
    ps := WordStarts(text);
    firsts := WordFirsts(|ps|, n, overlap, 0);
    assert forall p: nat :: IsWordStart(text, p) <==>
                            p < |text| && !IsSpace(text[p]) && (p > 0 ==> IsSpace(text[p - 1]));
    WordFirstsStep(|ps|, n, overlap, 0);
    if ps != [] {
      WordFirstsAdvance(|ps|, n, overlap, 0);
      FirstsAdvance(|ps|, n, overlap, firsts);
    }
    hide IsSpace, WordStarts, WordFirsts, WordEnd, IsWordWindow, AreFirsts, IsWordStart;
    var ws := WordWindows(text, n, overlap);
    forall k | 0 <= k < |ws| ensures IsWordWindow(text, ps, n, firsts[k], ws[k]) {
      WordWindowMeaning(text, ps, n, firsts[k]);
    }
  }

  lemma FirstsAdvance(total: nat, n: nat, overlap: nat, firsts: seq<nat>)
    requires 0 < total && 0 < n && Advancing(total, n, overlap, 0, firsts)
    ensures AreFirsts(total, n, overlap, firsts)
  {
  }

  lemma WordWindowMeaning(text: string, ps: seq<nat>, n: nat, i: nat)
    requires n > 0 && ps == WordStarts(text) && i < |ps|
    ensures IsWordWindow(text, ps, n, i, Span(ps[i], WordEnd(text, ps, n, i)))
  {
    hide IsSpace, WordStarts, BestBreak, IsPreferredBreak;
    StartsOrdered(text, i, i);
    if i + n < |ps| {
      WordEndIs(text, ps, n, i);
      StartsOrdered(text, i, i + n / 2);
      hide WordEnd;
      BreakIsPreferred(text[ps[i]..ps[i + n]], ps[i + n / 2] - ps[i]);
    }
  }

  // ---- chunking ----

  /** Chunking by characters gives the stripped, non-blank windows of a text that has a character. */
  lemma CharChunksMeaning(text: string, size: nat, overlap: nat) returns (ws: seq<Span>, at: seq<nat>)
    requires size > 0 && text != ""
    ensures AreCharWindows(text, size, overlap, 0, ws) && InText(text, ws)
    ensures AreChunks(text, ws, ChunksOf(text, CharWindows(text, size, overlap, 0)), at)
  {
    ws := CharWindows(text, size, overlap, 0);
    hide CharWindows, AreCharWindows, AreChunks;
    CharWindowsMeaning(text, size, overlap, 0);
    at := ChunksMeaning(text, ws);
  }

  /** Chunking by words gives the stripped, non-blank windows of the text's words. */
  lemma WordChunksMeaning(text: string, n: nat, overlap: nat)
    returns (ps: seq<nat>, firsts: seq<nat>, ws: seq<Span>, at: seq<nat>)
    requires n > 0
    ensures AreWordStarts(text, ps) && AreFirsts(|ps|, n, overlap, firsts)
    ensures |ws| == |firsts| && forall k | 0 <= k < |ws| :: IsWordWindow(text, ps, n, firsts[k], ws[k])
    ensures InText(text, ws) && AreChunks(text, ws, ChunksOf(text, WordWindows(text, n, overlap)), at)
  {
    ws := WordWindows(text, n, overlap);
    hide WordWindows, AreWordStarts, AreFirsts, AreChunks, IsWordWindow;
    ps, firsts := WordWindowsMeaning(text, n, overlap);
    at := ChunksMeaning(text, ws);
  }
}
