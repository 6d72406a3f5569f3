/** Batching of adjacent chunks into windows for graph extraction (domain/graph/pipeline.py, _make_graph_windows). */
module GraphWindows {
  import opened Wrappers
  import opened Sequences
  import opened Text
  import opened Packing

  datatype ChunkRow = ChunkRow(id: int, text: string)

  datatype Window = Window(chunkId: int, text: string)

  /** The measure of a chunk in the configured unit. */
  function Measure(inWords: bool): ChunkRow -> nat {
    if inWords then (c: ChunkRow) => WordCount(c.text) else (c: ChunkRow) => |c.text|
  }

  function WindowLimits(size: int): Limits { Limits(0, size, None) }

  /** "\n\n".join */
  function Join(texts: seq<string>): string {
    if texts == [] then ""
    else if |texts| == 1 then texts[0]
    else Join(texts[..|texts| - 1]) + "\n\n" + texts[|texts| - 1]
  }

  function Texts(group: seq<ChunkRow>): (texts: seq<string>)
    ensures |texts| == |group|
  {
    if group == [] then [] else Texts(group[..|group| - 1]) + [group[|group| - 1].text]
  }

  function WindowOf(group: seq<ChunkRow>): Window
    requires group != []
  {
    Window(group[0].id, Join(Texts(group)))
  }

  predicate NonEmpty(groups: seq<seq<ChunkRow>>) {
    forall i | 0 <= i < |groups| :: groups[i] != []
  }

  function WindowsOf(groups: seq<seq<ChunkRow>>): (windows: seq<Window>)
    requires NonEmpty(groups)
    ensures |windows| == |groups| && forall i | 0 <= i < |groups| :: windows[i] == WindowOf(groups[i])
  {
    if groups == [] then [] else WindowsOf(groups[..|groups| - 1]) + [WindowOf(groups[|groups| - 1])]
  }

  lemma OpenBatchGrows(group: seq<ChunkRow>, c: ChunkRow, w: ChunkRow -> nat)
    ensures Texts(group + [c]) == Texts(group) + [c.text]
    ensures Sum(w, group + [c]) == Sum(w, group) + w(c)
    ensures Texts([]) == [] && Sum(w, []) == 0
  {
    SumAppendOne(w, group, c);
    assert (group + [c])[..|group|] == group;
  }

  lemma WindowsGrow(groups: seq<seq<ChunkRow>>, group: seq<ChunkRow>)
    requires NonEmpty(groups) && group != []
    ensures NonEmpty(groups + [group])
    ensures WindowsOf(groups + [group]) == WindowsOf(groups) + [WindowOf(group)]
  {
    assert (groups + [group])[..|groups|] == groups;
  }

  function Singletons(chunks: seq<ChunkRow>): (groups: seq<seq<ChunkRow>>)
    ensures NonEmpty(groups)
  {
    if chunks == [] then [] else Singletons(chunks[..|chunks| - 1]) + [[chunks[|chunks| - 1]]]
  }

  /** One window per chunk. */
  function OwnWindows(chunks: seq<ChunkRow>): (windows: seq<Window>)
  {
    seq(|chunks|, i requires 0 <= i < |chunks| => Window(chunks[i].id, chunks[i].text))
  }

  lemma {:induction false} OwnWindowsAre(chunks: seq<ChunkRow>)
    ensures OwnWindows(chunks) == WindowsOf(Singletons(chunks))
  {
    if chunks != [] {
      var front, c := chunks[..|chunks| - 1], chunks[|chunks| - 1];
      OwnWindowsAre(front);
      WindowsGrow(Singletons(front), [c]);
      assert Texts([c]) == Texts([]) + [c.text];
      assert OwnWindows(chunks) == OwnWindows(front) + [Window(c.id, c.text)];
    }
  }

  /** The chunk groups the windows stand for: one each for a non-positive size, else greedily packed. */
  function WindowGroups(chunks: seq<ChunkRow>, size: int, inWords: bool): (groups: seq<seq<ChunkRow>>)
    ensures NonEmpty(groups)
  {
    if size <= 0 then Singletons(chunks)
    else
      GreedyIsPacking(Measure(inWords), WindowLimits(size), [], chunks);
      Greedy(Measure(inWords), WindowLimits(size), [], chunks)
  }

  /** The open batch and the windows made so far, against the chunks still to come. */
  ghost predicate Batching(chunks: seq<ChunkRow>, size: int, inWords: bool, closed: seq<seq<ChunkRow>>,
                           current: seq<ChunkRow>,
                           rest: seq<ChunkRow>, windows: seq<Window>, ids: seq<int>, texts: seq<string>, batchSize: int)
  {
    && NonEmpty(closed) && windows == WindowsOf(closed)
    && size > 0
    && WindowGroups(chunks, size, inWords) == closed + Greedy(Measure(inWords), WindowLimits(size), current, rest)
    && |ids| == |current| && (current != [] ==> ids[0] == current[0].id)
    && texts == Texts(current) && batchSize == Sum(Measure(inWords), current)
  }

  lemma CloseBatch(chunks: seq<ChunkRow>, size: int, inWords: bool, closed: seq<seq<ChunkRow>>, current: seq<ChunkRow>,
                   x: ChunkRow, rest: seq<ChunkRow>, windows: seq<Window>, ids: seq<int>, texts: seq<string>,
                   batchSize: int)
    requires Batching(chunks, size, inWords, closed, current, [x] + rest, windows, ids, texts, batchSize)
    requires current != [] && batchSize + Measure(inWords)(x) > size
    ensures Batching(chunks, size, inWords, closed + [current], [], [x] + rest,
                     windows + [Window(ids[0], Join(texts))], [], [], 0)
  {
    var w, lim := Measure(inWords), WindowLimits(size);
    GreedyStep(w, lim, current, x, rest);
    GreedyStep(w, lim, [], x, rest);
    Unit([x]);
    hide Greedy, Sum, Fits, Join, Measure, WindowGroups;
    Regroup(closed, current, Greedy(w, lim, [x], rest));
    WindowsGrow(closed, current);
    OpenBatchGrows([], x, w);
  }

  lemma ExtendBatch(chunks: seq<ChunkRow>, size: int, inWords: bool, closed: seq<seq<ChunkRow>>, current: seq<ChunkRow>,
                    x: ChunkRow, rest: seq<ChunkRow>, windows: seq<Window>, ids: seq<int>, texts: seq<string>,
                    batchSize: int)
    requires Batching(chunks, size, inWords, closed, current, [x] + rest, windows, ids, texts, batchSize)
    requires current == [] || batchSize + Measure(inWords)(x) <= size
    ensures Batching(chunks, size, inWords, closed, current + [x], rest, windows,
                     ids + [x.id], texts + [x.text], batchSize + Measure(inWords)(x))
  {
    GreedyStep(Measure(inWords), WindowLimits(size), current, x, rest);
    hide Greedy, Sum, Fits, Join, Measure, WindowGroups, WindowsOf;
    OpenBatchGrows(current, x, Measure(inWords));
  }

  lemma EndBatching(chunks: seq<ChunkRow>, size: int, inWords: bool, closed: seq<seq<ChunkRow>>, current: seq<ChunkRow>,
                    windows: seq<Window>, ids: seq<int>, texts: seq<string>, batchSize: int)
    requires Batching(chunks, size, inWords, closed, current, [], windows, ids, texts, batchSize)
    ensures WindowsOf(WindowGroups(chunks, size, inWords)) ==
            windows + if current == [] then [] else [Window(ids[0], Join(texts))]
    ensures |texts| == |ids| == |current|
  {
    GreedyEnd(Measure(inWords), WindowLimits(size), current);
    Unit(closed);
    if current != [] { WindowsGrow(closed, current); }
  }

  method MakeGraphWindows(chunks: seq<ChunkRow>, size: int, inWords: bool) returns (windows: seq<Window>)
    ensures windows == WindowsOf(WindowGroups(chunks, size, inWords))
  {
    if size <= 0 {
      OwnWindowsAre(chunks);
      return OwnWindows(chunks);
    }
    windows := [];
    var batchIds: seq<int> := [];
    var batchTexts: seq<string> := [];
    var batchSize := 0;
    ghost var closed: seq<seq<ChunkRow>> := [];
    ghost var current: seq<ChunkRow> := [];
    assert chunks[0..] == chunks;
    assert Batching(chunks, size, inWords, [], [], chunks, [], [], [], 0);
    hide Batching, NonEmpty, WindowGroups, Join, Measure, WindowsOf;
    for k := 0 to |chunks|
      invariant Batching(chunks, size, inWords, closed, current, chunks[k..], windows, batchIds, batchTexts, batchSize)
      invariant |batchTexts| == |batchIds| == |current|
    {
      var chunk := chunks[k];
      SplitAt(chunks, k);
      if batchSize + Measure(inWords)(chunk) > size && batchTexts != [] {
        CloseBatch(chunks, size, inWords, closed, current, chunk, chunks[k + 1..], windows, batchIds, batchTexts,
                   batchSize);
        windows := windows + [Window(batchIds[0], Join(batchTexts))];
        closed, current := closed + [current], [];
        batchIds := [];
        batchTexts := [];
        batchSize := 0;
      }
      ExtendBatch(chunks, size, inWords, closed, current, chunk, chunks[k + 1..], windows, batchIds, batchTexts,
                  batchSize);
      batchIds := batchIds + [chunk.id];
      batchTexts := batchTexts + [chunk.text];
      batchSize := batchSize + Measure(inWords)(chunk);
      current := current + [chunk];
    }
    assert chunks[|chunks|..] == [];
    EndBatching(chunks, size, inWords, closed, current, windows, batchIds, batchTexts, batchSize);
    Unit(windows);
    if batchTexts != [] {
      windows := windows + [Window(batchIds[0], Join(batchTexts))];
    }
  }

  /** Every chunk is in exactly one window, in order, and no in-order grouping within the size has fewer windows. */
  lemma WindowsArePacking(chunks: seq<ChunkRow>, size: int, inWords: bool)
    requires size > 0
    ensures IsPacking(Measure(inWords), WindowLimits(size), chunks, WindowGroups(chunks, size, inWords))
    ensures forall other | IsPacking(Measure(inWords), WindowLimits(size), chunks, other) ::
              |WindowGroups(chunks, size, inWords)| <= |other|
  {
    var w, lim := Measure(inWords), WindowLimits(size);
    assert [] + chunks == chunks;
    GreedyIsPacking(w, lim, [], chunks);
    forall other | IsPacking(w, lim, chunks, other) ensures |WindowGroups(chunks, size, inWords)| <= |other| {
      GreedyIsOptimal(w, lim, [], chunks, other);
    }
  }

  /** A window has exactly the words of its chunks; its length also counts the separators between them. */
  lemma {:induction false} WindowSize(group: seq<ChunkRow>)
    requires group != []
    ensures WordCount(WindowOf(group).text) == Sum(Measure(true), group)
    ensures |WindowOf(group).text| == Sum(Measure(false), group) + 2 * (|group| - 1)
  {
    var front, c := group[..|group| - 1], group[|group| - 1];
    if |group| > 1 {
      WindowSize(front);
      assert Texts(group)[..|group| - 1] == Texts(front);
      WordCountJoin(Join(Texts(front)), c.text);
    } else {
      assert front == [];
      assert Sum(Measure(true), front) == 0 && Sum(Measure(false), front) == 0;
    }
  }

  /** A window's chunks are chunks of the document. */
  lemma GroupsHoldChunks(chunks: seq<ChunkRow>, size: int, inWords: bool, i: nat)
    requires i < |WindowGroups(chunks, size, inWords)|
    ensures forall c | c in WindowGroups(chunks, size, inWords)[i] :: c in chunks
  {
    if size <= 0 {
      SingletonsHold(chunks, i);
    } else {
      WindowsArePacking(chunks, size, inWords);
      FlattenHolds(WindowGroups(chunks, size, inWords), i);
    }
  }

  lemma {:induction false} SingletonsHold(chunks: seq<ChunkRow>, i: nat)
    requires i < |Singletons(chunks)|
    ensures forall c | c in Singletons(chunks)[i] :: c in chunks
  {
    var front := chunks[..|chunks| - 1];
    assert chunks == front + [chunks[|chunks| - 1]];
    if i < |Singletons(front)| { SingletonsHold(front, i); }
  }

  lemma {:induction false} FlattenHolds<T>(groups: seq<seq<T>>, i: nat)
    requires i < |groups|
    ensures forall x | x in groups[i] :: x in Flatten(groups)
  {
    if i > 0 { FlattenHolds(groups[1..], i - 1); }
  }

  /** A window of several chunks, more than the size long. */
  predicate Overflows(group: seq<ChunkRow>, size: int) {
    |group| > 1 && |WindowOf(group).text| > size
  }

  /** Measured in words a window of several chunks respects the size. Measured in characters it exceeds the size by the
      separators at most. */
  lemma WindowBound(chunks: seq<ChunkRow>, size: int, i: nat)
    requires size > 0
    ensures i < |WindowGroups(chunks, size, true)| && |WindowGroups(chunks, size, true)[i]| > 1 ==>
              WordCount(WindowsOf(WindowGroups(chunks, size, true))[i].text) <= size
    ensures i < |WindowGroups(chunks, size, false)| && |WindowGroups(chunks, size, false)[i]| > 1 ==>
              var group := WindowGroups(chunks, size, false)[i];
              |WindowsOf(WindowGroups(chunks, size, false))[i].text| <= size + 2 * (|group| - 1)
  {
    hide WordCount;
    WindowsArePacking(chunks, size, true);
    WindowsArePacking(chunks, size, false);
    if i < |WindowGroups(chunks, size, true)| { WindowSize(WindowGroups(chunks, size, true)[i]); }
    if i < |WindowGroups(chunks, size, false)| { WindowSize(WindowGroups(chunks, size, false)[i]); }
  }

  // ---- windows of characters that are too long ----

  /** Chunks of one character each. */
  function Letters(n: nat): (chunks: seq<ChunkRow>)
    ensures |chunks| == n && forall i | 0 <= i < n :: chunks[i] == ChunkRow(i, "a")
  {
    if n == 0 then [] else Letters(n - 1) + [ChunkRow(n - 1, "a")]
  }

  lemma {:induction false} LettersSum(n: nat)
    ensures Sum(Measure(false), Letters(n)) == n
  {
    if n > 0 {
      LettersSum(n - 1);
      assert Letters(n)[..n - 1] == Letters(n - 1);
    }
  }

  /** A batch takes letters as long as they fit. */
  lemma {:induction false} LettersPack(size: nat, k: nat)
    requires k <= size && size > 0
    ensures Greedy(Measure(false), WindowLimits(size), Letters(k), Letters(size)[k..]) == [Letters(size)]
    decreases size - k
  {
    var w, lim, all := Measure(false), WindowLimits(size), Letters(size);
    LettersSum(k);
    if k == size {
      assert all[k..] == [] && Letters(k) == all;
      GreedyEnd(w, lim, Letters(k));
    } else {
      SplitAt(all, k);
      GreedyStep(w, lim, Letters(k), all[k], all[k + 1..]);
      assert Letters(k) + [all[k]] == Letters(k + 1);
      hide Greedy, Fits, Sum;
      LettersPack(size, k + 1);
    }
  }

  /** The bound is met: as many one-character chunks as the size make one window, longer by all its separators. */
  lemma LettersOverflow(size: nat)
    requires size > 0
    ensures WindowGroups(Letters(size), size, false) == [Letters(size)]
    ensures |WindowOf(Letters(size)).text| == size + 2 * (size - 1)
  {
    LettersPack(size, 0);
    assert Letters(size)[0..] == Letters(size) && Letters(0) == [];
    LettersSum(size);
    WindowSize(Letters(size));
  }

  ghost predicate NoneOverflow(chunks: seq<ChunkRow>, size: int) {
    forall i | 0 <= i < |WindowGroups(chunks, size, false)| :: !Overflows(WindowGroups(chunks, size, false)[i], size)
  }

  ghost predicate NoneEmpty(chunks: seq<ChunkRow>) {
    forall i | 0 <= i < |chunks| :: chunks[i].text != ""
  }

  /** Windows of several non-empty chunks, measured in characters, respect every size up to one, where there are none,
      and no size above: for each there is a document with a window that is too long. */
  lemma CharWindowOverflow(size: int)
    ensures (forall chunks | NoneEmpty(chunks) :: NoneOverflow(chunks, size)) <==> size <= 1
  {
    if size <= 1 {
      forall chunks | NoneEmpty(chunks) ensures NoneOverflow(chunks, size) {
        forall i | 0 <= i < |WindowGroups(chunks, size, false)|
          ensures |WindowGroups(chunks, size, false)[i]| <= 1
        {
          TinyGroups(chunks, size, i);
        }
      }
    } else {
      LettersOverflow(size);
      var chunks := Letters(size);
      assert NoneEmpty(chunks) && Overflows(WindowGroups(chunks, size, false)[0], size);
      assert !NoneOverflow(chunks, size);
    }
  }

  lemma TinyGroups(chunks: seq<ChunkRow>, size: int, i: nat)
    requires size <= 1 && NoneEmpty(chunks) && i < |WindowGroups(chunks, size, false)|
    ensures |WindowGroups(chunks, size, false)[i]| <= 1
  {
    var group := WindowGroups(chunks, size, false)[i];
    if size <= 0 {
      SingletonsAre(chunks, i);
    } else {
      WindowsArePacking(chunks, size, false);
      GroupsHoldChunks(chunks, size, false, i);
      hide WindowGroups;
      forall k | 0 <= k < |group| ensures group[k].text != "" {
        assert group[k] in group && group[k] in chunks;
      }
      SumOfNonEmpty(group);
    }
  }

  lemma {:induction false} SingletonsAre(chunks: seq<ChunkRow>, i: nat)
    requires i < |Singletons(chunks)|
    ensures |Singletons(chunks)[i]| == 1
  {
    var front := chunks[..|chunks| - 1];
    if i < |Singletons(front)| { SingletonsAre(front, i); }
  }

  lemma {:induction false} SumOfNonEmpty(group: seq<ChunkRow>)
    requires forall k | 0 <= k < |group| :: group[k].text != ""
    ensures Sum(Measure(false), group) >= |group|
  {
    if group != [] { SumOfNonEmpty(group[..|group| - 1]); }
  }
}
