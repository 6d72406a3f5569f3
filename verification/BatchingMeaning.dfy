/** What windows hold and what batched calls answer, said of chunks, queries and calls alone
    (domain/graph/pipeline.py _make_graph_windows, adapters/llm/providers.py disambiguate_batch). */
module BatchingMeaning {
  import opened Wrappers
  import opened Sequences
  import opened Packing
  import opened GraphWindows
  import opened GardenerDecisions
  import opened Disambiguation

  // ---- the text of a window ----

  /** Where the chunks of a window stand in its text: each after the one before it and an empty line, with nothing
      before the first or after the last. */
  ghost predicate StandAt(group: seq<ChunkRow>, text: string, at: seq<nat>) {
    && |at| == |group| > 0 && at[0] == 0
    && (forall k | 0 <= k < |group| - 1 :: at[k + 1] == at[k] + |group[k].text| + 2)
    && |text| == at[|group| - 1] + |group[|group| - 1].text|
    && (forall k | 0 <= k < |group| :: StandsAt(text, at[k], group[k].text))
    && (forall k | 0 <= k < |group| - 1 :: StandsAt(text, at[k] + |group[k].text|, "\n\n"))
  }

  predicate StandsAt(text: string, p: nat, part: string) {
    p + |part| <= |text| && text[p..p + |part|] == part
  }

  /** A window is named by its first chunk, and its text is those of its chunks with an empty line between them. */
  lemma {:induction false} WindowText(group: seq<ChunkRow>) returns (at: seq<nat>)
    requires group != []
    ensures WindowOf(group).chunkId == group[0].id && StandAt(group, WindowOf(group).text, at)
  {
    hide StandAt;
    var front, c := group[..|group| - 1], group[|group| - 1];
    assert group == front + [c];
    OpenBatchGrows(front, c, (x: ChunkRow) => 0);
    if front == [] {
      at := [0];
      OneChunk(c);
      assert group == [c] && Join(Texts(group)) == c.text;
    } else {
      var before := WindowText(front);
      var text, all := Join(Texts(front)), Join(Texts(group));
      assert Texts(group)[..|Texts(group)| - 1] == Texts(front);
      assert all == text + "\n\n" + c.text;
      hide Join, Texts;
      at := before + [|text| + 2];
      OneMoreChunk(front, c, text, before);
    }
  }

  lemma OneChunk(c: ChunkRow)
    ensures StandAt([c], c.text, [0])
  {
  }

  lemma OneMoreChunk(front: seq<ChunkRow>, c: ChunkRow, text: string, before: seq<nat>)
    requires StandAt(front, text, before)
    ensures StandAt(front + [c], text + "\n\n" + c.text, before + [|text| + 2])
  {
    hide StandsAt;
    var tail := "\n\n" + c.text;
    var all, group, at := text + tail, front + [c], before + [|text| + 2];
    assert text + "\n\n" + c.text == all;
    NewPart(text, c.text);
    forall k | 0 <= k < |front| ensures StandsAt(all, at[k], group[k].text) {
      StillStands(text, tail, all, at[k], group[k].text);
    }
    forall k | 0 <= k < |front| - 1 ensures StandsAt(all, at[k] + |group[k].text|, "\n\n") {
      StillStands(text, tail, all, at[k] + |group[k].text|, "\n\n");
    }
  }

  lemma NewPart(text: string, part: string)
    ensures StandsAt(text + ("\n\n" + part), |text|, "\n\n") && StandsAt(text + ("\n\n" + part), |text| + 2, part)
  {
  }

  lemma StillStands(text: string, more: string, all: string, p: nat, part: string)
    requires all == text + more && StandsAt(text, p, part)
    ensures StandsAt(all, p, part)
  {
    assert all[p..p + |part|] == text[p..p + |part|];
  }

  // ---- the answers to a batch ----

  /** The answer a query gets from those of its call: the last one that refers to it by its name, or one that creates a
      new concept; nothing refers to an empty name. */
  ghost predicate IsAnswerTo(answers: seq<Answer>, q: Query, a: Answer) {
    if q.name != "" && exists i :: 0 <= i < |answers| && answers[i].ref == q.name
    then exists i :: 0 <= i < |answers| && answers[i] == a && IsLastFor(answers, q.name, i)
    else a == Answer(q.name, [Proposal(Op(CreateNew, None, 0.0, None, None, None), None)])
  }

  lemma AnswerMeaning(answers: seq<Answer>, q: Query)
    ensures IsAnswerTo(answers, q, AnswerTo(answers, q))
  {
    LastForMeaning(answers, q.name);
    hide LastFor;
  }

  /** The last of the answers that refers to a name. */
  ghost predicate IsLastFor(answers: seq<Answer>, name: string, i: nat) {
    i < |answers| && answers[i].ref == name && forall j | i < j < |answers| :: answers[j].ref != name
  }

  lemma {:induction false} LastForMeaning(answers: seq<Answer>, name: string)
    ensures match LastFor(answers, name)
            case Some(a) =>
              name != "" && exists i :: 0 <= i < |answers| && answers[i] == a && IsLastFor(answers, name, i)
            case None => name == "" || forall i | 0 <= i < |answers| :: answers[i].ref != name
  {
    if answers != [] {
      var n := |answers| - 1;
      if answers[n].ref == name && name != "" {
        assert IsLastFor(answers, name, n);
      } else {
        LastForMeaning(answers[..n], name);
        if LastFor(answers[..n], name).Some? {
          var i :| && 0 <= i < n && answers[..n][i] == LastFor(answers[..n], name).value
                   && IsLastFor(answers[..n], name, i);
          StillLast(answers, name, i);
        }
      }
    }
  }

  lemma StillLast(answers: seq<Answer>, name: string, i: nat)
    requires answers != [] && IsLastFor(answers[..|answers| - 1], name, i) && answers[|answers| - 1].ref != name
    ensures IsLastFor(answers, name, i)
  {
    forall j | i < j < |answers| ensures answers[j].ref != name {
      if j < |answers| - 1 { assert answers[..|answers| - 1][j] == answers[j]; }
    }
  }

  /** The sub-batches of a batch, and the calls they are put to: in order, one call each. */
  ghost predicate AreAsked(cfg: BatchConfig, queries: seq<Query>, groups: seq<seq<nat>>) {
    IsPacking(TokensOf(queries), BatchLimits(cfg), Indices(|queries|), groups)
  }

  /** In a batch of two or more, every query is put to the call of its own sub-batch, in its place, and gets the
      answer of that call; one query is asked by itself. */
  lemma ReplyMeaning(client: Client, cfg: BatchConfig, tick: nat, queries: seq<Query>, groups: seq<seq<nat>>, g: nat,
                     j: nat)
    requires groups == SubBatches(cfg, queries) && BatchReply(client, cfg, tick, queries).Some?
    ensures AreAsked(cfg, queries, groups)
    ensures |queries| == 1 ==>
              client.one(tick, queries[0]).Some? &&
                BatchReply(client, cfg, tick, queries).value ==
                [Answer(queries[0].name, [client.one(tick, queries[0]).value])]
    ensures |queries| >= 2 && g < |groups| && j < |groups[g]| ==>
              var r := BatchReply(client, cfg, tick, queries).value;
              && (forall k | 0 <= k < |groups[g]| :: groups[g][k] < |queries|)
              && var i, reply := groups[g][j], client.many(tick + g, At(queries, groups[g]));
                 i < |r| && reply.Some? && IsAnswerTo(reply.value, queries[i], r[i])
  {
    SubBatchesAreOptimal(cfg, queries, []);
    if |queries| >= 2 && g < |groups| && j < |groups[g]| {
      AnswersAreOwn(client, cfg, tick, queries, g, j);
      hide BatchReply, SubBatches, IsPacking, AnswerTo, IsAnswerTo;
      AnswerMeaning(client.many(tick + g, At(queries, groups[g])).value, queries[groups[g][j]]);
    }
  }
}
