/** A model that links every mention to a given concept, and the windows it gets refused. */
module ResolverRefusals {
  import opened Numbers
  import opened Wrappers
  import opened Sequences
  import opened Text
  import opened GraphTables
  import opened EdgeTable
  import opened GardenerMerge
  import opened GardenerDecisions
  import opened Disambiguation
  import opened Extraction
  import opened ResolverDecisions
  import opened ResolverApply
  import opened Resolver

  // ---- a model that links by name ----

  /** The concept each name is to be linked to. */
  type NameLinks = string -> int

  function LinkTo(id: int): Proposal { Proposal(Op(LinkOnly, None, 1.0, Some(id), None, None), None) }

  function LinkAnswer(links: NameLinks, name: string): Answer { Answer(name, [LinkTo(links(name))]) }

  function LinkAnswers(links: NameLinks, queries: seq<Query>): (r: seq<Answer>)
    ensures |r| == |queries| && forall i | 0 <= i < |r| :: r[i] == LinkAnswer(links, queries[i].name)
  {
    if queries == [] then []
    else LinkAnswers(links, queries[..|queries| - 1]) + [LinkAnswer(links, queries[|queries| - 1].name)]
  }

  function LinkingClient(links: NameLinks): Client {
    Client((_, q: Query) => Some(LinkTo(links(q.name))), (_, queries: seq<Query>) => Some(LinkAnswers(links, queries)))
  }

  /** The same resolver, asking this model. */
  function WithClient(env: Resolving, client: Client): Resolving {
    env.(asking := env.asking.(client := client))
  }

  ghost predicate AllNamed(queries: seq<Query>) { forall i | 0 <= i < |queries| :: queries[i].name != "" }

  lemma LinksReply(links: NameLinks, tick: nat, queries: seq<Query>)
    requires AllNamed(queries)
    ensures ReplyTo(LinkingClient(links), tick, queries) == Some(LinkAnswers(links, queries))
  {
    var answers := LinkAnswers(links, queries);
    forall a | a in answers ensures a == LinkAnswer(links, a.ref) {
      var j :| 0 <= j < |answers| && answers[j] == a;
    }
    var matched := Matched(answers, queries);
    forall i | 0 <= i < |queries| ensures matched[i] == answers[i] {
      var found := LastFor(answers, queries[i].name);
      assert answers[i] in answers && answers[i].ref == queries[i].name;
      assert found.Some? && found.value in answers;
    }
    assert matched == answers;
  }

  lemma {:induction false} LinksReplies(links: NameLinks, tick: nat, queries: seq<Query>, batches: seq<seq<nat>>)
    requires AllNamed(queries) && TotalSize(batches) == |queries|
    ensures Replies(LinkingClient(links), tick, queries, batches) == Some(LinkAnswers(links, queries))
    decreases |batches|
  {
    hide ReplyTo, LinkAnswers, LinkingClient;
    if batches == [] {
      assert LinkAnswers(links, queries) == [];
    } else {
      var n := |queries| - |batches[|batches| - 1]|;
      LinksReplies(links, tick, queries[..n], batches[..|batches| - 1]);
      LinksReply(links, tick + |batches| - 1, queries[n..]);
      var parts := LinkAnswers(links, queries[..n]) + LinkAnswers(links, queries[n..]);
      assert parts == LinkAnswers(links, queries);
    }
  }

  /** Asked about named mentions, the model answers each with its link, however the questions are batched. */
  lemma LinksBatch(links: NameLinks, cfg: BatchConfig, tick: nat, queries: seq<Query>)
    requires AllNamed(queries)
    ensures BatchReply(LinkingClient(links), cfg, tick, queries) == Some(LinkAnswers(links, queries))
  {
    hide Replies;
    if |queries| >= 2 {
      SubBatchesCover(cfg, queries);
      hide SubBatches;
      LinksReplies(links, tick, queries, SubBatches(cfg, queries));
    } else {
      assert LinkAnswers(links, queries) == if queries == [] then [] else [LinkAnswer(links, queries[0].name)];
    }
  }

  // ---- what it makes of a batch ----

  ghost predicate AllMentionsNamed(pending: seq<Pending>) {
    forall k | 0 <= k < |pending| :: pending[k].raw.name != ""
  }

  /** With a call left, a mention offered the concept its name is to be linked to is linked to it. */
  lemma LinksDecision(env: Resolving, links: NameLinks, batch: seq<Pending>, tick: nat, k: nat)
    requires AllMentionsNamed(batch) && k < |batch| && env.asking.floor <= 1.0
    requires links(batch[k].raw.name) in batch[k].candidates
    ensures var d := WithClient(env, LinkingClient(links)).asking.Decisions(batch, true, tick)[k];
            d.kind == LinkOnly && d.linkTo == Some(links(batch[k].raw.name))
  {
    var asking := WithClient(env, LinkingClient(links)).asking;
    asking.DecisionIs(batch, true, tick, k, |batch|);
    LinksReplyAt(asking, links, batch, tick, k);
    hide Asking.Queries, Asking.Asked, BatchReply, LinkAnswers, LinkingClient, Best, Asking.Decisions;
    BestOfOne(LinkTo(links(batch[k].raw.name)));
  }

  lemma LinksReplyAt(asking: Asking, links: NameLinks, batch: seq<Pending>, tick: nat, k: nat)
    requires AllMentionsNamed(batch) && k < |batch| && batch[k].candidates != []
    ensures var reply := BatchReply(LinkingClient(links), asking.batch, tick, asking.Queries(batch, |batch|));
            && reply.Some? && |asking.Asked(batch, k)| < |reply.value|
            && reply.value[|asking.Asked(batch, k)|] == LinkAnswer(links, batch[k].raw.name)
  {
    var queries := asking.Queries(batch, |batch|);
    QueriesNamed(asking, batch, |batch|);
    asking.AskedAt(batch, k, |batch|);
    hide Asking.Queries, Asking.Asked, BatchReply, LinkAnswers, LinkingClient, LinkAnswer, AllNamed;
    LinksBatch(links, asking.batch, tick, queries);
  }

  lemma QueriesNamed(asking: Asking, batch: seq<Pending>, n: nat)
    requires AllMentionsNamed(batch) && n <= |batch|
    ensures AllNamed(asking.Queries(batch, n))
    ensures |asking.Queries(batch, n)| == |asking.Asked(batch, n)|
    ensures forall j | 0 <= j < |asking.Queries(batch, n)| ::
              asking.Asked(batch, n)[j] < |batch| &&
                asking.Queries(batch, n)[j].name == batch[asking.Asked(batch, n)[j]].raw.name
  {
  }

  lemma BestOfOne(p: Proposal)
    requires IsValidPayload(p.op)
    ensures Best([p]) == Some(p)
  {
    assert [p][..0] == [] && Best([]) == None;
  }

  // ---- the window it gets refused ----

  /** The links lead every named mention to the concept that has its name. */
  ghost predicate LinksToNamesakes(env: Resolving, t: Tables, links: NameLinks, pending: seq<Pending>) {
    forall k | 0 <= k < |pending| && OffersNamesake(env, t, pending[k]) ::
      FindByName(env.policy, t, Strip(pending[k].raw.name)) == Some(links(pending[k].raw.name))
  }

  /** While decisions are written the namesake of a mention stays the same concept. */
  lemma SameNamesake(env: Resolving, t: Tables, after: Tables, p: Pending)
    requires Ready(env.policy.edges, t) && Grew(t, after) && forall id | id in p.candidates :: IsActive(t, id)
    requires OffersNamesake(env, t, p)
    ensures FindByName(env.policy, after, Strip(p.raw.name)) == FindByName(env.policy, t, Strip(p.raw.name))
  {
    var name := Strip(p.raw.name);
    var before, now := FindByName(env.policy, t, name), FindByName(env.policy, after, name);
    hide FindByName, Strip, EdgesAreSound, ChunkKeysHold, ConceptKeysHold, SameElsewhere;
    assert IsActive(after, before.value);
    assert now.Some? && now.value <= before.value < t.nextConcept;
    assert IsActive(t, now.value);
  }

  lemma LinksStay(env: Resolving, chunk: int, t: Tables, after: Tables, links: NameLinks, pending: seq<Pending>)
    requires Usable(env, chunk, t) && Grew(t, after) && AllOffered(t, pending)
    requires LinksToNamesakes(env, t, links, pending)
    ensures LinksToNamesakes(env, after, links, pending)
  {
    hide OffersNamesake, Grew, FindByName, Strip, LooksUpActive, Ready;
    forall k | 0 <= k < |pending| && OffersNamesake(env, after, pending[k])
      ensures FindByName(env.policy, after, Strip(pending[k].raw.name)) == Some(links(pending[k].raw.name))
    {
      NamesakeStays(env, t, after, pending[k]);
      SameNamesake(env, t, after, pending[k]);
    }
  }

  /** A batch that holds a mention offered its namesake is refused. */
  lemma BatchIsRefused(env: Resolving, chunk: int, links: NameLinks, w: Work, batch: seq<Pending>, tick: nat, k: nat)
    requires Usable(env, chunk, w.t) && AllOffered(w.t, batch) && AllMentionsNamed(batch) && env.asking.floor <= 1.0
    requires k < |batch| && OffersNamesake(env, w.t, batch[k]) && LinksToNamesakes(env, w.t, links, batch)
    ensures var to := WithClient(env, LinkingClient(links));
            var ds := to.asking.Decisions(batch, true, tick);
            && Usable(to, chunk, w.t) && AllAmong(ds, batch)
            && BatchApplied(to, chunk, w, batch, ds, |batch|).failed
  {
    hide WithClient, LinkingClient, BatchApplied, FindByName, AllAmong, OffersNamesake, Asking.Decisions, AllOffered,
      Usable, Onward, Grew, LinksToNamesakes, Strip, AllMentionsNamed;
    var to := WithClient(env, LinkingClient(links));
    LinkingUsable(env, LinkingClient(links), chunk, w.t);
    var ds := to.asking.Decisions(batch, true, tick);
    BatchDecisionsAreAmong(to, batch, true, tick);
    LinksToOffered(env, w.t, links, batch, k);
    LinksDecision(env, links, batch, tick, k);
    NamesakeSame(env, LinkingClient(links), w.t, batch[k]);
    BatchFails(to, chunk, w, batch, ds, k + 1, |batch|);
    BatchStepFails(to, chunk, w, batch, ds, k);
    NamesakeWhenReached(env, to, chunk, links, w, batch, BatchApplied(to, chunk, w, batch, ds, k).t, k);
  }

  lemma LinkingUsable(env: Resolving, client: Client, chunk: int, t: Tables)
    ensures Usable(WithClient(env, client), chunk, t) <==> Usable(env, chunk, t)
  {
  }

  lemma NamesakeSame(env: Resolving, client: Client, t: Tables, p: Pending)
    ensures OffersNamesake(WithClient(env, client), t, p) == OffersNamesake(env, t, p)
  {
  }

  lemma LinksToOffered(env: Resolving, t: Tables, links: NameLinks, batch: seq<Pending>, k: nat)
    requires k < |batch| && OffersNamesake(env, t, batch[k]) && LinksToNamesakes(env, t, links, batch)
    ensures links(batch[k].raw.name) in batch[k].candidates
  {
    hide FindByName, Strip;
  }

  lemma NamesakeWhenReached(env: Resolving, to: Resolving, chunk: int, links: NameLinks, w: Work, batch: seq<Pending>,
                            before: Tables, k: nat)
    requires Usable(env, chunk, w.t) && AllOffered(w.t, batch) && to == WithClient(env, LinkingClient(links))
    requires Onward(to, chunk, w.t, before)
    requires k < |batch| && OffersNamesake(env, w.t, batch[k]) && LinksToNamesakes(env, w.t, links, batch)
    ensures FindByName(to.policy, before, Strip(batch[k].raw.name)) == Some(links(batch[k].raw.name))
  {
    OnwardUsable(to, chunk, w.t, before);
    SameNamesake(env, w.t, before, batch[k]);
  }

  lemma {:induction false} StagesAreRefused(env: Resolving, chunk: int, links: NameLinks, w: Work,
                                            pending: seq<Pending>, left: Allowance, tick: nat)
    requires Usable(env, chunk, w.t) && AllOffered(w.t, pending) && AllMentionsNamed(pending) && env.asking.floor <= 1.0
    requires env.batchSize > 0 && CanRefuse(env, w.t, pending, left) && LinksToNamesakes(env, w.t, links, pending)
    ensures Usable(WithClient(env, LinkingClient(links)), chunk, w.t)
    ensures ModelStages(WithClient(env, LinkingClient(links)), chunk, w, pending, left, tick).w.failed
    decreases |pending|
  {
    hide Usable, LinksToNamesakes, AllMentionsNamed, WithClient, LinkingClient, Onward, AllOffered, AllAmong,
      BatchApplied, ModelStages, CanRefuse, OffersNamesake, Grew, FindByName, Asking.Decisions, Asking.Spent, Strip;
    var to := WithClient(env, LinkingClient(links));
    LinkingUsable(env, LinkingClient(links), chunk, w.t);
    CanRefuseStep(env, w.t, pending, left);
    LinkingKeeps(env, LinkingClient(links));
    LinksParts(env, w.t, links, pending, Min(env.batchSize, |pending|));
    var m := Min(env.batchSize, |pending|);
    ModelStagesStep(to, chunk, w, pending, left, tick);
    OfferedParts(w.t, pending, m);
    var batch, rest := pending[..m], pending[m..];
    var ds := to.asking.Decisions(batch, left.Left(), tick);
    var after, next := BatchApplied(to, chunk, w, batch, ds, m), left.Minus(to.asking.Spent(batch, left.Left()));
    if left.Left() && exists k | 0 <= k < m :: OffersNamesake(env, w.t, pending[k]) {
      var k :| 0 <= k < m && OffersNamesake(env, w.t, pending[k]);
      assert batch[k] == pending[k];
      BatchIsRefused(env, chunk, links, w, batch, tick, k);
      ModelFailureStays(to, chunk, after, rest, next, tick + m);
    } else {
      SpentIsSame(env, LinkingClient(links), batch, left.Left());
      OnwardUsable(to, chunk, w.t, after.t);
      LinkingUsable(env, LinkingClient(links), chunk, after.t);
      CanRefuseStays(env, chunk, w.t, after.t, rest, next);
      OfferedGrows(w.t, after.t, rest);
      LinksStay(env, chunk, w.t, after.t, links, rest);
      StagesAreRefused(env, chunk, links, after, rest, next, tick + m);
    }
  }

  lemma LinkingKeeps(env: Resolving, client: Client)
    ensures var to := WithClient(env, client);
            to.policy == env.policy && to.batchSize == env.batchSize && to.candidates == env.candidates &&
              to.verdict == env.verdict
  {
  }

  lemma LinksParts(env: Resolving, t: Tables, links: NameLinks, pending: seq<Pending>, m: nat)
    requires m <= |pending| && LinksToNamesakes(env, t, links, pending) && AllMentionsNamed(pending)
    ensures LinksToNamesakes(env, t, links, pending[..m]) && AllMentionsNamed(pending[..m])
    ensures LinksToNamesakes(env, t, links, pending[m..]) && AllMentionsNamed(pending[m..])
  {
    hide FindByName, Strip, OffersNamesake;
    assert forall k | 0 <= k < |pending[m..]| :: pending[m..][k] == pending[m + k];
  }

  lemma SpentIsSame(env: Resolving, client: Client, batch: seq<Pending>, left: bool)
    ensures WithClient(env, client).asking.Spent(batch, left) == env.asking.Spent(batch, left)
  {
    AskedIsSame(env, client, batch, |batch|);
  }

  lemma {:induction false} AskedIsSame(env: Resolving, client: Client, batch: seq<Pending>, n: nat)
    requires n <= |batch|
    ensures WithClient(env, client).asking.Asked(batch, n) == env.asking.Asked(batch, n)
  {
    if n > 0 { AskedIsSame(env, client, batch, n - 1); }
  }

  /** The deterministic stages do not ask the model. */
  lemma {:induction false} FirstStagesSame(env: Resolving, client: Client, chunk: int, t: Tables,
                                           raws: seq<ExtractedConcept>, n: nat)
    requires Usable(env, chunk, t) && n <= |raws|
    ensures Usable(WithClient(env, client), chunk, t)
    ensures FirstStages(WithClient(env, client), chunk, t, raws, n) == FirstStages(env, chunk, t, raws, n)
  {
    hide Usable, Onward, FirstStages, FirstStage, WithClient;
    var to := WithClient(env, client);
    LinkingUsable(env, client, chunk, t);
    if n == 0 {
      NothingStaged(env, chunk, t, raws);
      NothingStaged(to, chunk, t, raws);
    } else {
      FirstStagesSame(env, client, chunk, t, raws, n - 1);
      FirstStagesStep(env, chunk, t, raws, n - 1);
      FirstStagesStep(to, chunk, t, raws, n - 1);
      FirstStageSame(env, client, chunk, t, FirstStages(env, chunk, t, raws, n - 1), n - 1, raws[n - 1]);
    }
  }

  lemma NothingStaged(env: Resolving, chunk: int, t: Tables, raws: seq<ExtractedConcept>)
    requires Usable(env, chunk, t)
    ensures FirstStages(env, chunk, t, raws, 0) == Stage(Work(t, map[], false), [])
  {
  }

  lemma FirstStageSame(env: Resolving, client: Client, chunk: int, t: Tables, before: Stage, idx: nat,
                       raw: ExtractedConcept)
    requires Usable(env, chunk, before.w.t) && Onward(env, chunk, t, before.w.t) && !before.w.failed
    ensures var to := WithClient(env, client);
            && Usable(to, chunk, before.w.t) && Onward(to, chunk, t, before.w.t)
            && FirstStage(to, chunk, t, before, idx, raw) == FirstStage(env, chunk, t, before, idx, raw)
  {
    hide Ready, Applied, Grew, Fails, ResolvedBy;
  }

  /** The links of a window: every name to the concept that has it, ignoring case, after the deterministic stages. */
  function NamesakeLinks(env: Resolving, t: Tables): NameLinks {
    name => match FindByName(env.policy, t, Strip(name)) case Some(id) => id case None => 0
  }

  /** And conversely: if a waiting mention that a call can reach is offered its namesake, a model that links mentions to
      their namesakes gets the window refused. */
  lemma RefusalIsPossible(env: Resolving, chunk: int, t: Tables, raws: seq<ExtractedConcept>, left: Allowance,
                          tick: nat)
    requires Usable(env, chunk, t) && RefusalPossible(env, chunk, t, raws, left)
    requires env.asking.floor <= 1.0 && env.policy.edges.names.Normalize("") == "" && DistinctNames(env, raws)
    ensures exists links :: CanBeRefused(env, LinkingClient(links), chunk, t, raws, left, tick)
  {
    var first := FirstStages(env, chunk, t, raws, |raws|);
    PendingOffered(env, chunk, t, raws, |raws|);
    FirstStagesRecord(env, chunk, t, raws, |raws|);
    MentionsAreNamed(env, raws, first.pending);
    var links := NamesakeLinks(env, first.w.t);
    assert LinksToNamesakes(env, first.w.t, links, first.pending);
    FirstStagesSame(env, LinkingClient(links), chunk, t, raws, |raws|);
    hide Onward, Usable, FirstStages, ModelStages, AllOffered, CanRefuse, LinksToNamesakes, WithClient, LinkingClient,
      NamesakeLinks;
    OnwardUsable(env, chunk, t, first.w.t);
    StagesAreRefused(env, chunk, links, first.w, first.pending, left, tick);
    assert CanBeRefused(env, LinkingClient(links), chunk, t, raws, left, tick);
  }

  lemma MentionsAreNamed(env: Resolving, raws: seq<ExtractedConcept>, pending: seq<Pending>)
    requires AreMentions(env, raws, pending) && env.policy.edges.names.Normalize("") == ""
    ensures AllMentionsNamed(pending)
  {
    hide Names.Normalize;
    forall k | 0 <= k < |pending| ensures pending[k].raw.name != "" {
      assert IsMention(env, raws, pending[k].idx, pending[k].raw);
    }
  }

  lemma {:induction false} CanRefuseSame(env: Resolving, client: Client, t: Tables, pending: seq<Pending>,
                                         left: Allowance)
    requires env.batchSize > 0
    ensures CanRefuse(WithClient(env, client), t, pending, left) == CanRefuse(env, t, pending, left)
    decreases |pending|
  {
    hide OffersNamesake, CanRefuse, WithClient, Asking.Spent;
    var to := WithClient(env, client);
    LinkingKeeps(env, client);
    CanRefuseStep(env, t, pending, left);
    CanRefuseStep(to, t, pending, left);
    if pending != [] {
      var m := Min(env.batchSize, |pending|);
      SpentIsSame(env, client, pending[..m], left.Left());
      CanRefuseSame(env, client, t, pending[m..], left.Minus(env.asking.Spent(pending[..m], left.Left())));
      forall k | 0 <= k < m ensures OffersNamesake(to, t, pending[k]) == OffersNamesake(env, t, pending[k]) {
        NamesakeSame(env, client, t, pending[k]);
      }
    }
  }

  /** Some model gets a statement of the window refused if and only if a waiting mention that a call can reach is
      offered its namesake. */
  lemma RefusalCondition(env: Resolving, chunk: int, t: Tables, raws: seq<ExtractedConcept>, left: Allowance, tick: nat)
    requires Usable(env, chunk, t)
    requires env.asking.floor <= 1.0 && env.policy.edges.names.Normalize("") == "" && DistinctNames(env, raws)
    ensures (exists client :: CanBeRefused(env, client, chunk, t, raws, left, tick)) <==>
              RefusalPossible(env, chunk, t, raws, left)
  {
    if RefusalPossible(env, chunk, t, raws, left) {
      RefusalIsPossible(env, chunk, t, raws, left, tick);
      var links: NameLinks :| CanBeRefused(env, LinkingClient(links), chunk, t, raws, left, tick);
    } else {
      hide Usable, Resolved, WithClient, RefusalPossible;
      forall client ensures !CanBeRefused(env, client, chunk, t, raws, left, tick) {
        LinkingUsable(env, client, chunk, t);
        PossibleSame(env, client, chunk, t, raws, left);
        NeverRefused(WithClient(env, client), chunk, t, raws, left, tick);
      }
    }
  }

  ghost predicate CanBeRefused(env: Resolving, client: Client, chunk: int, t: Tables, raws: seq<ExtractedConcept>,
                               left: Allowance, tick: nat) {
    Usable(WithClient(env, client), chunk, t) && Resolved(WithClient(env, client), chunk, t, raws, left, tick).w.failed
  }

  lemma PossibleSame(env: Resolving, client: Client, chunk: int, t: Tables, raws: seq<ExtractedConcept>,
                     left: Allowance)
    requires Usable(env, chunk, t) && Usable(WithClient(env, client), chunk, t)
    ensures RefusalPossible(WithClient(env, client), chunk, t, raws, left) == RefusalPossible(env, chunk, t, raws, left)
  {
    FirstStagesSame(env, client, chunk, t, raws, |raws|);
    hide WithClient, CanRefuse, FirstStages;
    var first := FirstStages(env, chunk, t, raws, |raws|);
    CanRefuseSame(env, client, first.w.t, first.pending, left);
  }

  // ---- a refused window ----

  /** One active concept that has lost the alias of its own name. */
  function LoneTables(): Tables {
    Tables({1}, map[1 := 1], map[], map[], map[1 := Concept("a", ["a"], Some(Topic), true, false)], map[], 2, 0, map[],
           {}, {}, map[], {})
  }

  const MENTION := ExtractedConcept("a", "", "", "topic")

  /** Lookups that offer concept 1 whenever it is active, rules that settle nothing, and one call a window. */
  function ToFirst(): NameLinks { _ => 1 }

  function LoneEnv(): Resolving {
    Resolving(ResolverPolicy(EdgePolicy(Names(s => s), 10.0, 300), s => s),
              (t: Tables, _) => if IsActive(t, 1) then [1] else [], (_, _, _) => None, (_, _) => false,
              Asking(LinkingClient(ToFirst()), BatchConfig(30000, 8), 0.65, _ => 0), 5)
  }

  /** The mention "a" is not found by alias, is offered the concept "a", and the model links it there: the statement is
      refused and the window lost. */
  lemma LoneWindowIsRefused()
    ensures Usable(LoneEnv(), 1, LoneTables())
    ensures RefusalPossible(LoneEnv(), 1, LoneTables(), [MENTION], Allowance(1, 1))
    ensures Resolved(LoneEnv(), 1, LoneTables(), [MENTION], Allowance(1, 1), 0).w.failed
  {
    var env, t, raws := LoneEnv(), LoneTables(), [MENTION];
    LoneUsable();
    LoneFirstStages();
    var pending := [Pending(0, MENTION, [1])];
    LoneNamesake();
    assert OffersNamesake(env, t, pending[0]);
    PendingOffered(env, 1, t, raws, 1);
    hide Usable, FirstStages, ModelStages, LoneEnv, LoneTables, OffersNamesake, FindByName, AllOffered;
    CanRefuseStep(env, t, pending, Allowance(1, 1));
    LoneStages();
  }

  lemma LoneUsable()
    ensures Usable(LoneEnv(), 1, LoneTables())
    ensures LoneEnv().batchSize == 5
  {
  }

  lemma LoneNamesake()
    ensures FindByName(LoneEnv().policy, LoneTables(), Strip("a")) == Some(1)
  {
    assert Strip("a") == "a";
    assert IsActive(LoneTables(), 1);
  }

  lemma LoneFirstStages()
    ensures Usable(LoneEnv(), 1, LoneTables())
    ensures FirstStages(LoneEnv(), 1, LoneTables(), [MENTION], 1) ==
              Stage(Work(LoneTables(), map[], false), [Pending(0, MENTION, [1])])
  {
    hide FirstStages, FirstStage, Usable, Onward, LoneEnv, LoneTables;
    LoneUsable();
    FirstStagesStep(LoneEnv(), 1, LoneTables(), [MENTION], 0);
    NothingStaged(LoneEnv(), 1, LoneTables(), [MENTION]);
    LoneFirstStage();
  }

  lemma LoneFirstStage()
    requires Usable(LoneEnv(), 1, LoneTables()) && Onward(LoneEnv(), 1, LoneTables(), LoneTables())
    ensures FirstStage(LoneEnv(), 1, LoneTables(), Stage(Work(LoneTables(), map[], false), []), 0, MENTION) ==
            Stage(Work(LoneTables(), map[], false), [Pending(0, MENTION, [1])])
  {
    var env, t := LoneEnv(), LoneTables();
    LoneNorm();
    hide Norm, Usable, Onward, Did;
    assert AliasMatch(t, Norm(env, MENTION)) == None;
    assert env.candidates(t, MENTION) == [1];
  }

  lemma LoneNorm()
    ensures Norm(LoneEnv(), MENTION) != ""
  {
    assert Strip("a") == "a";
  }

  lemma LoneStages()
    requires Usable(LoneEnv(), 1, LoneTables()) && AllOffered(LoneTables(), [Pending(0, MENTION, [1])])
    ensures ModelStages(LoneEnv(), 1, Work(LoneTables(), map[], false), [Pending(0, MENTION, [1])], Allowance(1, 1),
                        0).w.failed
  {
    var env, t, w, pending := LoneEnv(), LoneTables(), Work(LoneTables(), map[], false), [Pending(0, MENTION, [1])];
    LoneCanRefuse();
    LoneAsksItself();
    hide *;
    StagesAreRefused(env, 1, ToFirst(), w, pending, Allowance(1, 1), 0);
  }

  lemma LoneAsksItself()
    ensures var env := LoneEnv();
            WithClient(env, LinkingClient(ToFirst())) == env && env.asking.floor <= 1.0 && env.batchSize > 0
  {
    hide LinkingClient, ToFirst;
  }

  lemma LoneCanRefuse()
    ensures var env, t, pending := LoneEnv(), LoneTables(), [Pending(0, MENTION, [1])];
            && env.batchSize > 0 && CanRefuse(env, t, pending, Allowance(1, 1)) && AllMentionsNamed(pending)
            && LinksToNamesakes(env, t, ToFirst(), pending) && Work(t, map[], false).t == t
  {
    LoneLinks(ToFirst());
    hide LoneTables, OffersNamesake, FindByName, LinksToNamesakes, AllMentionsNamed, LinkingClient, ToFirst;
    CanRefuseStep(LoneEnv(), LoneTables(), [Pending(0, MENTION, [1])], Allowance(1, 1));
  }

  lemma LoneLinks(links: NameLinks)
    requires links("a") == 1
    ensures LinksToNamesakes(LoneEnv(), LoneTables(), links, [Pending(0, MENTION, [1])])
    ensures OffersNamesake(LoneEnv(), LoneTables(), Pending(0, MENTION, [1]))
    ensures AllMentionsNamed([Pending(0, MENTION, [1])])
  {
    hide FindByName, Strip, LoneTables;
    LoneNamesake();
  }
}
