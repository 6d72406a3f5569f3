/** Which documents some model can get refused: a model is free to answer the windows before as it likes. */
module DocumentRefusals {
  import opened Numbers
  import opened Wrappers
  import opened Sequences
  import opened Text
  import opened GraphTables
  import opened EdgeTable
  import opened GardenerMerge
  import opened Grouping
  import opened Packing
  import opened Disambiguation
  import opened Extraction
  import opened ResolverDecisions
  import opened ResolverApply
  import opened Resolver
  import opened ResolverRefusals
  import opened GraphBuild

  // ---- models that answer alike ----

  /** The models answer alike in the calls with these numbers. */
  ghost predicate Agree(a: Client, b: Client, from: nat, to: nat) {
    && (forall k: nat, q: Query | from <= k < to :: a.one(k, q) == b.one(k, q))
    && (forall k: nat, qs: seq<Query> | from <= k < to :: a.many(k, qs) == b.many(k, qs))
  }

  lemma {:induction false} RepliesAgree(a: Client, b: Client, tick: nat, queries: seq<Query>, batches: seq<seq<nat>>)
    requires TotalSize(batches) == |queries| && Agree(a, b, tick, tick + |batches|)
    ensures Replies(a, tick, queries, batches) == Replies(b, tick, queries, batches)
    decreases |batches|
  {
    if batches != [] {
      var n := |queries| - |batches[|batches| - 1]|;
      RepliesAgree(a, b, tick, queries[..n], batches[..|batches| - 1]);
      hide Matched, Agree;
      ReplyAgrees(a, b, tick + |batches| - 1, queries[n..], tick, tick + |batches|);
    }
  }

  lemma ReplyAgrees(a: Client, b: Client, k: nat, queries: seq<Query>, from: nat, to: nat)
    requires Agree(a, b, from, to) && from <= k < to
    ensures ReplyTo(a, k, queries) == ReplyTo(b, k, queries)
  {
  }

  /** There are no more sub-batches than questions. */
  lemma SubBatchesAreFew(cfg: BatchConfig, queries: seq<Query>)
    ensures |SubBatches(cfg, queries)| <= |queries| == TotalSize(SubBatches(cfg, queries))
  {
    SubBatchesAreOptimal(cfg, queries, []);
    SubBatchesCover(cfg, queries);
    hide SubBatches, Indices;
    var batches := SubBatches(cfg, queries);
    forall i | 0 <= i < |batches| ensures batches[i] != [] {
      assert Packing.Fits(TokensOf(queries), BatchLimits(cfg), batches[i]);
    }
    NonEmptyAreFew(batches);
  }

  lemma {:induction false} NonEmptyAreFew(batches: seq<seq<nat>>)
    requires forall i | 0 <= i < |batches| :: batches[i] != []
    ensures |batches| <= TotalSize(batches)
  {
    if batches != [] { NonEmptyAreFew(batches[..|batches| - 1]); }
  }

  lemma BatchAgrees(a: Client, b: Client, cfg: BatchConfig, tick: nat, queries: seq<Query>)
    requires Agree(a, b, tick, tick + |queries|)
    ensures BatchReply(a, cfg, tick, queries) == BatchReply(b, cfg, tick, queries)
  {
    SubBatchesAreFew(cfg, queries);
    hide SubBatches, Replies, TotalSize;
    if |queries| >= 2 {
      AgreeLess(a, b, tick, tick + |queries|, tick, tick + |SubBatches(cfg, queries)|);
      RepliesAgree(a, b, tick, queries, SubBatches(cfg, queries));
    }
  }

  lemma AgreeLess(a: Client, b: Client, from: nat, to: nat, later: nat, sooner: nat)
    requires Agree(a, b, from, to) && from <= later && sooner <= to
    ensures Agree(a, b, later, sooner)
  {
  }

  // ---- so does what becomes of their answers ----

  lemma {:induction false} QueriesAreSame(env: Resolving, a: Client, batch: seq<Pending>, n: nat)
    requires n <= |batch|
    ensures WithClient(env, a).asking.Queries(batch, n) == env.asking.Queries(batch, n)
  {
    hide Asking.Asked;
    if n > 0 { QueriesAreSame(env, a, batch, n - 1); }
  }

  lemma {:induction false} QueriesAreFew(asking: Asking, batch: seq<Pending>, n: nat)
    requires n <= |batch|
    ensures |asking.Queries(batch, n)| <= n
  {
    hide Asking.Asked;
    if n > 0 { QueriesAreFew(asking, batch, n - 1); }
  }

  lemma DecisionsAgree(env: Resolving, a: Client, b: Client, batch: seq<Pending>, left: bool, tick: nat)
    requires Agree(a, b, tick, tick + |batch|)
    ensures WithClient(env, a).asking.Decisions(batch, left, tick) ==
            WithClient(env, b).asking.Decisions(batch, left, tick)
  {
    var x, y := WithClient(env, a).asking, WithClient(env, b).asking;
    QueriesAreSame(env, a, batch, |batch|);
    QueriesAreSame(env, b, batch, |batch|);
    QueriesAreFew(env.asking, batch, |batch|);
    var queries := env.asking.Queries(batch, |batch|);
    AgreeLess(a, b, tick, tick + |batch|, tick, tick + |queries|);
    BatchAgrees(a, b, env.asking.batch, tick, queries);
    hide Agree, BatchReply, Asking.Queries, Asking.DecisionAt;
    forall i | 0 <= i < |batch| ensures x.Decisions(batch, left, tick)[i] == y.Decisions(batch, left, tick)[i] {
      x.DecisionIs(batch, left, tick, i, |batch|);
      y.DecisionIs(batch, left, tick, i, |batch|);
      if left { DecisionSame(env, a, b, batch, BatchReply(a, env.asking.batch, tick, queries), i); }
    }
    hide Asking.Decisions;
    assert x.Decisions(batch, left, tick) == y.Decisions(batch, left, tick);
  }

  lemma DecisionSame(env: Resolving, a: Client, b: Client, batch: seq<Pending>, reply: Option<seq<Answer>>, i: nat)
    requires i < |batch| && (reply.Some? ==> |reply.value| == |env.asking.Asked(batch, |batch|)|)
    ensures var x, y := WithClient(env, a).asking, WithClient(env, b).asking;
            && x.Asked(batch, |batch|) == y.Asked(batch, |batch|) == env.asking.Asked(batch, |batch|)
            && x.DecisionAt(batch, reply, i) == y.DecisionAt(batch, reply, i)
  {
    AskedIsSame(env, a, batch, |batch|);
    AskedIsSame(env, b, batch, |batch|);
    AskedIsSame(env, a, batch, i);
    AskedIsSame(env, b, batch, i);
    env.asking.AskedAt(batch, i, |batch|);
    hide Best, PayloadToDecision, Asking.Asked;
  }

  /** Decisions are written in the same way whoever made them. */
  lemma {:induction false} AppliedSame(env: Resolving, a: Client, chunk: int, w: Work, batch: seq<Pending>,
                                       ds: seq<Decision>, n: nat)
    requires Usable(env, chunk, w.t) && AllOffered(w.t, batch) && AllAmong(ds, batch) && n <= |batch| == |ds|
    ensures Usable(WithClient(env, a), chunk, w.t)
    ensures BatchApplied(WithClient(env, a), chunk, w, batch, ds, n) == BatchApplied(env, chunk, w, batch, ds, n)
  {
    hide Usable, WithClient, BatchApplied, AllOffered, AllAmong, Onward, Did, IsGrounded, Grew;
    LinkingUsable(env, a, chunk, w.t);
    var to := WithClient(env, a);
    if n == 0 {
      NothingApplied(env, chunk, w, batch, ds);
      NothingApplied(to, chunk, w, batch, ds);
    } else {
      AppliedSame(env, a, chunk, w, batch, ds, n - 1);
      BatchStep(env, chunk, w, batch, ds, n - 1);
      BatchStep(to, chunk, w, batch, ds, n - 1);
      var before := BatchApplied(env, chunk, w, batch, ds, n - 1);
      DidSame(env, a, chunk, before, StepFor(env, before.t, batch[n - 1], ds[n - 1]));
      StepSame(env, a, before.t, batch[n - 1], ds[n - 1]);
    }
  }

  lemma NothingApplied(env: Resolving, chunk: int, w: Work, batch: seq<Pending>, ds: seq<Decision>)
    requires Usable(env, chunk, w.t) && AllOffered(w.t, batch) && AllAmong(ds, batch) && |batch| == |ds|
    ensures BatchApplied(env, chunk, w, batch, ds, 0) == w
  {
  }

  lemma StepSame(env: Resolving, a: Client, t: Tables, p: Pending, d: Decision)
    ensures StepFor(WithClient(env, a), t, p, d) == StepFor(env, t, p, d)
  {
  }

  lemma DidSame(env: Resolving, a: Client, chunk: int, w: Work, s: Step)
    requires Usable(env, chunk, w.t) && Usable(WithClient(env, a), chunk, w.t) && IsGrounded(w.t, s.decision)
    ensures Did(WithClient(env, a), chunk, w, s) == Did(env, chunk, w, s)
  {
    hide Ready, Applied, Fails, ResolvedBy, IsGrounded, LooksUpActive;
  }

  // ---- the windows ----

  lemma {:induction false} StagesAgree(env: Resolving, a: Client, b: Client, chunk: int, w: Work,
                                       pending: seq<Pending>, left: Allowance, tick: nat)
    requires Usable(env, chunk, w.t) && AllOffered(w.t, pending) && Agree(a, b, tick, tick + |pending|)
    ensures Usable(WithClient(env, a), chunk, w.t) && Usable(WithClient(env, b), chunk, w.t)
    ensures ModelStages(WithClient(env, a), chunk, w, pending, left, tick) ==
            ModelStages(WithClient(env, b), chunk, w, pending, left, tick)
    decreases |pending|
  {
    hide Usable, WithClient, ModelStages, AllOffered, AllAmong, BatchApplied, Onward, Agree, Asking.Decisions,
      Asking.Spent, Grew;
    var x, y := WithClient(env, a), WithClient(env, b);
    LinkingUsable(env, a, chunk, w.t);
    LinkingUsable(env, b, chunk, w.t);
    if pending == [] {
      NothingWaits(x, chunk, w, left, tick);
      NothingWaits(y, chunk, w, left, tick);
    } else {
      BatchSizePositive(env, chunk, w.t);
      LinkingKeeps(env, a);
      LinkingKeeps(env, b);
      var m := Min(env.batchSize, |pending|);
      var batch, rest := pending[..m], pending[m..];
      AgreeLess(a, b, tick, tick + |pending|, tick, tick + m);
      AgreeLess(a, b, tick, tick + |pending|, tick + m, tick + m + |rest|);
      DecisionsAgree(env, a, b, batch, left.Left(), tick);
      SpentIsSame(env, a, batch, left.Left());
      SpentIsSame(env, b, batch, left.Left());
      ModelStagesStep(x, chunk, w, pending, left, tick);
      ModelStagesStep(y, chunk, w, pending, left, tick);
      OfferedParts(w.t, pending, m);
      var ds := x.asking.Decisions(batch, left.Left(), tick);
      AppliedSame(env, a, chunk, w, batch, ds, m);
      AppliedSame(env, b, chunk, w, batch, ds, m);
      var after := BatchApplied(env, chunk, w, batch, ds, m);
      OnwardUsable(env, chunk, w.t, after.t);
      OfferedGrows(w.t, after.t, rest);
      StagesAgree(env, a, b, chunk, after, rest, left.Minus(env.asking.Spent(batch, left.Left())), tick + m);
    }
  }

  lemma {:induction false} FewWait(env: Resolving, chunk: int, t: Tables, raws: seq<ExtractedConcept>, n: nat)
    requires Usable(env, chunk, t) && n <= |raws|
    ensures |FirstStages(env, chunk, t, raws, n).pending| <= n
  {
    hide Usable, FirstStages, FirstStage, Onward;
    if n == 0 {
      NothingStaged(env, chunk, t, raws);
    } else {
      FewWait(env, chunk, t, raws, n - 1);
      FirstStagesStep(env, chunk, t, raws, n - 1);
      OneMayWait(env, chunk, t, FirstStages(env, chunk, t, raws, n - 1), n - 1, raws[n - 1]);
    }
  }

  lemma OneMayWait(env: Resolving, chunk: int, t: Tables, before: Stage, idx: nat, raw: ExtractedConcept)
    requires Usable(env, chunk, before.w.t) && Onward(env, chunk, t, before.w.t) && !before.w.failed
    ensures |FirstStage(env, chunk, t, before, idx, raw).pending| <= |before.pending| + 1
  {
    hide Usable, Onward, Did;
  }

  lemma ResolvedAgree(env: Resolving, a: Client, b: Client, chunk: int, t: Tables, raws: seq<ExtractedConcept>,
                      left: Allowance, tick: nat)
    requires Usable(env, chunk, t) && Agree(a, b, tick, tick + |raws|)
    ensures Usable(WithClient(env, a), chunk, t) && Usable(WithClient(env, b), chunk, t)
    ensures Resolved(WithClient(env, a), chunk, t, raws, left, tick) ==
            Resolved(WithClient(env, b), chunk, t, raws, left, tick)
  {
    hide Usable, WithClient, ModelStages, FirstStages, AllOffered, Onward, Agree;
    FirstStagesSame(env, a, chunk, t, raws, |raws|);
    FirstStagesSame(env, b, chunk, t, raws, |raws|);
    FewWait(env, chunk, t, raws, |raws|);
    PendingOffered(env, chunk, t, raws, |raws|);
    var first := FirstStages(env, chunk, t, raws, |raws|);
    OnwardUsable(env, chunk, t, first.w.t);
    AgreeLess(a, b, tick, tick + |raws|, tick, tick + |first.pending|);
    StagesAgree(env, a, b, chunk, first.w, first.pending, left, tick);
  }

  /** The same graph builder, asking this model. */
  function WithModel(cfg: BuildConfig, client: Client): BuildConfig { cfg.(env := WithClient(cfg.env, client)) }

  /** Extraction emits no more concepts than the payload has. */
  lemma ConceptsAreFew(cfg: BuildConfig, w: ExtractedWindow)
    ensures |cfg.ConceptsOf(w)| <= |w.concepts|
  {
    var normalizer := cfg.NormalizerOf(w);
    hide Normalizer.ByAlias, GroupBy;
    GroupsAreFew(normalizer.ByAlias(), w.concepts);
  }

  lemma ExtractsSame(cfg: BuildConfig, a: Client, w: ExtractedWindow)
    ensures WithModel(cfg, a).ConceptsOf(w) == cfg.ConceptsOf(w) && WithModel(cfg, a).EdgesOf(w) == cfg.EdgesOf(w)
  {
    hide Normalizer.Concepts, Normalizer.Edges;
  }

  lemma {:induction false} EdgesSame(env: Resolving, a: Client, chunk: int, ids: map<string, int>, t: Tables,
                                     es: seq<ExtractedEdge>, n: nat)
    requires Usable(env, chunk, t) && AllExist(t, ids) && n <= |es|
    ensures Usable(WithClient(env, a), chunk, t)
    ensures EdgesBuilt(WithClient(env, a), chunk, ids, t, es, n) == EdgesBuilt(env, chunk, ids, t, es, n)
  {
    hide Usable, WithClient, EdgesBuilt, EdgeBuilt, AllExist, Onward, EdgesAccounted, Ready;
    LinkingUsable(env, a, chunk, t);
    if n == 0 {
      NoEdgesBuilt(env, chunk, ids, t, es);
      NoEdgesBuilt(WithClient(env, a), chunk, ids, t, es);
    } else {
      EdgesSame(env, a, chunk, ids, t, es, n - 1);
      EdgesBuiltStep(env, chunk, ids, t, es, n - 1);
      EdgesBuiltStep(WithClient(env, a), chunk, ids, t, es, n - 1);
      EdgeSame(env, a, chunk, ids, EdgesBuilt(env, chunk, ids, t, es, n - 1), es[n - 1]);
    }
  }

  lemma NoEdgesBuilt(env: Resolving, chunk: int, ids: map<string, int>, t: Tables, es: seq<ExtractedEdge>)
    requires Usable(env, chunk, t) && AllExist(t, ids)
    ensures EdgesBuilt(env, chunk, ids, t, es, 0) == Built(t, 0)
  {
  }

  lemma EdgeSame(env: Resolving, a: Client, chunk: int, ids: map<string, int>, b: Built, e: ExtractedEdge)
    requires Ready(env.policy.edges, b.t)
    ensures Ready(WithClient(env, a).policy.edges, b.t)
    ensures EdgeBuilt(WithClient(env, a), chunk, ids, b, e) == EdgeBuilt(env, chunk, ids, b, e)
  {
    hide Ready, Upsert;
  }

  lemma {:induction false} EndpointsSame(env: Resolving, a: Client, raws: seq<ExtractedConcept>,
                                         list: seq<ResolvedConcept>, n: nat)
    requires n <= |raws| && n <= |list|
    ensures Endpoints(WithClient(env, a), raws, list, n) == Endpoints(env, raws, list, n)
  {
    if n > 0 { EndpointsSame(env, a, raws, list, n - 1); }
  }

  /** Once the concepts are resolved this is how a window ends, without the model. */
  ghost predicate EndsAs(cfg: BuildConfig, w: ExtractedWindow, found: ModelStage, r: WindowDone) {
    var raws, list := cfg.ConceptsOf(w), InOrder(found.w.results);
    if found.w.failed then r == WindowDone(found.w.t, true, found.left, 0, 0, 0)
    else
      && |list| == |raws| && CountCreated(list, |raws|) <= |raws|
      && var ids := Endpoints(cfg.env, raws, list, |raws|);
         && Usable(cfg.env, w.chunk, found.w.t) && AllExist(found.w.t, ids)
         && var edges := EdgesBuilt(cfg.env, w.chunk, ids, found.w.t, cfg.EdgesOf(w), |cfg.EdgesOf(w)|);
            r == WindowDone(edges.t, false, found.left, CountCreated(list, |raws|),
                            |raws| - CountCreated(list, |raws|), edges.upserted)
  }

  lemma EndsOnce(cfg: BuildConfig, w: ExtractedWindow, found: ModelStage, r: WindowDone, q: WindowDone)
    requires EndsAs(cfg, w, found, r) && EndsAs(cfg, w, found, q)
    ensures r == q
  {
    hide Usable, EdgesBuilt, Endpoints, AllExist, InOrder, CountCreated, BuildConfig.ConceptsOf, BuildConfig.EdgesOf;
  }

  lemma WindowSame(cfg: BuildConfig, a: Client, w: ExtractedWindow, t: Tables, left: Allowance, tick: nat)
    requires Usable(cfg.env, w.chunk, t) && Usable(WithClient(cfg.env, a), w.chunk, t)
    ensures EndsAs(cfg, w, Resolved(WithClient(cfg.env, a), w.chunk, t, cfg.ConceptsOf(w), left, tick),
                   WindowBuilt(WithModel(cfg, a), w, t, left, tick))
  {
    var x, raws := WithModel(cfg, a), cfg.ConceptsOf(w);
    ExtractsSame(cfg, a, w);
    hide Usable, WithClient, Resolved, EdgesBuilt, Endpoints, AllExist, InOrder, CountCreated, WindowBuilt,
      BuildConfig.ConceptsOf, BuildConfig.EdgesOf, Onward;
    WindowBuiltIs(x, w, t, left, tick);
    FailedWindow(x, w, t, left, tick);
    var found := Resolved(x.env, w.chunk, t, raws, left, tick);
    if !found.w.failed {
      var list := InOrder(found.w.results);
      EndpointsSame(cfg.env, a, raws, list, |raws|);
      LinkingUsable(cfg.env, a, w.chunk, found.w.t);
      EdgesSame(cfg.env, a, w.chunk, Endpoints(cfg.env, raws, list, |raws|), found.w.t, cfg.EdgesOf(w),
                |cfg.EdgesOf(w)|);
    }
  }

  lemma WindowAgrees(cfg: BuildConfig, a: Client, b: Client, w: ExtractedWindow, t: Tables, left: Allowance, tick: nat)
    requires Usable(cfg.env, w.chunk, t) && Agree(a, b, tick, tick + |w.concepts|)
    ensures Usable(WithModel(cfg, a).env, w.chunk, t) && Usable(WithModel(cfg, b).env, w.chunk, t)
    ensures WindowBuilt(WithModel(cfg, a), w, t, left, tick) == WindowBuilt(WithModel(cfg, b), w, t, left, tick)
  {
    ConceptsAreFew(cfg, w);
    AgreeLess(a, b, tick, tick + |w.concepts|, tick, tick + |cfg.ConceptsOf(w)|);
    hide Usable, WithClient, Resolved, EdgesBuilt, Endpoints, AllExist, InOrder, CountCreated, WindowBuilt, Agree,
      BuildConfig.ConceptsOf, BuildConfig.EdgesOf, Onward;
    ResolvedAgree(cfg.env, a, b, w.chunk, t, cfg.ConceptsOf(w), left, tick);
    WindowSame(cfg, a, w, t, left, tick);
    WindowSame(cfg, b, w, t, left, tick);
    hide EndsAs;
    EndsOnce(cfg, w, Resolved(WithClient(cfg.env, a), w.chunk, t, cfg.ConceptsOf(w), left, tick),
             WindowBuilt(WithModel(cfg, a), w, t, left, tick), WindowBuilt(WithModel(cfg, b), w, t, left, tick));
  }

  lemma FailedWindow(cfg: BuildConfig, w: ExtractedWindow, t: Tables, left: Allowance, tick: nat)
    requires Usable(cfg.env, w.chunk, t)
    ensures var found := Resolved(cfg.env, w.chunk, t, cfg.ConceptsOf(w), left, tick);
            found.w.failed ==>
              WindowBuilt(cfg, w, t, left, tick) == WindowDone(found.w.t, true, found.left, 0, 0, 0)
  {
    hide Usable, Resolved, EdgesBuilt, Endpoints, AllExist, InOrder, CountCreated, Onward, BuildConfig.ConceptsOf,
      BuildConfig.EdgesOf;
  }

  // ---- the documents ----

  lemma CanBuildSame(cfg: BuildConfig, a: Client, t: Tables, windows: seq<ExtractedWindow>)
    ensures CanBuild(WithModel(cfg, a), t, windows) <==> CanBuild(cfg, t, windows)
  {
  }

  lemma SteadySame(cfg: BuildConfig, a: Client, t: Tables, windows: seq<ExtractedWindow>, caps: Caps, d: Document)
    requires IsSteady(WithModel(cfg, a), t, windows, caps, d)
    ensures CanBuild(cfg, d.t, windows)
  {
    CanBuildSame(cfg, a, d.t, windows);
  }

  /** Models that answer alike up to a window build the same document so far. */
  lemma {:induction false} DocumentAgrees(cfg: BuildConfig, a: Client, b: Client, t: Tables,
                                          windows: seq<ExtractedWindow>, caps: Caps, n: nat)
    requires CanBuild(cfg, t, windows) && n <= |windows| && Agree(a, b, 0, Ticks(windows, n))
    ensures CanBuild(WithModel(cfg, a), t, windows) && CanBuild(WithModel(cfg, b), t, windows)
    ensures DocumentBuilt(WithModel(cfg, a), t, windows, caps, n) ==
            DocumentBuilt(WithModel(cfg, b), t, windows, caps, n)
  {
    hide CanBuild, WithModel, DocumentBuilt, NextWindow, Agree, WindowBuilt, Usable, IsSteady, SumOf, Ticks;
    var x, y := WithModel(cfg, a), WithModel(cfg, b);
    CanBuildSame(cfg, a, t, windows);
    CanBuildSame(cfg, b, t, windows);
    DocumentStep(x, t, windows, caps, n);
    DocumentStep(y, t, windows, caps, n);
    if n > 0 {
      TicksStep(windows, n - 1);
      var now := Ticks(windows, n - 1);
      AgreeLess(a, b, 0, Ticks(windows, n), 0, now);
      AgreeLess(a, b, 0, Ticks(windows, n), now, now + |windows[n - 1].concepts|);
      DocumentAgrees(cfg, a, b, t, windows, caps, n - 1);
      var d := DocumentBuilt(x, t, windows, caps, n - 1);
      SteadySame(cfg, a, t, windows, caps, d);
      CanBuildWindow(cfg, d.t, windows, n - 1);
      NextWindowIs(x, t, windows, caps, d, n - 1);
      NextWindowIs(y, t, windows, caps, d, n - 1);
      WindowAgrees(cfg, a, b, windows[n - 1], d.t, LeftFor(caps, d), now);
    }
  }

  /** One model up to a call, another from it on. */
  function Until(n: nat, before: Client, after: Client): Client {
    Client((k: nat, q: Query) => if k < n then before.one(k, q) else after.one(k, q),
           (k: nat, qs: seq<Query>) => if k < n then before.many(k, qs) else after.many(k, qs))
  }

  lemma UntilAgrees(n: nat, before: Client, after: Client, to: nat)
    ensures Agree(Until(n, before, after), before, 0, n) && Agree(Until(n, before, after), after, n, to)
  {
  }

  ghost predicate IsRefused(cfg: BuildConfig, client: Client, t: Tables, windows: seq<ExtractedWindow>, caps: Caps,
                            n: nat)
    requires n <= |windows|
  {
    CanBuild(WithModel(cfg, client), t, windows) && DocumentBuilt(WithModel(cfg, client), t, windows, caps, n).failed
  }

  /** With this model's answers the build comes to a window in which a waiting mention that a call can reach is offered
      its namesake. */
  ghost predicate ReachesRisk(cfg: BuildConfig, client: Client, t: Tables, windows: seq<ExtractedWindow>, caps: Caps,
                              k: nat)
    requires k < |windows|
  {
    var to := WithModel(cfg, client);
    && CanBuild(to, t, windows) && !DocumentBuilt(to, t, windows, caps, k).failed
    && !WindowIsSafe(to, t, windows, caps, k)
  }

  /** Then a model that answers in the same way so far can get that window, and so the document, refused. */
  lemma RiskIsRefused(cfg: BuildConfig, client: Client, t: Tables, windows: seq<ExtractedWindow>, caps: Caps, k: nat,
                      n: nat)
    requires CanBuild(cfg, t, windows) && k < n <= |windows| && ReachesRisk(cfg, client, t, windows, caps, k)
    requires cfg.env.asking.floor <= 1.0 && cfg.env.policy.edges.names.Normalize("") == ""
    ensures exists other :: IsRefused(cfg, other, t, windows, caps, n)
  {
    var to, now := WithModel(cfg, client), Ticks(windows, k);
    var d := DocumentBuilt(to, t, windows, caps, k);
    assert Usable(to.env, windows[k].chunk, d.t) ==> MayBeRefused(to, windows[k], d.t, LeftFor(caps, d));
    hide *;
    SteadyUsable(to, t, windows, caps, d, k);
    SteadySame(cfg, client, t, windows, caps, d);
    CanBuildWindow(cfg, d.t, windows, k);
    var links := WindowIsRefused(cfg, client, windows[k], d.t, LeftFor(caps, d), now);
    MixedIsRefused(cfg, client, LinkingClient(links), t, windows, caps, k, n);
  }

  /** A model that answers like one up to a window that another gets refused. */
  lemma MixedIsRefused(cfg: BuildConfig, client: Client, late: Client, t: Tables, windows: seq<ExtractedWindow>,
                       caps: Caps, k: nat, n: nat)
    requires CanBuild(cfg, t, windows) && CanBuild(WithModel(cfg, client), t, windows) && k < n <= |windows|
    requires var d := DocumentBuilt(WithModel(cfg, client), t, windows, caps, k);
             && !d.failed && Usable(cfg.env, windows[k].chunk, d.t)
             && Usable(WithModel(cfg, late).env, windows[k].chunk, d.t)
             && WindowBuilt(WithModel(cfg, late), windows[k], d.t, LeftFor(caps, d), Ticks(windows, k)).failed
    ensures IsRefused(cfg, Until(Ticks(windows, k), client, late), t, windows, caps, n)
  {
    hide CanBuild, DocumentBuilt, Usable, SumOf, WithModel, Ticks, WindowBuilt, Agree, Until, LeftFor, IsSteady;
    var now, w := Ticks(windows, k), windows[k];
    var other, d := Until(now, client, late), DocumentBuilt(WithModel(cfg, client), t, windows, caps, k);
    UntilAgrees(now, client, late, now + |w.concepts|);
    DocumentAgrees(cfg, other, client, t, windows, caps, k);
    WindowAgrees(cfg, other, late, w, d.t, LeftFor(caps, d), now);
    WindowEndsDocument(WithModel(cfg, other), t, windows, caps, k, n);
  }

  lemma WindowEndsDocument(cfg: BuildConfig, t: Tables, windows: seq<ExtractedWindow>, caps: Caps, k: nat, n: nat)
    requires CanBuild(cfg, t, windows) && k < n <= |windows| && !DocumentBuilt(cfg, t, windows, caps, k).failed
    requires var d := DocumentBuilt(cfg, t, windows, caps, k);
             && Usable(cfg.env, windows[k].chunk, d.t)
             && WindowBuilt(cfg, windows[k], d.t, LeftFor(caps, d), Ticks(windows, k)).failed
    ensures DocumentBuilt(cfg, t, windows, caps, n).failed
  {
    hide CanBuild, IsSteady, DocumentBuilt, Usable, SumOf, Ticks, NextWindow, WindowBuilt, LeftFor;
    DocumentStep(cfg, t, windows, caps, k + 1);
    NextWindowIs(cfg, t, windows, caps, DocumentBuilt(cfg, t, windows, caps, k), k);
    DocumentFails(cfg, t, windows, caps, k + 1, n);
  }

  lemma WindowIsRefused(cfg: BuildConfig, client: Client, w: ExtractedWindow, t: Tables, left: Allowance, tick: nat)
    returns (links: NameLinks)
    requires Usable(cfg.env, w.chunk, t) && Usable(WithModel(cfg, client).env, w.chunk, t)
    requires MayBeRefused(WithModel(cfg, client), w, t, left)
    requires cfg.env.asking.floor <= 1.0 && cfg.env.policy.edges.names.Normalize("") == ""
    ensures Usable(WithModel(cfg, LinkingClient(links)).env, w.chunk, t)
    ensures WindowBuilt(WithModel(cfg, LinkingClient(links)), w, t, left, tick).failed
  {
    var raws := cfg.ConceptsOf(w);
    ExtractionNames(cfg, w);
    ExtractsSame(cfg, client, w);
    hide Usable, RefusalPossible, WithClient, Resolved, WindowBuilt, BuildConfig.ConceptsOf, LinkingClient;
    PossibleSame(cfg.env, client, w.chunk, t, raws, left);
    RefusalIsPossible(cfg.env, w.chunk, t, raws, left, tick);
    links :| CanBeRefused(cfg.env, LinkingClient(links), w.chunk, t, raws, left, tick);
    ExtractsSame(cfg, LinkingClient(links), w);
    WindowBuiltIs(WithModel(cfg, LinkingClient(links)), w, t, left, tick);
  }

  /** Some model gets a document refused if and only if some model's answers bring the build to a window in which a
      waiting mention that a call can reach is offered its namesake. */
  lemma DocumentRefusalCondition(cfg: BuildConfig, t: Tables, windows: seq<ExtractedWindow>, caps: Caps, n: nat)
    requires CanBuild(cfg, t, windows) && n <= |windows|
    requires cfg.env.asking.floor <= 1.0 && cfg.env.policy.edges.names.Normalize("") == ""
    ensures (exists client :: IsRefused(cfg, client, t, windows, caps, n)) <==>
            exists client, k: nat :: k < n && ReachesRisk(cfg, client, t, windows, caps, k)
  {
    hide CanBuild, ReachesRisk, IsRefused;
    if client, k: nat :| k < n && ReachesRisk(cfg, client, t, windows, caps, k) {
      RiskIsRefused(cfg, client, t, windows, caps, k, n);
    }
    if client :| IsRefused(cfg, client, t, windows, caps, n) {
      var k := RefusedAt(cfg, client, t, windows, caps, n);
      assert ReachesRisk(cfg, client, t, windows, caps, k);
    }
  }

  lemma {:induction false} RefusedAt(cfg: BuildConfig, client: Client, t: Tables, windows: seq<ExtractedWindow>,
                                     caps: Caps, n: nat) returns (k: nat)
    requires CanBuild(cfg, t, windows) && n <= |windows| && IsRefused(cfg, client, t, windows, caps, n)
    ensures k < n && ReachesRisk(cfg, client, t, windows, caps, k)
  {
    hide CanBuild, DocumentBuilt, NextWindow, WindowIsSafe, WithModel;
    var to := WithModel(cfg, client);
    DocumentStep(to, t, windows, caps, n);
    if n > 0 && !DocumentBuilt(to, t, windows, caps, n - 1).failed {
      k := n - 1;
      if WindowIsSafe(to, t, windows, caps, k) { WindowFinishes(to, t, windows, caps, k); }
    } else {
      k := RefusedAt(cfg, client, t, windows, caps, n - 1);
    }
  }
}
