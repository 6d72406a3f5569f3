/** What normalizing a payload makes of it, said of the payload alone (domain/graph/extraction.py). */
module ExtractionMeaning {
  import opened Numbers
  import opened Wrappers
  import opened Ordering
  import opened Sequences
  import opened Text
  import opened Grouping
  import opened Extraction

  // ---- groups and payload positions ----

  /** The positions of the items of a group. */
  ghost predicate ArePlaces<P>(items: seq<P>, belongs: P -> bool, ps: seq<P>, at: seq<nat>) {
    && |at| == |ps|
    && (forall m | 0 <= m < |at| :: at[m] < |items| && belongs(items[at[m]]) && ps[m] == items[at[m]])
    && (forall m, l | 0 <= m < l < |at| :: at[m] < at[l])
    && (forall i: nat | i < |items| && belongs(items[i]) :: i in at)
  }

  lemma {:induction false} GroupPlaces<P, K(!new), V>(g: Grouper<P, K, V>, items: seq<P>, k: K, belongs: P -> bool)
    returns (at: seq<nat>)
    requires forall p :: belongs(p) <==> g.keyOf(p) == Some(k)
    ensures ArePlaces(items, belongs, Group(g, items, k), at)
  {
    at := [];
    if items != [] {
      var n := |items| - 1;
      var front, last := items[..n], items[n];
      var before := GroupPlaces(g, front, k, belongs);
      assert forall i | 0 <= i < n :: front[i] == items[i];
      at := before + if belongs(last) then [n] else [];
      forall i: nat | i < |items| && belongs(items[i]) ensures i in at {
        if i < n { assert i in before; } else { assert at[|before|] == n; }
      }
    }
  }

  /** The text at a position is the first of the longest among those that belong. */
  ghost predicate IsLongestAt<P>(items: seq<P>, belongs: P -> bool, text: P -> string, r: string, j: nat) {
    && j < |items| && belongs(items[j]) && text(items[j]) == r
    && forall l | 0 <= l < |items| && belongs(items[l]) ::
         |text(items[l])| <= |r| && (l < j ==> |text(items[l])| < |r|)
  }

  lemma LongestPlace<P>(items: seq<P>, belongs: P -> bool, text: P -> string, ps: seq<P>, at: seq<nat>,
                        texts: seq<string>, r: string)
    returns (j: nat)
    requires ArePlaces(items, belongs, ps, at) && IsFirstMax(texts, Length, r)
    requires |texts| == |ps| && forall m | 0 <= m < |ps| :: texts[m] == text(ps[m])
    ensures IsLongestAt(items, belongs, text, r, j)
  {
    var m: nat :| 0 <= m < |texts| && IsFirstMaxAt(texts, Length, r, m);
    j := at[m];
    forall l | 0 <= l < |items| && belongs(items[l])
      ensures |text(items[l])| <= |r| && (l < j ==> |text(items[l])| < |r|)
    {
      assert l in at;
      var q :| 0 <= q < |at| && at[q] == l;
      assert texts[q] == text(items[l]);
      assert q < m ==> Length(texts[q]) < Length(r);
      assert q >= m ==> Length(texts[q]) <= Length(r);
    }
  }

  // ---- concepts ----

  function Called(n: Normalizer, k: string): ConceptPayload -> bool {
    (c: ConceptPayload) => n.names.Normalize(c.name) == k
  }

  /** The context of a mention: its own, or else the text of the chunk, bounded. */
  function ContextOf(n: Normalizer): ConceptPayload -> string {
    (c: ConceptPayload) =>
      TruncateText(Some(if c.context.Some? && c.context.value != "" then c.context.value else n.chunkText), 240)
  }

  function DescriptionOf(n: Normalizer): ConceptPayload -> string {
    (c: ConceptPayload) => TruncateText(c.description, n.conceptMaxChars)
  }

  /** Some mention of the name has this tier, where one without a known tier is granular. */
  ghost predicate HasTier(n: Normalizer, payload: seq<ConceptPayload>, k: string, tier: string) {
    exists j :: 0 <= j < |payload| && n.names.Normalize(payload[j].name) == k && TierIs(payload[j].tier, tier)
  }

  predicate TierIs(given: Option<string>, tier: string) {
    if given.Some? && given.value in {"umbrella", "topic", "subtopic", "granular"} then given.value == tier
    else tier == "granular"
  }

  /** The most specific tier of the mentions of a name. */
  ghost function TierOf(n: Normalizer, payload: seq<ConceptPayload>, k: string): string {
    if HasTier(n, payload, k, "granular") then "granular"
    else if HasTier(n, payload, k, "subtopic") then "subtopic"
    else if HasTier(n, payload, k, "topic") then "topic"
    else "umbrella"
  }

  /** The first mention of a name. */
  ghost predicate IsFirstMention(n: Normalizer, payload: seq<ConceptPayload>, k: string, j: nat) {
    && j < |payload| && n.names.Normalize(payload[j].name) == k
    && forall l | 0 <= l < j :: n.names.Normalize(payload[l].name) != k
  }

  /** Every emitted concept has a name with a normal form: it is spelled as in the first mention of that form, has the
      longest context and the longest description of its mentions, the first of them on a tie, and their most specific
      tier. */
  lemma ConceptLaw(n: Normalizer, payload: seq<ConceptPayload>, i: nat) returns (f: nat, c: nat, d: nat)
    requires i < |n.Concepts(payload)|
    ensures var e := n.Concepts(payload)[i]; var k := n.names.Normalize(e.name);
            && k != "" && IsFirstMention(n, payload, k, f) && e.name == Strip(payload[f].name)
            && IsLongestAt(payload, Called(n, k), ContextOf(n), e.context, c)
            && IsLongestAt(payload, Called(n, k), DescriptionOf(n), e.description, d)
            && e.tier == TierOf(n, payload, k)
  {
    hide Normalizer.Concepts, TruncateText, Names.Normalize, Strip, IsLongestAt, IsFirstMax, TierOf, Fold;
    n.ConceptsMeaning(payload);
    var e := n.Concepts(payload)[i];
    var k := n.names.Normalize(e.name);
    var ks := Keys(n.ByAlias(), payload);
    assert ks[i] in ks;
    n.ConceptEntry(payload, k, i);
    var ps := Group(n.ByAlias(), payload, k);
    forall p ensures Called(n, k)(p) <==> n.ByAlias().keyOf(p) == Some(k) { AliasIs(n, k, p); }
    var at := GroupPlaces(n.ByAlias(), payload, k, Called(n, k));
    f := at[0];
    FirstPlace(n, payload, k, ps, at);
    TextsAre(n, ps);
    c := LongestPlace(payload, Called(n, k), ContextOf(n), ps, at, n.Contexts(ps), e.context);
    d := LongestPlace(payload, Called(n, k), DescriptionOf(n), ps, at, n.Descriptions(ps), e.description);
    TierPlace(n, payload, k, ps, at, e.tier);
  }

  lemma AliasIs(n: Normalizer, k: string, p: ConceptPayload)
    requires k != ""
    ensures Called(n, k)(p) <==> n.ByAlias().keyOf(p) == Some(k)
  {
    hide Names.Normalize;
  }

  lemma FirstPlace(n: Normalizer, payload: seq<ConceptPayload>, k: string, ps: seq<ConceptPayload>, at: seq<nat>)
    requires ps != [] && ArePlaces(payload, Called(n, k), ps, at)
    ensures IsFirstMention(n, payload, k, at[0]) && ps[0] == payload[at[0]]
  {
    hide Names.Normalize;
    forall l: nat | l < |payload| && Called(n, k)(payload[l]) ensures at[0] <= l {
      assert l in at;
      var q :| 0 <= q < |at| && at[q] == l;
    }
  }

  lemma {:induction false} TextsAre(n: Normalizer, ps: seq<ConceptPayload>)
    ensures |n.Contexts(ps)| == |n.Descriptions(ps)| == |n.Tiers(ps)| == |ps|
    ensures forall m | 0 <= m < |ps| :: n.Contexts(ps)[m] == ContextOf(n)(ps[m])
    ensures forall m | 0 <= m < |ps| :: n.Descriptions(ps)[m] == DescriptionOf(n)(ps[m])
    ensures forall m | 0 <= m < |ps| :: n.Tiers(ps)[m] == ValidTier(ps[m].tier)
  {
    hide TruncateText, ValidTier;
    if ps != [] { TextsAre(n, ps[..|ps| - 1]); }
  }

  lemma ValidTierIs(given: Option<string>, tier: string)
    ensures TierIs(given, tier) <==> ValidTier(given) == tier
  {
  }

  lemma TierPlace(n: Normalizer, payload: seq<ConceptPayload>, k: string, ps: seq<ConceptPayload>, at: seq<nat>,
                  tier: string)
    requires ArePlaces(payload, Called(n, k), ps, at) && IsFirstMax(n.Tiers(ps), TierNameRank, tier)
    ensures tier == TierOf(n, payload, k)
  {
    hide TierNameRank, ValidTier, TierIs, Names.Normalize, HasTier, IsFirstMaxAt, ArePlaces;
    TextsAre(n, ps);
    var tiers := n.Tiers(ps);
    var m: nat :| 0 <= m < |tiers| && IsFirstMaxAt(tiers, TierNameRank, tier, m);
    TierAtPlace(n, payload, k, ps, at, tiers, tier, m);
    forall other | HasTier(n, payload, k, other) ensures TierNameRank(other) <= TierNameRank(tier) {
      OtherTier(n, payload, k, ps, at, tiers, tier, m, other);
    }
    TierChain();
  }

  lemma TierAtPlace(n: Normalizer, payload: seq<ConceptPayload>, k: string, ps: seq<ConceptPayload>, at: seq<nat>,
                    tiers: seq<string>, tier: string, m: nat)
    requires ArePlaces(payload, Called(n, k), ps, at) && m < |tiers| == |ps| && tiers[m] == ValidTier(ps[m].tier)
    requires IsFirstMaxAt(tiers, TierNameRank, tier, m)
    ensures HasTier(n, payload, k, tier)
    ensures tier == "umbrella" || tier == "topic" || tier == "subtopic" || tier == "granular"
  {
    hide TierNameRank, ValidTier, TierIs, Names.Normalize;
    ValidTierIs(ps[m].tier, tier);
    TierKnown(ps[m].tier, tier);
    assert Called(n, k)(payload[at[m]]);
  }

  lemma OtherTier(n: Normalizer, payload: seq<ConceptPayload>, k: string, ps: seq<ConceptPayload>, at: seq<nat>,
                  tiers: seq<string>, tier: string, m: nat, other: string)
    requires ArePlaces(payload, Called(n, k), ps, at) && |tiers| == |ps|
    requires forall q | 0 <= q < |ps| :: tiers[q] == ValidTier(ps[q].tier)
    requires IsFirstMaxAt(tiers, TierNameRank, tier, m) && HasTier(n, payload, k, other)
    ensures TierNameRank(other) <= TierNameRank(tier)
  {
    hide TierNameRank, ValidTier, TierIs, Names.Normalize;
    var j :| 0 <= j < |payload| && n.names.Normalize(payload[j].name) == k && TierIs(payload[j].tier, other);
    assert Called(n, k)(payload[j]);
    assert j in at;
    var q :| 0 <= q < |at| && at[q] == j;
    ValidTierIs(ps[q].tier, other);
    assert tiers[q] == other;
  }

  lemma TierKnown(given: Option<string>, tier: string)
    requires TierIs(given, tier)
    ensures tier == "umbrella" || tier == "topic" || tier == "subtopic" || tier == "granular"
  {
  }

  lemma TierChain()
    ensures TierNameRank("umbrella") < TierNameRank("topic") < TierNameRank("subtopic") < TierNameRank("granular")
  {
  }

  /** Every name with a normal form has its one concept, and they come in the order of their first mentions. */
  lemma ConceptsAreListed(n: Normalizer, payload: seq<ConceptPayload>)
    ensures var es := n.Concepts(payload);
            && (forall c | c in payload && n.names.Normalize(c.name) != "" ::
                  exists i :: 0 <= i < |es| && n.names.Normalize(es[i].name) == n.names.Normalize(c.name))
            && (forall i, j | 0 <= i < j < |es| :: n.names.Normalize(es[i].name) != n.names.Normalize(es[j].name))
            && (forall i, j, f: nat, g: nat | 0 <= i < j < |es|
                    && IsFirstMention(n, payload, n.names.Normalize(es[i].name), f)
                    && IsFirstMention(n, payload, n.names.Normalize(es[j].name), g) :: f < g)
  {
    hide Normalizer.Concepts, Names.Normalize, Normalizer.SummarizesConcepts, First, Group;
    n.ConceptsMeaning(payload);
    n.NamesAreDistinct(payload);
    var es, ks := n.Concepts(payload), Keys(n.ByAlias(), payload);
    forall c | c in payload && n.names.Normalize(c.name) != ""
      ensures exists i :: 0 <= i < |es| && n.names.Normalize(es[i].name) == n.names.Normalize(c.name)
    {
      assert n.names.Normalize(c.name) in ks;
      var i :| 0 <= i < |ks| && ks[i] == n.names.Normalize(c.name);
      assert n.names.Normalize(es[i].name) == ks[i];
    }
    forall i, j, f: nat, g: nat | 0 <= i < j < |es|
        && IsFirstMention(n, payload, n.names.Normalize(es[i].name), f)
        && IsFirstMention(n, payload, n.names.Normalize(es[j].name), g)
      ensures f < g
    {
      assert ks[i] in ks && ks[j] in ks;
      KeysAreInOrder(n.ByAlias(), payload, i, j);
      FirstIs(n, payload, ks[i], f);
      FirstIs(n, payload, ks[j], g);
    }
  }

  lemma FirstIs(n: Normalizer, payload: seq<ConceptPayload>, k: string, f: nat)
    requires k != "" && IsFirstMention(n, payload, k, f) && Group(n.ByAlias(), payload, k) != []
    ensures First(n.ByAlias(), payload, k) == f
  {
    var i := First(n.ByAlias(), payload, k);
    hide Names.Normalize, First, Group;
    assert n.ByAlias().keyOf(payload[i]) == Some(k);
    assert n.ByAlias().keyOf(payload[f]) == Some(k);
  }

  // ---- edges ----

  /** An extracted edge between two names, with their relation, all up to normalization. */
  predicate IsBetween(n: Normalizer, e: EdgePayload, k: EdgeNorm) {
    && n.names.Normalize(e.src) == k.src && n.names.Normalize(e.tgt) == k.tgt
    && n.names.Normalize(e.relation) == k.relation
  }

  function Between(n: Normalizer, k: EdgeNorm): EdgePayload -> bool { (e: EdgePayload) => IsBetween(n, e, k) }

  function EdgeTextOf(n: Normalizer): EdgePayload -> string {
    (e: EdgePayload) => TruncateText(e.description, n.edgeMaxChars)
  }

  /** A weight as a whole number, rounded down and kept between 1 and 99. */
  predicate IsClamped(weight: real, r: int) {
    if weight < 1.0 then r == 1 else if weight >= 99.0 then r == 99 else r as real <= weight < (r + 1) as real
  }

  lemma ClampMeaning(weight: real)
    ensures IsClamped(weight, ClampWeight(weight))
  {
  }

  ghost predicate IsFirstBetween(n: Normalizer, payload: seq<EdgePayload>, k: EdgeNorm, j: nat) {
    j < |payload| && IsBetween(n, payload[j], k) && forall l | 0 <= l < j :: !IsBetween(n, payload[l], k)
  }

  /** The greatest clamped weight of the mentions. */
  ghost predicate IsHeaviest(n: Normalizer, payload: seq<EdgePayload>, k: EdgeNorm, weight: int) {
    && (exists p :: p in payload && IsBetween(n, p, k) && IsClamped(p.weight, weight))
    && (forall p, r | p in payload && IsBetween(n, p, k) && IsClamped(p.weight, r) :: r <= weight)
  }

  /** Every normal form but the blank one of a keyword of the mentions, once. */
  ghost predicate AreKeywords(n: Normalizer, payload: seq<EdgePayload>, k: EdgeNorm, keywords: seq<string>) {
    && n.names.IsDeduped(keywords)
    && (forall form :: form in n.names.NormSet(keywords) <==> form != "" && HasKeyword(n, payload, k, form))
  }

  ghost predicate HasKeyword(n: Normalizer, payload: seq<EdgePayload>, k: EdgeNorm, form: string) {
    exists p :: p in payload && IsBetween(n, p, k) && form in n.names.NormSet(p.keywords)
  }

  /** Every emitted edge is spelled as its first mention, none of whose three parts is blank up to normalization, and
      has the longest description, the first on a tie, the greatest weight, and all keywords of its mentions. */
  lemma EdgeLaw(n: Normalizer, payload: seq<EdgePayload>, i: nat) returns (f: nat, d: nat)
    requires i < |n.Edges(payload)|
    ensures var e := n.Edges(payload)[i];
            var k := EdgeNorm(n.names.Normalize(e.src), n.names.Normalize(e.tgt), n.names.Normalize(e.relation));
            && k.src != "" && k.tgt != "" && k.relation != "" && IsFirstBetween(n, payload, k, f)
            && e.src == Strip(payload[f].src) && e.tgt == Strip(payload[f].tgt)
            && e.relation == Strip(payload[f].relation)
            && IsLongestAt(payload, Between(n, k), EdgeTextOf(n), e.description, d)
            && IsHeaviest(n, payload, k, e.weight) && AreKeywords(n, payload, k, e.keywords)
  {
    hide Normalizer.Edges, TruncateText, Names.Normalize, Strip, IsLongestAt, IsFirstMax, Fold, IsHeaviest, AreKeywords,
      Names.Dedupe, Normalizer.KeyOf, ClampWeight;
    n.EdgesMeaning(payload);
    var e := n.Edges(payload)[i];
    var k := EdgeNorm(n.names.Normalize(e.src), n.names.Normalize(e.tgt), n.names.Normalize(e.relation));
    var ks := Keys(n.ByKey(), payload);
    assert ks[i] in ks;
    var ps := Group(n.ByKey(), payload, k);
    KeyIs(n, payload, k);
    forall p ensures Between(n, k)(p) <==> n.ByKey().keyOf(p) == Some(k) { BetweenIs(n, k, p); }
    var at := GroupPlaces(n.ByKey(), payload, k, Between(n, k));
    f := at[0];
    FirstBetween(n, payload, k, ps, at);
    EdgeTextsAre(n, ps);
    d := LongestPlace(payload, Between(n, k), EdgeTextOf(n), ps, at, n.EdgeDescriptions(ps), e.description);
    WeightPlace(n, payload, k, ps, at, e);
    KeywordsPlace(n, payload, k, ps, at, e);
  }

  lemma KeyIs(n: Normalizer, payload: seq<EdgePayload>, k: EdgeNorm)
    requires k in Keys(n.ByKey(), payload)
    ensures k.src != "" && k.tgt != "" && k.relation != ""
  {
    n.EdgeKeysInOrder(payload);
    hide Names.Normalize, Keys;
    var e :| e in payload && n.KeyOf(e) == Some(k);
  }

  lemma BetweenIs(n: Normalizer, k: EdgeNorm, p: EdgePayload)
    requires k.src != "" && k.tgt != "" && k.relation != ""
    ensures Between(n, k)(p) <==> n.ByKey().keyOf(p) == Some(k)
  {
    hide Names.Normalize;
  }

  lemma FirstBetween(n: Normalizer, payload: seq<EdgePayload>, k: EdgeNorm, ps: seq<EdgePayload>, at: seq<nat>)
    requires ps != [] && ArePlaces(payload, Between(n, k), ps, at)
    ensures IsFirstBetween(n, payload, k, at[0]) && ps[0] == payload[at[0]]
  {
    hide IsBetween;
    forall l: nat | l < |payload| && Between(n, k)(payload[l]) ensures at[0] <= l {
      assert l in at;
      var q :| 0 <= q < |at| && at[q] == l;
    }
  }

  lemma {:induction false} EdgeTextsAre(n: Normalizer, ps: seq<EdgePayload>)
    ensures |n.EdgeDescriptions(ps)| == |ps|
    ensures forall m | 0 <= m < |ps| :: n.EdgeDescriptions(ps)[m] == EdgeTextOf(n)(ps[m])
  {
    hide TruncateText;
    if ps != [] { EdgeTextsAre(n, ps[..|ps| - 1]); }
  }

  /** The group holds exactly the mentions. */
  lemma MembersAre<P>(items: seq<P>, belongs: P -> bool, ps: seq<P>, at: seq<nat>)
    requires ArePlaces(items, belongs, ps, at)
    ensures forall p :: p in ps <==> p in items && belongs(p)
  {
    forall p ensures p in ps <==> p in items && belongs(p) {
      if p in ps {
        var m :| 0 <= m < |ps| && ps[m] == p;
        assert items[at[m]] == p;
      }
      if p in items && belongs(p) {
        var i :| 0 <= i < |items| && items[i] == p;
        assert i in at;
        var m :| 0 <= m < |at| && at[m] == i;
        assert ps[m] == p;
      }
    }
  }

  lemma WeightPlace(n: Normalizer, payload: seq<EdgePayload>, k: EdgeNorm, ps: seq<EdgePayload>, at: seq<nat>,
                    e: ExtractedEdge)
    requires ArePlaces(payload, Between(n, k), ps, at) && ps != [] && n.SummarizesEdges(ps, e)
    ensures IsHeaviest(n, payload, k, e.weight)
  {
    hide IsBetween, ClampWeight, ArePlaces, Names.Dedupe, IsFirstMax, Strip, IsClamped;
    MembersAre(payload, Between(n, k), ps, at);
    var p :| p in ps && e.weight == ClampWeight(p.weight);
    assert Between(n, k)(p);
    ClampMeaning(p.weight);
    forall q, r | q in payload && IsBetween(n, q, k) && IsClamped(q.weight, r) ensures r <= e.weight {
      assert Between(n, k)(q);
      ClampMeaning(q.weight);
      ClampUnique(q.weight, r, ClampWeight(q.weight));
    }
  }

  lemma ClampUnique(weight: real, r: int, s: int)
    requires IsClamped(weight, r) && IsClamped(weight, s)
    ensures r == s
  {
  }

  lemma {:induction false} KeywordsOf(n: Normalizer, ps: seq<EdgePayload>, form: string)
    ensures form in n.names.NormSet(n.AllKeywords(ps)) <==>
            exists p :: p in ps && form in n.names.NormSet(p.keywords)
  {
    hide Names.Normalize, Names.NormSet;
    if ps == [] {
      NoKeywords(n);
    } else {
      var front, last := ps[..|ps| - 1], ps[|ps| - 1];
      assert ps == front + [last] && last in ps;
      KeywordsOf(n, front, form);
      n.names.NormSetConcat(n.AllKeywords(front), last.keywords);
      if exists p :: p in ps && form in n.names.NormSet(p.keywords) {
        var p :| p in ps && form in n.names.NormSet(p.keywords);
        assert p == last || p in front;
      }
    }
  }

  lemma NoKeywords(n: Normalizer)
    ensures n.names.NormSet(n.AllKeywords([])) == {}
  {
  }

  lemma KeywordsPlace(n: Normalizer, payload: seq<EdgePayload>, k: EdgeNorm, ps: seq<EdgePayload>, at: seq<nat>,
                      e: ExtractedEdge)
    requires ArePlaces(payload, Between(n, k), ps, at) && ps != [] && n.SummarizesEdges(ps, e)
    ensures AreKeywords(n, payload, k, e.keywords)
  {
    hide IsBetween, ClampWeight, ArePlaces, Names.Dedupe, IsFirstMax, Strip, Names.NormSet, Names.IsDeduped;
    MembersAre(payload, Between(n, k), ps, at);
    n.names.DedupeMeaning(n.AllKeywords(ps));
    forall form ensures form in n.names.NormSet(e.keywords) <==> form != "" && HasKeyword(n, payload, k, form) {
      KeywordsOf(n, ps, form);
      if exists p :: p in ps && form in n.names.NormSet(p.keywords) {
        var p :| p in ps && form in n.names.NormSet(p.keywords);
        assert Between(n, k)(p);
      }
      if HasKeyword(n, payload, k, form) {
        var p :| p in payload && IsBetween(n, p, k) && form in n.names.NormSet(p.keywords);
        assert Between(n, k)(p);
      }
    }
  }

  function FormOf(n: Normalizer, src: string, tgt: string, relation: string): EdgeNorm {
    EdgeNorm(n.names.Normalize(src), n.names.Normalize(tgt), n.names.Normalize(relation))
  }

  /** Every triple of three normal forms that are not blank has its one edge, and they come in the order of their first
      mentions. */
  lemma EdgesAreListed(n: Normalizer, payload: seq<EdgePayload>)
    ensures var es := n.Edges(payload);
            && (forall e | e in payload && n.names.Normalize(e.src) != "" && n.names.Normalize(e.tgt) != ""
                           && n.names.Normalize(e.relation) != "" ::
                  exists i :: 0 <= i < |es| &&
                    FormOf(n, es[i].src, es[i].tgt, es[i].relation) == FormOf(n, e.src, e.tgt, e.relation))
            && (forall i, j | 0 <= i < j < |es| ::
                  FormOf(n, es[i].src, es[i].tgt, es[i].relation) != FormOf(n, es[j].src, es[j].tgt, es[j].relation))
            && (forall i, j, f: nat, g: nat | 0 <= i < j < |es|
                    && IsFirstBetween(n, payload, FormOf(n, es[i].src, es[i].tgt, es[i].relation), f)
                    && IsFirstBetween(n, payload, FormOf(n, es[j].src, es[j].tgt, es[j].relation), g) :: f < g)
  {
    hide Normalizer.Edges, Names.Normalize, Normalizer.SummarizesEdges, First, Group, IsBetween, Normalizer.KeyOf;
    n.EdgesMeaning(payload);
    var es, ks := n.Edges(payload), Keys(n.ByKey(), payload);
    assert forall i | 0 <= i < |es| :: FormOf(n, es[i].src, es[i].tgt, es[i].relation) == ks[i];
    forall e | e in payload && n.names.Normalize(e.src) != "" && n.names.Normalize(e.tgt) != ""
        && n.names.Normalize(e.relation) != ""
      ensures exists i :: 0 <= i < |es| &&
                FormOf(n, es[i].src, es[i].tgt, es[i].relation) == FormOf(n, e.src, e.tgt, e.relation)
    {
      FormIsKey(n, e);
      var i :| 0 <= i < |ks| && ks[i] == FormOf(n, e.src, e.tgt, e.relation);
    }
    forall i, j, f: nat, g: nat | 0 <= i < j < |es|
        && IsFirstBetween(n, payload, ks[i], f) && IsFirstBetween(n, payload, ks[j], g)
      ensures f < g
    {
      assert ks[i] in ks && ks[j] in ks;
      KeysAreInOrder(n.ByKey(), payload, i, j);
      FirstIsBetween(n, payload, ks[i], f);
      FirstIsBetween(n, payload, ks[j], g);
    }
  }

  lemma FormIsKey(n: Normalizer, e: EdgePayload)
    requires n.names.Normalize(e.src) != "" && n.names.Normalize(e.tgt) != "" && n.names.Normalize(e.relation) != ""
    ensures n.KeyOf(e) == Some(FormOf(n, e.src, e.tgt, e.relation))
  {
    hide Names.Normalize;
  }

  lemma FirstIsBetween(n: Normalizer, payload: seq<EdgePayload>, k: EdgeNorm, f: nat)
    requires k in Keys(n.ByKey(), payload) && IsFirstBetween(n, payload, k, f)
    requires Group(n.ByKey(), payload, k) != []
    ensures First(n.ByKey(), payload, k) == f
  {
    hide Names.Normalize, First, Group, IsBetween, Normalizer.KeyOf, Keys;
    KeyIs(n, payload, k);
    var i := First(n.ByKey(), payload, k);
    BetweenIs(n, k, payload[i]);
    BetweenIs(n, k, payload[f]);
    assert n.ByKey().keyOf(payload[f]) == Some(k);
  }
}
