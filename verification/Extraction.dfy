/** Normalizing one extraction payload (domain/graph/extraction.py: _normalize_payload). */
module Extraction {
  import opened Numbers
  import opened Wrappers
  import opened Ordering
  import opened Sequences
  import opened Text
  import opened GraphTables
  import opened Grouping

  const MAX_CONTEXT_CHARS := 240

  datatype ConceptPayload = ConceptPayload(name: string, context: Option<string>, description: Option<string>,
                                           tier: Option<string>)

  datatype EdgePayload = EdgePayload(src: string, tgt: string, relation: string, description: Option<string>,
                                     keywords: seq<string>, weight: real)

  datatype ExtractedConcept = ExtractedConcept(name: string, context: string, description: string, tier: string)

  datatype ExtractedEdge = ExtractedEdge(src: string, tgt: string, relation: string, description: string,
                                         keywords: seq<string>, weight: int)

  datatype EdgeNorm = EdgeNorm(src: string, tgt: string, relation: string)

  /** VALID_TIERS with their specificity ranks; every other text ranks 0. */
  function TierNameRank(tier: string): int {
    if tier == "umbrella" then 1 else if tier == "topic" then 2 else if tier == "subtopic" then 3
    else if tier == "granular" then 4 else 0
  }

  function ValidTier(tier: Option<string>): string {
    if tier.Some? && TierNameRank(tier.value) > 0 then tier.value else "granular"
  }

  /** The tier of greater rank, the earlier one on a tie. */
  function MoreSpecific(existing: string, candidate: string): string {
    if TierNameRank(candidate) > TierNameRank(existing) then candidate else existing
  }

  /** `value or fallback`: None and the empty text fall back. */
  function Or(value: Option<string>, fallback: string): string {
    if value.Some? && value.value != "" then value.value else fallback
  }

  /** min(99, max(1, int(weight))) for a non-negative weight */
  function ClampWeight(weight: real): int { Min(99, Max(1, weight.Floor)) }

  /** What one call of the normalizer is given besides the payload. */
  datatype Normalizer = Normalizer(names: Names, chunkText: string, conceptMaxChars: int, edgeMaxChars: int) {

    // ---- concepts ----

    function AliasOf(c: ConceptPayload): Option<string> {
      var norm := names.Normalize(c.name);
      if norm == "" then None else Some(norm)
    }

    function Context(c: ConceptPayload): string { TruncateText(Some(Or(c.context, chunkText)), MAX_CONTEXT_CHARS) }

    function Description(c: ConceptPayload): string { TruncateText(c.description, conceptMaxChars) }

    function MakeConcept(c: ConceptPayload): ExtractedConcept {
      ExtractedConcept(Strip(c.name), Context(c), Description(c), ValidTier(c.tier))
    }

    function MergeConcept(existing: ExtractedConcept, candidate: ExtractedConcept): ExtractedConcept {
      ExtractedConcept(existing.name, Longer(existing.context, candidate.context),
                       Longer(existing.description, candidate.description),
                       MoreSpecific(existing.tier, candidate.tier))
    }

    function ByAlias(): Grouper<ConceptPayload, string, ExtractedConcept> {
      Grouper(c => AliasOf(c), c => MakeConcept(c), (a, b) => MergeConcept(a, b))
    }

    function Concepts(payload: seq<ConceptPayload>): seq<ExtractedConcept> { GroupBy(ByAlias(), payload) }

    /** What an entry says of all the mentions of its name. */
    ghost predicate SummarizesConcepts(ps: seq<ConceptPayload>, e: ExtractedConcept)
      requires ps != []
    {
      && e.name == Strip(ps[0].name)
      && IsFirstMax(Contexts(ps), Length, e.context)
      && IsFirstMax(Descriptions(ps), Length, e.description)
      && IsFirstMax(Tiers(ps), TierNameRank, e.tier)
    }

    function Contexts(ps: seq<ConceptPayload>): seq<string> {
      if ps == [] then [] else Contexts(ps[..|ps| - 1]) + [Context(ps[|ps| - 1])]
    }

    function Descriptions(ps: seq<ConceptPayload>): seq<string> {
      if ps == [] then [] else Descriptions(ps[..|ps| - 1]) + [Description(ps[|ps| - 1])]
    }

    function Tiers(ps: seq<ConceptPayload>): seq<string> {
      if ps == [] then [] else Tiers(ps[..|ps| - 1]) + [ValidTier(ps[|ps| - 1].tier)]
    }

    lemma OneConcept(c: ConceptPayload)
      ensures Contexts([c]) == [Context(c)]
      ensures Descriptions([c]) == [Description(c)]
      ensures Tiers([c]) == [ValidTier(c.tier)]
      ensures Fold(ByAlias(), [c]) == MakeConcept(c)
    {
      hide Context, Description, ValidTier;
      assert [c][..0] == [];
      assert Contexts([]) == [] && Descriptions([]) == [] && Tiers([]) == [];
    }

    lemma MentionsAppend(front: seq<ConceptPayload>, last: ConceptPayload)
      ensures Contexts(front + [last]) == Contexts(front) + [Context(last)]
      ensures Descriptions(front + [last]) == Descriptions(front) + [Description(last)]
      ensures Tiers(front + [last]) == Tiers(front) + [ValidTier(last.tier)]
    {
      hide Context, Description, ValidTier;
      assert (front + [last])[..|front|] == front;
    }

    lemma ConceptStep(front: seq<ConceptPayload>, last: ConceptPayload, e: ExtractedConcept)
      requires front != [] && SummarizesConcepts(front, e)
      ensures SummarizesConcepts(front + [last], MergeConcept(e, MakeConcept(last)))
    {
      hide IsFirstMax, Strip, Context, Description, Contexts, Descriptions, Tiers, ValidTier, TierNameRank;
      MentionsAppend(front, last);
      LongerIsFirstMax(Contexts(front), Context(last), e.context);
      LongerIsFirstMax(Descriptions(front), Description(last), e.description);
      MoreSpecificIsFirstMax(Tiers(front), ValidTier(last.tier), e.tier);
    }

    lemma {:induction false} ConceptFold(ps: seq<ConceptPayload>)
      requires ps != []
      ensures SummarizesConcepts(ps, Fold(ByAlias(), ps))
    {
      var front, last := ps[..|ps| - 1], ps[|ps| - 1];
      assert ps == front + [last];
      hide Strip, Context, Description, ValidTier, TierNameRank, Fold;
      if front == [] {
        assert ps == [last];
        OneConcept(last);
        FirstMaxOne(Context(last), Length);
        FirstMaxOne(Description(last), Length);
        FirstMaxOne(ValidTier(last.tier), TierNameRank);
      } else {
        hide IsFirstMax, SummarizesConcepts;
        ConceptFold(front);
        FoldAppend(ByAlias(), front, last);
        ConceptStep(front, last, Fold(ByAlias(), front));
      }
    }

    /** One entry per non-empty normalized name, in order of first appearance, each summarizing all its mentions. */
    lemma ConceptsMeaning(payload: seq<ConceptPayload>)
      ensures var g, es := ByAlias(), Concepts(payload);
              var ks := Keys(g, payload);
              && |es| == |ks| && Distinct(ks)
              && (forall k :: k in ks <==> k != "" && exists c | c in payload :: names.Normalize(c.name) == k)
              && (forall i, j | 0 <= i < j < |ks| ::
                    && Group(g, payload, ks[i]) != [] && Group(g, payload, ks[j]) != []
                    && First(g, payload, ks[i]) < First(g, payload, ks[j]))
              && (forall i | 0 <= i < |es| ::
                    && names.Normalize(es[i].name) == ks[i]
                    && Group(g, payload, ks[i]) != []
                    && SummarizesConcepts(Group(g, payload, ks[i]), es[i]))
    {
      var g, es := ByAlias(), Concepts(payload);
      var ks := Keys(g, payload);
      forall k ensures k in ks <==> k != "" && exists c | c in payload :: names.Normalize(c.name) == k {
        NoGroup(g, payload, k);
      }
      forall i, j | 0 <= i < j < |ks|
        ensures Group(g, payload, ks[i]) != [] && Group(g, payload, ks[j]) != []
        ensures First(g, payload, ks[i]) < First(g, payload, ks[j])
      {
        KeysAreInOrder(g, payload, i, j);
      }
      hide First, SummarizesConcepts;
      forall i | 0 <= i < |es|
        ensures Group(g, payload, ks[i]) != []
        ensures names.Normalize(es[i].name) == ks[i]
        ensures SummarizesConcepts(Group(g, payload, ks[i]), es[i])
      {
        ConceptEntry(payload, ks[i], i);
      }
    }

    lemma ConceptEntry(payload: seq<ConceptPayload>, k: string, i: nat)
      requires i < |Keys(ByAlias(), payload)| && k == Keys(ByAlias(), payload)[i]
      ensures var ps := Group(ByAlias(), payload, k);
              ps != [] && i < |Concepts(payload)| && SummarizesConcepts(ps, Concepts(payload)[i])
      ensures names.Normalize(Concepts(payload)[i].name) == k
    {
      assert k in Keys(ByAlias(), payload);
      var ps := Group(ByAlias(), payload, k);
      ConceptFold(ps);
      assert ps[0] in ps;
      names.NormalizeStrip(ps[0].name);
      hide Strip, Group, Fold;
    }

    /** Extraction emits only names with a non-empty normal form, pairwise different under normalization. */
    lemma NamesAreDistinct(payload: seq<ConceptPayload>)
      ensures var es := Concepts(payload);
              && (forall i | 0 <= i < |es| :: names.Normalize(es[i].name) != "")
              && (forall i, j | 0 <= i < j < |es| :: names.Normalize(es[i].name) != names.Normalize(es[j].name))
    {
      ConceptsMeaning(payload);
      var ks := Keys(ByAlias(), payload);
      hide SummarizesConcepts, First, Group, Concepts;
      assert forall i | 0 <= i < |ks| :: ks[i] in ks;
    }

    /** The first loop of _normalize_payload over its insertion-ordered dictionary. */
    method NormalizeConcepts(payload: seq<ConceptPayload>) returns (concepts: seq<ExtractedConcept>)
      ensures concepts == Concepts(payload)
    {
      ghost var g := ByAlias();
      var conceptByAlias: map<string, ExtractedConcept>, order: seq<string> := map[], [];
      hide TruncateText, Strip, TierNameRank, ValidTier, Context, Description, IsSpace;
      for i := 0 to |payload|
        invariant conceptByAlias == Table(g, payload[..i]) && order == Keys(g, payload[..i])
      {
        var c := payload[i];
        SplitAt(payload, i);
        TableStep(g, payload[..i], c);
        hide Table, Keys;
        var aliasNorm := names.Normalize(c.name);
        if aliasNorm == "" {
          continue;
        }
        var candidate := ExtractedConcept(
          Strip(c.name), TruncateText(Some(Or(c.context, chunkText)), MAX_CONTEXT_CHARS),
          TruncateText(c.description, conceptMaxChars), ValidTier(c.tier));
        assert candidate == g.make(c) by { ConceptCandidate(c); }
        if aliasNorm !in conceptByAlias {
          conceptByAlias := conceptByAlias[aliasNorm := candidate];
          order := order + [aliasNorm];
          continue;
        }
        var existing := conceptByAlias[aliasNorm];
        var description := if |candidate.description| > |existing.description| then candidate.description
          else existing.description;
        var context := if |candidate.context| > |existing.context| then candidate.context else existing.context;
        var tier := if TierNameRank(candidate.tier) > TierNameRank(existing.tier) then candidate.tier
          else existing.tier;
        conceptByAlias := conceptByAlias[aliasNorm := ExtractedConcept(existing.name, context, description, tier)];
      }
      assert payload[..|payload|] == payload;
      concepts := Entries(conceptByAlias, order);
    }

    lemma ConceptCandidate(c: ConceptPayload)
      ensures ExtractedConcept(Strip(c.name), TruncateText(Some(Or(c.context, chunkText)), MAX_CONTEXT_CHARS),
                               TruncateText(c.description, conceptMaxChars), ValidTier(c.tier)) == MakeConcept(c)
    {
      hide Strip, TruncateText;
    }

    /** A normalized concept as a payload again. */
    function AsConceptPayload(e: ExtractedConcept): ConceptPayload {
      ConceptPayload(e.name, Some(e.context), Some(e.description), Some(e.tier))
    }

    function AsConceptPayloads(es: seq<ExtractedConcept>): (ps: seq<ConceptPayload>)
      ensures |ps| == |es| && forall i | 0 <= i < |es| :: ps[i] == AsConceptPayload(es[i])
    {
      if es == [] then [] else AsConceptPayloads(es[..|es| - 1]) + [AsConceptPayload(es[|es| - 1])]
    }

    /** An entry that normalizing changes nothing in. */
    ghost predicate IsSettled(e: ExtractedConcept) { MakeConcept(AsConceptPayload(e)) == e }

    /** A blank text counts as absent before validation strips it. */
    ghost predicate IsStrippedPayload(c: ConceptPayload) { c.context.Some? ==> IsStripped(c.context.value) }

    lemma MadeIsSettled(c: ConceptPayload)
      requires conceptMaxChars >= 1 && IsStrippedPayload(c)
      ensures IsSettled(MakeConcept(c))
    {
      StripLaws(c.name);
      TruncateTextLaws(c.description, conceptMaxChars);
      ContextSettles(c);
      hide TruncateText, Strip;
    }

    lemma ContextSettles(c: ConceptPayload)
      requires IsStrippedPayload(c)
      ensures TruncateText(Some(Or(Some(Context(c)), chunkText)), MAX_CONTEXT_CHARS) == Context(c)
    {
      TruncateTextLaws(Some(Or(c.context, chunkText)), MAX_CONTEXT_CHARS);
      if c.context.Some? && c.context.value != "" {
        StripLaws(c.context.value);
        NonEmptyCut(c.context.value, MAX_CONTEXT_CHARS);
      }
    }

    lemma NonEmptyCut(text: string, maxChars: int)
      requires maxChars >= 1 && text != "" && IsStripped(text)
      ensures TruncateText(Some(text), maxChars) != ""
    {
      StripFixes(text);
    }

    lemma MergedIsSettled(a: ExtractedConcept, b: ExtractedConcept)
      requires IsSettled(a) && IsSettled(b)
      ensures IsSettled(MergeConcept(a, b))
    {
      hide TruncateText, Strip, TierNameRank;
    }

    lemma {:induction false} FoldIsSettled(ps: seq<ConceptPayload>)
      requires ps != [] && conceptMaxChars >= 1 && forall p | p in ps :: IsStrippedPayload(p)
      ensures IsSettled(Fold(ByAlias(), ps))
    {
      var front, last := ps[..|ps| - 1], ps[|ps| - 1];
      assert ps == front + [last] && last in ps;
      hide IsSettled;
      MadeIsSettled(last);
      if front != [] {
        assert forall p | p in front :: p in ps;
        FoldIsSettled(front);
        MergedIsSettled(Fold(ByAlias(), front), MakeConcept(last));
      }
    }

    /** Normalizing the normalizer's own concepts, for the same chunk, changes nothing. */
    lemma ConceptsIdempotent(payload: seq<ConceptPayload>)
      requires conceptMaxChars >= 1 && forall p | p in payload :: IsStrippedPayload(p)
      ensures Concepts(AsConceptPayloads(Concepts(payload))) == Concepts(payload)
    {
      var es, ks := Concepts(payload), Keys(ByAlias(), payload);
      NamesAreDistinct(payload);
      hide Fold, Group, IsStrippedPayload;
      forall i | 0 <= i < |es| ensures IsSettled(es[i]) {
        assert ks[i] in ks;
        FoldIsSettled(Group(ByAlias(), payload, ks[i]));
      }
      hide Concepts;
      GroupByFixpoint(ByAlias(), AsConceptPayloads(es), es);
      assert Concepts(AsConceptPayloads(es)) == GroupBy(ByAlias(), AsConceptPayloads(es))
        by { ConceptsIs(AsConceptPayloads(es)); }
    }

    lemma ConceptsIs(payload: seq<ConceptPayload>)
      ensures Concepts(payload) == GroupBy(ByAlias(), payload)
    {
    }

    // ---- edges ----

    function KeyOf(e: EdgePayload): Option<EdgeNorm> {
      var src, tgt, relation := names.Normalize(e.src), names.Normalize(e.tgt), names.Normalize(e.relation);
      if src == "" || tgt == "" || relation == "" then None else Some(EdgeNorm(src, tgt, relation))
    }

    function EdgeDescription(e: EdgePayload): string { TruncateText(e.description, edgeMaxChars) }

    function MakeEdge(e: EdgePayload): ExtractedEdge {
      ExtractedEdge(Strip(e.src), Strip(e.tgt), Strip(e.relation), EdgeDescription(e), names.Dedupe(e.keywords),
                    ClampWeight(e.weight))
    }

    function MergeEdge(existing: ExtractedEdge, candidate: ExtractedEdge): ExtractedEdge {
      ExtractedEdge(existing.src, existing.tgt, existing.relation, Longer(existing.description, candidate.description),
                    names.Dedupe(existing.keywords + candidate.keywords),
                    Min(99, Max(existing.weight, candidate.weight)))
    }

    function ByKey(): Grouper<EdgePayload, EdgeNorm, ExtractedEdge> {
      Grouper(e => KeyOf(e), e => MakeEdge(e), (a, b) => MergeEdge(a, b))
    }

    function Edges(payload: seq<EdgePayload>): seq<ExtractedEdge> { GroupBy(ByKey(), payload) }

    function EdgeDescriptions(ps: seq<EdgePayload>): seq<string> {
      if ps == [] then [] else EdgeDescriptions(ps[..|ps| - 1]) + [EdgeDescription(ps[|ps| - 1])]
    }

    function AllKeywords(ps: seq<EdgePayload>): seq<string> {
      if ps == [] then [] else AllKeywords(ps[..|ps| - 1]) + ps[|ps| - 1].keywords
    }

    /** The keywords are those of all mentions, deduplicated once; the weight is the greatest clamped one. */
    ghost predicate SummarizesEdges(ps: seq<EdgePayload>, e: ExtractedEdge)
      requires ps != []
    {
      && e.src == Strip(ps[0].src) && e.tgt == Strip(ps[0].tgt) && e.relation == Strip(ps[0].relation)
      && IsFirstMax(EdgeDescriptions(ps), Length, e.description)
      && e.keywords == names.Dedupe(AllKeywords(ps))
      && (forall p | p in ps :: ClampWeight(p.weight) <= e.weight)
      && (exists p | p in ps :: e.weight == ClampWeight(p.weight))
    }

    lemma KeywordsStep(front: seq<EdgePayload>, last: EdgePayload)
      ensures names.Dedupe(names.Dedupe(AllKeywords(front)) + names.Dedupe(last.keywords)) ==
                names.Dedupe(AllKeywords(front + [last]))
    {
      assert (front + [last])[..|front|] == front;
      names.DedupeConcat(AllKeywords(front), last.keywords);
    }

    lemma OneEdge(e: EdgePayload)
      ensures EdgeDescriptions([e]) == [EdgeDescription(e)]
      ensures AllKeywords([e]) == e.keywords
      ensures Fold(ByKey(), [e]) == MakeEdge(e)
    {
      hide EdgeDescription;
      assert [e][..0] == [];
      assert EdgeDescriptions([]) == [] && AllKeywords([]) == [];
    }

    lemma EdgeMentionsAppend(front: seq<EdgePayload>, last: EdgePayload)
      ensures EdgeDescriptions(front + [last]) == EdgeDescriptions(front) + [EdgeDescription(last)]
    {
      hide EdgeDescription;
      assert (front + [last])[..|front|] == front;
    }

    lemma EdgeStep(front: seq<EdgePayload>, last: EdgePayload, e: ExtractedEdge)
      requires front != [] && SummarizesEdges(front, e)
      ensures SummarizesEdges(front + [last], MergeEdge(e, MakeEdge(last)))
    {
      hide IsFirstMax, Strip, EdgeDescription, EdgeDescriptions, Names.Dedupe, AllKeywords, ClampWeight;
      EdgeMentionsAppend(front, last);
      LongerIsFirstMax(EdgeDescriptions(front), EdgeDescription(last), e.description);
      KeywordsStep(front, last);
      ClampIsBounded(last.weight);
      var p :| p in front && e.weight == ClampWeight(p.weight);
      ClampIsBounded(p.weight);
      assert p in front + [last] && last in front + [last];
    }

    lemma ClampIsBounded(weight: real)
      ensures 1 <= ClampWeight(weight) <= 99
    {
    }

    lemma {:induction false} EdgeFold(ps: seq<EdgePayload>)
      requires ps != []
      ensures SummarizesEdges(ps, Fold(ByKey(), ps))
    {
      var front, last := ps[..|ps| - 1], ps[|ps| - 1];
      assert ps == front + [last];
      hide Strip, EdgeDescription, Names.Dedupe, Fold;
      if front == [] {
        assert ps == [last];
        OneEdge(last);
        FirstMaxOne(EdgeDescription(last), Length);
      } else {
        hide IsFirstMax, SummarizesEdges;
        EdgeFold(front);
        FoldAppend(ByKey(), front, last);
        EdgeStep(front, last, Fold(ByKey(), front));
      }
    }

    lemma EdgeEntry(payload: seq<EdgePayload>, k: EdgeNorm, i: nat)
      requires i < |Keys(ByKey(), payload)| && k == Keys(ByKey(), payload)[i]
      ensures var ps := Group(ByKey(), payload, k);
              ps != [] && i < |Edges(payload)| && SummarizesEdges(ps, Edges(payload)[i])
      ensures var e := Edges(payload)[i];
              EdgeNorm(names.Normalize(e.src), names.Normalize(e.tgt), names.Normalize(e.relation)) == k
    {
      assert k in Keys(ByKey(), payload);
      var ps := Group(ByKey(), payload, k);
      EdgeFold(ps);
      assert ps[0] in ps;
      names.NormalizeStrip(ps[0].src);
      names.NormalizeStrip(ps[0].tgt);
      names.NormalizeStrip(ps[0].relation);
      hide Strip, Group, Fold;
    }

    /** One entry per normalized triple with no empty part, in order of first appearance. */
    lemma EdgesMeaning(payload: seq<EdgePayload>)
      ensures var g, es := ByKey(), Edges(payload);
              var ks := Keys(g, payload);
              && |es| == |ks| && Distinct(ks)
              && (forall k :: k in ks <==> exists e | e in payload :: KeyOf(e) == Some(k))
              && (forall i, j | 0 <= i < j < |ks| ::
                    && Group(g, payload, ks[i]) != [] && Group(g, payload, ks[j]) != []
                    && First(g, payload, ks[i]) < First(g, payload, ks[j]))
              && (forall i | 0 <= i < |es| ::
                    && EdgeNorm(names.Normalize(es[i].src), names.Normalize(es[i].tgt),
                                names.Normalize(es[i].relation)) == ks[i]
                    && Group(g, payload, ks[i]) != []
                    && SummarizesEdges(Group(g, payload, ks[i]), es[i]))
    {
      var g, es := ByKey(), Edges(payload);
      var ks := Keys(g, payload);
      EdgesAreKeyed(payload);
      hide First, SummarizesEdges, Names.Normalize, Edges, ByKey, KeyOf, Keys, Group;
      EdgeKeysInOrder(payload);
      forall i | 0 <= i < |es|
        ensures Group(g, payload, ks[i]) != []
        ensures EdgeNorm(names.Normalize(es[i].src), names.Normalize(es[i].tgt), names.Normalize(es[i].relation)) ==
                  ks[i]
        ensures SummarizesEdges(Group(g, payload, ks[i]), es[i])
      {
        EdgeEntry(payload, ks[i], i);
      }
    }

    lemma EdgesAreKeyed(payload: seq<EdgePayload>)
      ensures |Edges(payload)| == |Keys(ByKey(), payload)|
    {
      hide ByKey, Keys;
    }

    lemma EdgeKeysInOrder(payload: seq<EdgePayload>)
      ensures var g, ks := ByKey(), Keys(ByKey(), payload);
              && Distinct(ks)
              && (forall k :: k in ks <==> exists e | e in payload :: KeyOf(e) == Some(k))
              && (forall i, j | 0 <= i < j < |ks| ::
                    && Group(g, payload, ks[i]) != [] && Group(g, payload, ks[j]) != []
                    && First(g, payload, ks[i]) < First(g, payload, ks[j]))
    {
      var g, ks := ByKey(), Keys(ByKey(), payload);
      hide KeyOf, Keys, Group, First, MakeEdge, MergeEdge;
      forall k ensures k in ks <==> exists e | e in payload :: KeyOf(e) == Some(k) {
        NoGroup(g, payload, k);
      }
      forall i, j | 0 <= i < j < |ks|
        ensures Group(g, payload, ks[i]) != [] && Group(g, payload, ks[j]) != []
        ensures First(g, payload, ks[i]) < First(g, payload, ks[j])
      {
        KeysAreInOrder(g, payload, i, j);
      }
    }

    function AsEdgePayload(e: ExtractedEdge): EdgePayload {
      EdgePayload(e.src, e.tgt, e.relation, Some(e.description), e.keywords, e.weight as real)
    }

    function AsEdgePayloads(es: seq<ExtractedEdge>): (ps: seq<EdgePayload>)
      ensures |ps| == |es| && forall i | 0 <= i < |es| :: ps[i] == AsEdgePayload(es[i])
    {
      if es == [] then [] else AsEdgePayloads(es[..|es| - 1]) + [AsEdgePayload(es[|es| - 1])]
    }

    ghost predicate IsSettledEdge(e: ExtractedEdge) { MakeEdge(AsEdgePayload(e)) == e }

    lemma DedupeAgain(ks: seq<string>)
      ensures names.Dedupe(names.Dedupe(ks)) == names.Dedupe(ks)
    {
      names.DedupeMeaning(ks);
      hide Names.Dedupe;
      names.DedupeFixpoint(names.Dedupe(ks));
    }

    lemma MadeEdgeIsSettled(e: EdgePayload)
      requires edgeMaxChars >= 1
      ensures IsSettledEdge(MakeEdge(e))
    {
      StripIdempotent(e.src);
      StripIdempotent(e.tgt);
      StripIdempotent(e.relation);
      TruncateTextLaws(e.description, edgeMaxChars);
      DedupeAgain(e.keywords);
      hide TruncateText, Strip, Names.Dedupe;
    }

    lemma MergedEdgeIsSettled(a: ExtractedEdge, b: ExtractedEdge)
      requires IsSettledEdge(a) && IsSettledEdge(b)
      ensures IsSettledEdge(MergeEdge(a, b))
    {
      hide TruncateText, Strip, Names.Dedupe;
      DedupeAgain(a.keywords + b.keywords);
    }

    lemma {:induction false} FoldEdgeIsSettled(ps: seq<EdgePayload>)
      requires ps != [] && edgeMaxChars >= 1
      ensures IsSettledEdge(Fold(ByKey(), ps))
    {
      var front, last := ps[..|ps| - 1], ps[|ps| - 1];
      assert ps == front + [last];
      hide IsSettledEdge;
      MadeEdgeIsSettled(last);
      if front != [] {
        FoldEdgeIsSettled(front);
        MergedEdgeIsSettled(Fold(ByKey(), front), MakeEdge(last));
      }
    }

    /** Normalizing the normalizer's own edges changes nothing. */
    lemma EdgesIdempotent(payload: seq<EdgePayload>)
      requires edgeMaxChars >= 1
      ensures Edges(AsEdgePayloads(Edges(payload))) == Edges(payload)
    {
      var es, ks := Edges(payload), Keys(ByKey(), payload);
      EdgesMeaning(payload);
      hide Fold, Group, SummarizesEdges, First;
      forall i | 0 <= i < |es| ensures IsSettledEdge(es[i]) && KeyOf(AsEdgePayload(es[i])) == Some(ks[i]) {
        EdgeSettles(payload, i);
      }
      hide Edges, IsSettledEdge;
      SettledEdges(es, ks);
    }

    lemma EdgeSettles(payload: seq<EdgePayload>, i: nat)
      requires i < |Edges(payload)| && edgeMaxChars >= 1
      ensures IsSettledEdge(Edges(payload)[i])
      ensures KeyOf(AsEdgePayload(Edges(payload)[i])) == Some(Keys(ByKey(), payload)[i])
    {
      var ks := Keys(ByKey(), payload);
      assert ks[i] in ks;
      FoldEdgeIsSettled(Group(ByKey(), payload, ks[i]));
      EdgeEntry(payload, ks[i], i);
      var p := Group(ByKey(), payload, ks[i])[0];
      assert p in Group(ByKey(), payload, ks[i]);
      hide Fold, Group, SummarizesEdges, IsSettledEdge;
    }

    lemma SettledEdges(es: seq<ExtractedEdge>, ks: seq<EdgeNorm>)
      requires |es| == |ks| && Distinct(ks)
      requires forall i | 0 <= i < |es| :: IsSettledEdge(es[i]) && KeyOf(AsEdgePayload(es[i])) == Some(ks[i])
      ensures Edges(AsEdgePayloads(es)) == es
    {
      hide KeyOf, MakeEdge;
      GroupByFixpoint(ByKey(), AsEdgePayloads(es), es);
    }

    /** One more edge in the pass. */
    lemma EdgePass(front: seq<EdgePayload>, e: EdgePayload)
      ensures var g, t, ks := ByKey(), Table(ByKey(), front), Keys(ByKey(), front);
              match KeyOf(e)
              case None => Table(g, front + [e]) == t && Keys(g, front + [e]) == ks
              case Some(k) =>
                && Table(g, front + [e]) == t[k := if k in t then MergeEdge(t[k], MakeEdge(e)) else MakeEdge(e)]
                && Keys(g, front + [e]) == if k in t then ks else ks + [k]
    {
      hide KeyOf, MakeEdge, MergeEdge, Table, Keys;
      TableStep(ByKey(), front, e);
    }

    method NormalizeEdges(payload: seq<EdgePayload>) returns (edges: seq<ExtractedEdge>)
      ensures edges == Edges(payload)
    {
      ghost var g := ByKey();
      var edgeByKey: map<EdgeNorm, ExtractedEdge>, order: seq<EdgeNorm> := map[], [];
      hide TruncateText, Strip, IsSpace, Names.Dedupe, Names.Normalize;
      for i := 0 to |payload|
        invariant edgeByKey == Table(g, payload[..i]) && order == Keys(g, payload[..i])
      {
        var e := payload[i];
        SplitAt(payload, i);
        EdgePass(payload[..i], e);
        hide Table, Keys, ByKey;
        var srcNorm, tgtNorm, relationNorm :=
          names.Normalize(e.src), names.Normalize(e.tgt), names.Normalize(e.relation);
        if srcNorm == "" || tgtNorm == "" || relationNorm == "" {
          continue;
        }
        var key := EdgeNorm(srcNorm, tgtNorm, relationNorm);
        var keywords := names.DedupeKeywords(e.keywords);
        var candidate := ExtractedEdge(
          Strip(e.src), Strip(e.tgt), Strip(e.relation), TruncateText(e.description, edgeMaxChars), keywords,
          Min(99, Max(1, e.weight.Floor)));
        if key !in edgeByKey {
          edgeByKey := edgeByKey[key := candidate];
          order := order + [key];
          continue;
        }
        var existing := edgeByKey[key];
        var merged := names.DedupeKeywords(existing.keywords + candidate.keywords);
        var description := if |candidate.description| > |existing.description| then candidate.description
          else existing.description;
        edgeByKey := edgeByKey[key := ExtractedEdge(existing.src, existing.tgt, existing.relation, description, merged,
                                                    Min(99, Max(existing.weight, candidate.weight)))];
      }
      assert payload[..|payload|] == payload;
      edges := Entries(edgeByKey, order);
    }
  }

  lemma LongerIsFirstMax(xs: seq<string>, x: string, r: string)
    requires IsFirstMax(xs, Length, r)
    ensures IsFirstMax(xs + [x], Length, Longer(r, x))
  {
    hide IsFirstMax;
    FirstMaxStep(xs, x, Length, r);
    assert Longer(r, x) == if Length(x) > Length(r) then x else r;
  }

  lemma MoreSpecificIsFirstMax(xs: seq<string>, x: string, r: string)
    requires IsFirstMax(xs, TierNameRank, r)
    ensures IsFirstMax(xs + [x], TierNameRank, MoreSpecific(r, x))
  {
    hide IsFirstMax;
    FirstMaxStep(xs, x, TierNameRank, r);
    assert MoreSpecific(r, x) == if TierNameRank(x) > TierNameRank(r) then x else r;
  }

  /** len, as the measure of descriptions and contexts. */
  function Length(s: string): int { |s| }
}
