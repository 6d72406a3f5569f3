/** How an answer becomes a decision and what a decision writes, said of answers and rows alone
    (domain/graph/resolver.py, domain/graph/resolver_apply.py, domain/graph/resolver_decision.py). */
module ResolverOutcome {
  import opened Wrappers
  import opened Ordering
  import opened Sequences
  import opened Text
  import opened GraphTables
  import opened EdgeTable
  import opened GardenerMerge
  import opened GardenerDecisions
  import opened Extraction
  import opened Disambiguation
  import opened ResolverDecisions
  import opened ResolverApply
  import opened MergeRows

  // ---- from an answer to a decision ----

  /** An operation has a confidence between 0 and 1, and says where to merge or what to link to. */
  predicate IsUsable(op: Op) {
    && op.Op? && 0.0 <= op.confidence <= 1.0
    && (op.kind == MergeInto ==> op.mergeInto.Some?) && (op.kind == LinkOnly ==> op.linkTo.Some?)
  }

  /** Operation m of an answer is the one taken: merging goes before linking and linking before creating; within a kind
      the highest confidence counts, and among equals the first. */
  ghost predicate IsPreferred(ops: seq<Proposal>, m: nat) {
    && m < |ops| && IsUsable(ops[m].op)
    && (forall j | 0 <= j < |ops| && IsUsable(ops[j].op) :: IsNoBetter(ops[j].op, j, ops[m].op, m))
  }

  predicate IsNoBetter(other: Op, j: nat, op: Op, m: nat)
    requires other.Op? && op.Op?
  {
    && (other.kind == MergeInto ==> op.kind == MergeInto)
    && (other.kind == LinkOnly ==> op.kind != CreateNew)
    && (other.kind == op.kind ==> other.confidence <= op.confidence && (j < m ==> other.confidence < op.confidence))
  }

  lemma UsableIsValid(op: Op)
    ensures IsUsable(op) <==> IsValidPayload(op)
  {
  }

  /** The choice among the operations of an answer. */
  lemma BestIsPreferred(ops: seq<Proposal>) returns (m: nat)
    requires exists k :: 0 <= k < |ops| && IsUsable(ops[k].op)
    ensures IsPreferred(ops, m) && Best(ops) == Some(ops[m])
  {
    var k :| 0 <= k < |ops| && IsUsable(ops[k].op);
    UsableIsValid(ops[k].op);
    m := BestMeaning(ops);
    UsableIsValid(ops[m].op);
    hide Best, IsUsable;
    forall j | 0 <= j < |ops| && IsUsable(ops[j].op) ensures IsNoBetter(ops[j].op, j, ops[m].op, m) {
      UsableIsValid(ops[j].op);
      NoBetter(ops[j].op, j, ops[m].op, m);
    }
  }

  lemma NoBetter(other: Op, j: nat, op: Op, m: nat)
    requires other.Op? && op.Op?
    requires if j < m then Beats(op, other) else !Beats(other, op)
    ensures IsNoBetter(other, j, op, m)
  {
  }

  /** What the taken operation decides: nothing but a new concept below the confidence floor or when it points
      elsewhere than at a candidate. */
  ghost predicate Follows(p: Proposal, candidates: seq<int>, floor: real, d: Decision)
    requires p.op.Op?
  {
    && d.aliasToAdd == p.aliasToAdd && d.llmUsed
    && (if p.op.confidence >= floor && p.op.kind == MergeInto && p.op.mergeInto.Some? &&
           p.op.mergeInto.value in candidates
        then d.kind == MergeInto && d.mergeInto == p.op.mergeInto && d.linkTo == None && d.relation == None
        else if p.op.confidence >= floor && p.op.kind == LinkOnly && p.op.linkTo.Some? &&
                p.op.linkTo.value in candidates
        then && d.kind == LinkOnly && d.mergeInto == None && d.linkTo == p.op.linkTo
             && d.relation ==
                  Some(if p.op.relation.Some? && p.op.relation.value != "" then p.op.relation.value else "related_to")
        else d.kind == CreateNew && d.mergeInto == None && d.linkTo == None && d.relation == None)
  }

  /** Creating a new concept, with nothing from the model. */
  predicate OnlyCreates(d: Decision, llmUsed: bool) {
    && d.kind == CreateNew && d.mergeInto == None && d.linkTo == None && d.relation == None && d.aliasToAdd == None
    && d.llmUsed == llmUsed
  }

  /** The decision at a position of a batch. Without candidates or without a call left it creates; when the call failed
      or no operation of its answer is usable it creates too; otherwise it follows the preferred operation of its
      answer, which is the one whose position counts the earlier concepts with candidates. */
  lemma BatchDecisionMeaning(asking: Asking, batch: seq<Pending>, left: bool, tick: nat, i: nat)
    requires i < |batch|
    ensures var d, at := asking.Decisions(batch, left, tick)[i], WithCandidates(batch, i);
            var reply := BatchReply(asking.client, asking.batch, tick, asking.Queries(batch, |batch|));
            if !left || batch[i].candidates == [] then OnlyCreates(d, false)
            else if reply.None? then OnlyCreates(d, true)
            else
              && at < |reply.value|
              && var ops := reply.value[at].ops;
                 if forall k | 0 <= k < |ops| :: !IsUsable(ops[k].op) then OnlyCreates(d, true)
                 else exists m: nat :: IsPreferred(ops, m) && Follows(ops[m], batch[i].candidates, asking.floor, d)
  {
    hide BatchReply, Asking.Queries, Best, IsUsable, IsPreferred, Follows, PayloadToDecision;
    asking.DecisionIs(batch, left, tick, i, |batch|);
    if left && batch[i].candidates != [] {
      asking.AskedAt(batch, i, |batch|);
      CountsAsked(asking, batch, i);
      var reply := BatchReply(asking.client, asking.batch, tick, asking.Queries(batch, |batch|));
      if reply.Some? { ChosenMeaning(asking, reply.value[WithCandidates(batch, i)], batch[i].candidates); }
    }
  }

  /** The number of concepts with candidates among the first n. */
  function WithCandidates(batch: seq<Pending>, n: nat): nat
    requires n <= |batch|
  {
    |PositionsAsked(batch, n)|
  }

  function PositionsAsked(batch: seq<Pending>, n: nat): set<nat>
    requires n <= |batch|
  {
    set k: nat | k < n && batch[k].candidates != []
  }

  lemma PositionsStep(batch: seq<Pending>, n: nat)
    requires n < |batch|
    ensures PositionsAsked(batch, n + 1) == PositionsAsked(batch, n) + if batch[n].candidates != [] then {n} else {}
    ensures n !in PositionsAsked(batch, n)
  {
  }

  lemma {:induction false} CountsAsked(asking: Asking, batch: seq<Pending>, n: nat)
    requires n <= |batch|
    ensures |asking.Asked(batch, n)| == WithCandidates(batch, n)
  {
    if n > 0 {
      hide PositionsAsked;
      CountsAsked(asking, batch, n - 1);
      PositionsStep(batch, n - 1);
    }
  }

  lemma ChosenMeaning(asking: Asking, a: Answer, candidates: seq<int>)
    ensures var d := asking.Chosen(a, candidates);
            if forall k | 0 <= k < |a.ops| :: !IsUsable(a.ops[k].op) then OnlyCreates(d, true)
            else exists m: nat :: IsPreferred(a.ops, m) && Follows(a.ops[m], candidates, asking.floor, d)
  {
    BestExists(a.ops);
    hide Best, IsPreferred;
    forall k | 0 <= k < |a.ops| ensures IsUsable(a.ops[k].op) <==> IsValidPayload(a.ops[k].op) {
      UsableIsValid(a.ops[k].op);
    }
    hide IsUsable, IsValidPayload;
    if exists k :: 0 <= k < |a.ops| && IsUsable(a.ops[k].op) {
      var m := BestIsPreferred(a.ops);
      PreferredIsUsable(a.ops, m);
      FollowsPayload(a.ops[m], candidates, asking.floor);
    }
  }

  lemma PreferredIsUsable(ops: seq<Proposal>, m: nat)
    requires IsPreferred(ops, m)
    ensures m < |ops| && ops[m].op.Op?
  {
  }

  lemma FollowsPayload(p: Proposal, candidates: seq<int>, floor: real)
    requires p.op.Op?
    ensures Follows(p, candidates, floor, PayloadToDecision(p, candidates, floor))
  {
  }

  // ---- from a decision to the rows ----

  /** Some active concept has the name, ignoring case, and no such concept has a smaller id. */
  ghost predicate IsNamesake(p: ResolverPolicy, t: Tables, name: string, id: int) {
    && IsActive(t, id) && p.lower(t.concepts[id].name) == p.lower(name)
    && forall c | IsActive(t, c) && p.lower(t.concepts[c].name) == p.lower(name) :: id <= c
  }

  /** Where a mention goes: to the target of its merge; otherwise to its namesake; otherwise to the row that
      holds exactly its name; and otherwise to a fresh row. */
  ghost predicate GoesTo(p: ResolverPolicy, t: Tables, raw: ExtractedConcept, d: Decision, id: int, created: bool) {
    var name := Strip(raw.name);
    if d.kind == MergeInto && d.mergeInto.Some? && d.mergeInto.value in t.concepts
    then id == d.mergeInto.value && !created
    else if exists c :: IsNamesake(p, t, name, c) then IsNamesake(p, t, name, id) && !created
    else if exists c :: c in t.concepts && t.concepts[c].name == name
    then id in t.concepts && t.concepts[id].name == name && created
    else id == t.nextConcept && created
  }

  /** The tier a text names, if it names one. */
  predicate NamesTier(tier: string, value: Option<Tier>) {
    match value
    case Some(Umbrella) => tier == "umbrella"
    case Some(Topic) => tier == "topic"
    case Some(Subtopic) => tier == "subtopic"
    case Some(Granular) => tier == "granular"
    case None => tier != "umbrella" && tier != "topic" && tier != "subtopic" && tier != "granular"
  }

  /** One value is named by each text, and the ranks by value and by name agree. */
  lemma TierNamesAgree(tier: string, value: Option<Tier>)
    ensures NamesTier(tier, value) <==> TierNamed(tier) == value
    ensures NamesTier(tier, value) ==> TierRank(value) == TierNameRank(tier)
  {
  }

  /** Some alias has the same normal form. */
  ghost predicate IsKnown(names: Names, aliases: seq<string>, alias: string) {
    exists i :: 0 <= i < |aliases| && names.Normalize(aliases[i]) == names.Normalize(alias)
  }

  /** The row of a concept after another mention was merged into it: name and activity stay; the alias is appended
      unless it is blank or known; the tier is the more specific one, the stored one on a tie; and anything that changed
      makes the row dirty. */
  ghost predicate TakesMention(names: Names, row: Concept, s: Step, tier: Option<Tier>, after: Concept) {
    var alias := Strip(if s.decision.aliasToAdd.Some? && s.decision.aliasToAdd.value != ""
                       then s.decision.aliasToAdd.value else s.raw.name);
    && after.name == row.name && after.active == row.active
    && after.aliases ==
         (if alias == "" || IsKnown(names, row.aliases, alias) then row.aliases else row.aliases + [alias])
    && after.tier == (if TierRank(tier) > TierRank(row.tier) then tier else row.tier)
    && (after.dirty <==> row.dirty || s.changed || after.aliases != row.aliases || after.tier != row.tier)
  }

  lemma KnownIs(names: Names, aliases: seq<string>, alias: string)
    ensures IsKnown(names, aliases, alias) <==> names.Normalize(alias) in names.NormSet(aliases)
  {
    hide Names.Normalize;
    if IsKnown(names, aliases, alias) {
      var i :| 0 <= i < |aliases| && names.Normalize(aliases[i]) == names.Normalize(alias);
      assert aliases[i] in aliases;
    }
  }

  lemma MergedRowMeaning(names: Names, row: Concept, s: Step, tier: Option<Tier>)
    requires NamesTier(s.raw.tier, tier)
    ensures TakesMention(names, row, s, tier, MergedRow(names, row, s))
  {
    TierNamesAgree(s.raw.tier, tier);
    hide Names.Normalize, Strip, NamesTier, IsKnown, Names.NormSet;
    var text := if s.decision.aliasToAdd.Some? && s.decision.aliasToAdd.value != "" then s.decision.aliasToAdd.value
      else s.raw.name;
    KnownIs(names, row.aliases, Strip(text));
    Stripped(text);
  }

  lemma Stripped(text: string)
    ensures Strip(Strip(text)) == Strip(text)
  {
    StripLaws(text);
  }

  /** A fresh row for a mention, or a retired row that is reused, whose tier becomes the more general one. */
  ghost predicate IsMade(t: Tables, s: Step, tier: Option<Tier>, id: int, after: Concept) {
    if id in t.concepts
    then after == t.concepts[id].(tier := after.tier) && IsMoreGeneral(after.tier, t.concepts[id].tier, tier)
    else after == Concept(Strip(s.raw.name), [Strip(s.raw.name)], tier, true, true)
  }

  /** The edge a decision to link asks for: from the mention's concept to the target. */
  ghost predicate IsLink(s: Step, id: int, edge: Edge) {
    && s.decision.linkTo.Some?
    && edge.key == EdgeKey(id, s.decision.linkTo.value,
                           if s.decision.relation.Some? && s.decision.relation.value != ""
                           then s.decision.relation.value else "related_to")
    && edge.description == s.raw.name + " is related to candidate #" + Decimal(s.decision.linkTo.value)
    && edge.keywords == [] && edge.weight == 1.0
  }

  /** The concept rows after a decision on a mention that went to a row. */
  ghost predicate AreWritten(names: Names, t: Tables, s: Step, tier: Option<Tier>, r: ResolvedConcept,
                             concepts: map<int, Concept>)
  {
    && concepts.Keys == t.concepts.Keys + {r.id}
    && (forall c | c in t.concepts && c != r.id :: concepts[c] == t.concepts[c])
    && (if r.created then IsMade(t, s, tier, r.id, concepts[r.id])
        else r.id in t.concepts && TakesMention(names, t.concepts[r.id], s, tier, concepts[r.id]))
  }

  /** What a decision writes. Its mention goes where GoesTo says; the row there takes the mention or is made, and no
      other concept changes; the mention's normal form leads there, and provenance in the chunk is added;
      a decision to link upserts its one edge, unless that would be a loop, which is refused. */
  lemma DecisionOutcome(p: ResolverPolicy, chunk: int, t: Tables, s: Step, tier: Option<Tier>)
    requires Ready(p.edges, t) && IsGrounded(t, s.decision) && NamesTier(s.raw.tier, tier)
    ensures var r, after := ResolvedBy(p, t, s), Applied(p, chunk, t, s);
            && GoesTo(p, t, s.raw, s.decision, r.id, r.created) && r.llmUsed == s.decision.llmUsed
            && AreWritten(p.edges.names, t, s, tier, r, after.concepts)
            && after.nextConcept == (if r.id in t.concepts then t.nextConcept else t.nextConcept + 1)
            && after.aliases == t.aliases[p.edges.names.Normalize(s.raw.name) := r.id]
            && after.provenance == t.provenance + {(ConceptTarget(r.id), chunk)}
            && SameElsewhere(t, after)
            && WritesLink(p, t, s, r.id, after)
    ensures Fails(p, t, s) <==>
            s.decision.kind == LinkOnly && s.decision.linkTo == Some(ResolvedBy(p, t, s).id)
  {
    hide GoesTo, AreWritten, WritesLink, ResolvedId, Ready, ConceptsAfter, EdgesAfter, IsGrounded, FindByName,
      NamesTier, Names.Normalize, Strip;
    WhereItGoes(p, t, s);
    RowsWritten(p, t, s, tier);
    LinkWritten(p, chunk, t, s);
    IdsTaken(p, t, s);
  }

  lemma IdsTaken(p: ResolverPolicy, t: Tables, s: Step)
    requires Ready(p.edges, t) && IsGrounded(t, s.decision)
    ensures ResolvedId(p, t, s) in t.concepts <==> ResolvedId(p, t, s) != t.nextConcept
  {
    FreshIsNext(p, t, s);
    NextIsFree(p, t);
    hide ResolvedId, Ready;
  }

  lemma RowsWritten(p: ResolverPolicy, t: Tables, s: Step, tier: Option<Tier>)
    requires Ready(p.edges, t) && IsGrounded(t, s.decision) && NamesTier(s.raw.tier, tier)
    ensures AreWritten(p.edges.names, t, s, tier, ResolvedBy(p, t, s), ConceptsAfter(p, t, s))
  {
    hide ResolvedId, Ready, IsGrounded, MergedRow, TakesMention, NamesTier, IsMade, CreatedConcepts;
    FreshIsNext(p, t, s);
    var id := ResolvedId(p, t, s);
    if ResolvedBy(p, t, s).created {
      RowMade(t, s, tier, id);
    } else {
      MergedRowMeaning(p.edges.names, t.concepts[id], s, tier);
    }
  }

  lemma RowMade(t: Tables, s: Step, tier: Option<Tier>, id: int)
    requires NamesTier(s.raw.tier, tier)
    ensures var concepts := CreatedConcepts(t, s, id);
            && concepts.Keys == t.concepts.Keys + {id} && IsMade(t, s, tier, id, concepts[id])
            && (forall c | c in t.concepts && c != id :: concepts[c] == t.concepts[c])
  {
    TierNamesAgree(s.raw.tier, tier);
    if id in t.concepts { LeastIsGeneral(t.concepts[id].tier, tier); }
    hide Strip, NamesTier, LeastTier, TierNamed, IsMoreGeneral;
  }

  lemma LeastIsGeneral(stored: Option<Tier>, incoming: Option<Tier>)
    ensures IsMoreGeneral(LeastTier(stored, incoming), stored, incoming)
  {
  }

  /** A decision to link upserts its edge; any other leaves the edges alone. */
  ghost predicate WritesLink(p: ResolverPolicy, t: Tables, s: Step, id: int, after: Tables)
    requires Ready(p.edges, t)
  {
    if s.decision.kind == LinkOnly && s.decision.linkTo.Some?
    then exists edge :: IsLink(s, id, edge) && Upserts(p.edges, t, after, edge)
    else after.edges == t.edges && after.nextEdge == t.nextEdge
  }

  lemma LinkWritten(p: ResolverPolicy, chunk: int, t: Tables, s: Step)
    requires Ready(p.edges, t)
    ensures WritesLink(p, t, s, ResolvedBy(p, t, s).id, Applied(p, chunk, t, s))
  {
    hide ResolvedId, ConceptsAfter, Valid, Upsert, Names.Normalize;
    var id := ResolvedId(p, t, s);
    RowsSound(p, t);
    if Links(s) {
      assert IsLink(s, id, DecidedLink(s, id));
      assert Upserts(p.edges, t, Applied(p, chunk, t, s), DecidedLink(s, id));
    }
  }

  ghost predicate Upserts(policy: EdgePolicy, t: Tables, after: Tables, edge: Edge)
    requires Ready(policy, t)
  {
    EdgeRows(after.edges, after.nextEdge) == Upsert(policy, EdgeRows(t.edges, t.nextEdge), edge).0
  }

  lemma WhereItGoes(p: ResolverPolicy, t: Tables, s: Step)
    ensures GoesTo(p, t, s.raw, s.decision, ResolvedBy(p, t, s).id, ResolvedBy(p, t, s).created)
  {
    hide Strip;
    var name := Strip(s.raw.name);
    var own := FindByName(p, t, name);
    assert own.Some? <==> exists c :: IsNamesake(p, t, name, c) by {
      if own.Some? { assert IsNamesake(p, t, name, own.value); }
    }
    hide FindByName, NameHolder;
  }
}
