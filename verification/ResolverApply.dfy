/** Writing one resolver decision to the tables (domain/graph/resolver.py _apply_decision, resolver_apply.py,
    adapters/db/graph/concepts.py). */
module ResolverApply {
  import opened Wrappers
  import opened Ordering
  import opened Sequences
  import opened Text
  import opened GraphTables
  import opened EdgeTable
  import opened GardenerMerge
  import opened GardenerDecisions
  import opened Extraction
  import opened ResolverDecisions

  /** The resolver's view of stored text: the edge policy and SQL's lower(). */
  datatype ResolverPolicy = ResolverPolicy(edges: EdgePolicy, lower: string -> string)

  /** One decision about to be written; changed says whether the description or embedding would change too. */
  datatype Step = Step(idx: nat, raw: ExtractedConcept, decision: Decision, changed: bool)

  datatype ResolvedConcept = ResolvedConcept(id: int, created: bool, llmUsed: bool)

  function TierNamed(tier: string): Option<Tier> {
    if tier == "umbrella" then Some(Umbrella) else if tier == "topic" then Some(Topic)
    else if tier == "subtopic" then Some(Subtopic) else if tier == "granular" then Some(Granular) else None
  }

  /** The alias is added unless it is blank or already there up to normalization. */
  function MergeAliases(names: Names, existing: seq<string>, alias: string): seq<string> {
    var candidate := Strip(alias);
    if candidate == "" || names.Normalize(candidate) in names.NormSet(existing) then existing
      else existing + [candidate]
  }

  /** The more specific tier, the stored one on a tie. */
  function PromotedTier(stored: Option<Tier>, incoming: Option<Tier>): Option<Tier> {
    if TierRank(incoming) > TierRank(stored) then incoming else stored
  }

  /** LEAST() over the tier enumeration, ignoring NULL: the more general tier. */
  function LeastTier(stored: Option<Tier>, incoming: Option<Tier>): Option<Tier> {
    if stored.None? then incoming else if incoming.None? then stored
    else if TierRank(incoming) < TierRank(stored) then incoming else stored
  }

  /** The row of a concept another mention was merged into: dirty again when anything changed. */
  function MergedRow(names: Names, row: Concept, s: Step): Concept {
    var aliases := MergeAliases(names, row.aliases, Or(s.decision.aliasToAdd, s.raw.name));
    var tier := PromotedTier(row.tier, TierNamed(s.raw.tier));
    if aliases == row.aliases && tier == row.tier && !s.changed then row
    else row.(aliases := aliases, tier := tier, dirty := true)
  }

  function Least(ids: set<int>): (r: Option<int>)
    ensures r.None? <==> ids == {}
    ensures r.Some? ==> r.value in ids && forall i | i in ids :: r.value <= i
  {
    var xs := SortedInts(ids);
    if xs == [] then None
    else
      assert xs[0] in xs;
      Some(xs[0])
  }

  /** find_canonical_by_name_ci */
  function FindByName(p: ResolverPolicy, t: Tables, name: string): (r: Option<int>)
    ensures r.Some? ==> IsActive(t, r.value) && p.lower(t.concepts[r.value].name) == p.lower(name)
    ensures r.Some? ==> forall c | IsActive(t, c) && p.lower(t.concepts[c].name) == p.lower(name) :: r.value <= c
    ensures r.None? ==> forall c | IsActive(t, c) :: p.lower(t.concepts[c].name) != p.lower(name)
  {
    var ids := set c | c in t.concepts && t.concepts[c].active && p.lower(t.concepts[c].name) == p.lower(name);
    assert forall c | IsActive(t, c) && p.lower(t.concepts[c].name) == p.lower(name) :: c in ids;
    Least(ids)
  }

  /** The row, active or not, that holds exactly a name. */
  function NameHolder(t: Tables, name: string): (r: Option<int>)
    ensures r.Some? ==> r.value in t.concepts && t.concepts[r.value].name == name
    ensures r.None? ==> forall c | c in t.concepts :: t.concepts[c].name != name
  {
    var ids := set c | c in t.concepts && t.concepts[c].name == name;
    assert forall c | c in t.concepts && t.concepts[c].name == name :: c in ids;
    Least(ids)
  }

  /** The merge target of a decision, if its row exists. */
  function MergeTarget(t: Tables, d: Decision): Option<int> {
    if d.kind == MergeInto && d.mergeInto.Some? && d.mergeInto.value in t.concepts then d.mergeInto else None
  }

  /** Where a mention ends up: the merge target, an active concept of that name, or the row inserted for it, which on a
      name conflict is the existing inactive row. */
  function ResolvedId(p: ResolverPolicy, t: Tables, s: Step): int {
    var name := Strip(s.raw.name);
    if MergeTarget(t, s.decision).Some? then MergeTarget(t, s.decision).value
    else if FindByName(p, t, name).Some? then FindByName(p, t, name).value
    else if NameHolder(t, name).Some? then NameHolder(t, name).value
    else t.nextConcept
  }

  function ResolvedBy(p: ResolverPolicy, t: Tables, s: Step): ResolvedConcept {
    ResolvedConcept(ResolvedId(p, t, s),
                    MergeTarget(t, s.decision).None? && FindByName(p, t, Strip(s.raw.name)).None?,
                    s.decision.llmUsed)
  }

  /** The decision reuses a row that an earlier merge retired. */
  predicate ReusesRetired(p: ResolverPolicy, t: Tables, s: Step) {
    ResolvedBy(p, t, s).created && NameHolder(t, Strip(s.raw.name)).Some?
  }

  function CreatedConcepts(t: Tables, s: Step, id: int): map<int, Concept>
  {
    var name := Strip(s.raw.name);
    if id in t.concepts
      then t.concepts[id := t.concepts[id].(tier := LeastTier(t.concepts[id].tier, TierNamed(s.raw.tier)))]
    else t.concepts[id := Concept(name, [name], TierNamed(s.raw.tier), true, true)]
  }

  /** The concept rows after the decision. */
  function ConceptsAfter(p: ResolverPolicy, t: Tables, s: Step): map<int, Concept> {
    var id := ResolvedId(p, t, s);
    if ResolvedBy(p, t, s).created then CreatedConcepts(t, s, id)
    else if id in t.concepts then t.concepts[id := MergedRow(p.edges.names, t.concepts[id], s)]
    else t.concepts
  }

  /** The edge a link-only decision inserts. */
  function DecidedLink(s: Step, id: int): Edge
    requires s.decision.linkTo.Some?
  {
    Edge(EdgeKey(id, s.decision.linkTo.value, Or(s.decision.relation, "related_to")),
         s.raw.name + " is related to candidate #" + Decimal(s.decision.linkTo.value), [], 1.0)
  }

  /** str(n) */
  function Decimal(n: int): string
    decreases if n < 0 then 1 - n else n
  {
    if n < 0 then "-" + Decimal(-n)
    else (if n < 10 then "" else Decimal(n / 10)) + ["0123456789"[n % 10]]
  }

  predicate Links(s: Step) { s.decision.kind == LinkOnly && s.decision.linkTo.Some? }

  /** A link-only decision whose mention resolves to the very concept it links to violates the edge constraint. */
  predicate Fails(p: ResolverPolicy, t: Tables, s: Step) {
    Links(s) && s.decision.linkTo.value == ResolvedId(p, t, s)
  }

  function EdgesAfter(p: ResolverPolicy, t: Tables, s: Step): EdgeRows
    requires Ready(p.edges, t)
  {
    if Links(s) then Upsert(p.edges, Rows(t), DecidedLink(s, ResolvedId(p, t, s))).0 else Rows(t)
  }

  /** The tables after one decision. */
  function Applied(p: ResolverPolicy, chunk: int, t: Tables, s: Step): Tables
    requires Ready(p.edges, t)
  {
    var id := ResolvedId(p, t, s);
    t.(concepts := ConceptsAfter(p, t, s),
       nextConcept := if id == t.nextConcept then id + 1 else t.nextConcept,
       aliases := t.aliases[p.edges.names.Normalize(s.raw.name) := id],
       provenance := t.provenance + {(ConceptTarget(id), chunk)},
       edges := EdgesAfter(p, t, s).rows,
       nextEdge := EdgesAfter(p, t, s).next)
  }

  /** _apply_decision; false stands for the constraint violation, which aborts the transaction. */
  method ApplyDecision(db: Session, p: ResolverPolicy, chunk: int, s: Step) returns (ok: bool, r: ResolvedConcept)
    requires Ready(p.edges, db.tables)
    modifies db
    ensures ok == !Fails(p, old(db.tables), s)
    ensures ok ==> r == ResolvedBy(p, old(db.tables), s) && db.tables == Applied(p, chunk, old(db.tables), s)
  {
    hide Ready, Upsert, MergedRow, Strip, FindByName, NameHolder;
    var t := db.tables;
    var norm := p.edges.names.Normalize(s.raw.name);
    if s.decision.kind == MergeInto && s.decision.mergeInto.Some? {
      var id := s.decision.mergeInto.value;
      if id in t.concepts {
        db.tables := db.tables.(concepts := db.tables.concepts[id := MergedRow(p.edges.names, t.concepts[id], s)]);
        db.tables := db.tables.(aliases := db.tables.aliases[norm := id]);
        db.tables := db.tables.(provenance := db.tables.provenance + {(ConceptTarget(id), chunk)});
        StillBelow(p, t, id);
        return true, ResolvedConcept(id, false, s.decision.llmUsed);
      }
    }
    var id, created := CreateOrReuse(db, p, s);
    db.tables := db.tables.(aliases := db.tables.aliases[norm := id]);
    db.tables := db.tables.(provenance := db.tables.provenance + {(ConceptTarget(id), chunk)});
    if s.decision.kind == LinkOnly && s.decision.linkTo.Some? {
      if s.decision.linkTo.value == id {
        return false, ResolvedConcept(id, created, s.decision.llmUsed);
      }
      RowsSound(p, t);
      var edges := Upsert(p.edges, Rows(t), DecidedLink(s, id)).0;
      db.tables := db.tables.(edges := edges.rows, nextEdge := edges.next);
    }
    return true, ResolvedConcept(id, created, s.decision.llmUsed);
  }

  /** _create_or_reuse_canonical */
  method CreateOrReuse(db: Session, p: ResolverPolicy, s: Step) returns (id: int, created: bool)
    requires Ready(p.edges, db.tables) && MergeTarget(db.tables, s.decision).None?
    modifies db
    ensures id == ResolvedId(p, old(db.tables), s) && created == ResolvedBy(p, old(db.tables), s).created
    ensures var t := old(db.tables);
            db.tables == t.(concepts := ConceptsAfter(p, t, s),
                            nextConcept := if id == t.nextConcept then id + 1 else t.nextConcept)
  {
    hide Ready, MergedRow, Strip;
    var t := db.tables;
    var name := Strip(s.raw.name);
    var existing := FindByName(p, t, name);
    if existing.Some? {
      var row := MergedRow(p.edges.names, t.concepts[existing.value], s);
      db.tables := db.tables.(concepts := db.tables.concepts[existing.value := row]);
      StillBelow(p, t, existing.value);
      return existing.value, false;
    }
    var holder := NameHolder(t, name);
    id := if holder.Some? then holder.value else t.nextConcept;
    if holder.Some? { StillBelow(p, t, id); } else { NextIsFree(p, t); }
    db.tables := db.tables.(concepts := CreatedConcepts(t, s, id),
                            nextConcept := if holder.Some? then t.nextConcept else id + 1);
    return id, true;
  }

  lemma StillBelow(p: ResolverPolicy, t: Tables, id: int)
    requires Ready(p.edges, t) && id in t.concepts
    ensures id != t.nextConcept
  {
  }

  lemma NextIsFree(p: ResolverPolicy, t: Tables)
    requires Ready(p.edges, t)
    ensures t.nextConcept !in t.concepts
  {
  }

  lemma RowsSound(p: ResolverPolicy, t: Tables)
    requires Ready(p.edges, t)
    ensures Sound(Rows(t))
  {
  }

  // ---- what a decision preserves ----

  /** Nothing is retired, removed or re-keyed; only the graph tables are written. */
  ghost predicate Grew(t: Tables, after: Tables) {
    && (forall c | c in t.concepts :: c in after.concepts && after.concepts[c].name == t.concepts[c].name
                                      && after.concepts[c].active == t.concepts[c].active
                                      && t.concepts[c].aliases <= after.concepts[c].aliases)
    && (forall c | c in after.concepts && c !in t.concepts :: after.concepts[c].active && t.nextConcept <= c)
    && t.nextConcept <= after.nextConcept && t.nextEdge <= after.nextEdge
    && (forall e | e in t.edges :: e in after.edges && after.edges[e].key == t.edges[e].key)
    && t.provenance <= after.provenance && t.aliases.Keys <= after.aliases.Keys
    && SameElsewhere(t, after)
  }

  ghost predicate SameElsewhere(t: Tables, after: Tables) {
    && after.documents == t.documents && after.chunks == t.chunks
    && after.rawConcepts == t.rawConcepts && after.rawEdges == t.rawEdges
    && after.mergeLog == t.mergeLog && after.mastery == t.mastery && after.studied == t.studied
  }

  lemma GrewTransitive(a: Tables, b: Tables, c: Tables)
    requires Grew(a, b) && Grew(b, c)
    ensures Grew(a, c)
  {
  }

  /** A decision names only existing concepts. */
  ghost predicate IsGrounded(t: Tables, d: Decision) {
    && (d.kind == MergeInto ==> d.mergeInto.Some? && d.mergeInto.value in t.concepts)
    && (d.linkTo.Some? ==> d.linkTo.value in t.concepts)
  }

  /** What every decision guarantees: the schema holds, nothing is lost, and the mention's alias and provenance are
      recorded on an existing concept. */
  lemma AppliedMeaning(p: ResolverPolicy, chunk: int, t: Tables, s: Step)
    requires Ready(p.edges, t) && chunk in t.chunks && IsGrounded(t, s.decision) && !Fails(p, t, s)
    ensures var after, id := Applied(p, chunk, t, s), ResolvedId(p, t, s);
            && Ready(p.edges, after) && Grew(t, after) && id in after.concepts
            && after.aliases == t.aliases[p.edges.names.Normalize(s.raw.name) := id]
            && after.provenance == t.provenance + {(ConceptTarget(id), chunk)}
  {
    hide Valid, MergedRow, Strip, FindByName, NameHolder, EdgesAfter, EdgesAreSound, ConceptsAfter, ResolvedId;
    ConceptsGrow(p, t, s);
    EdgesGrow(p, t, s);
    AppliedIsValid(p, chunk, t, s);
  }

  lemma MergedRowKeeps(names: Names, row: Concept, s: Step)
    ensures var r := MergedRow(names, row, s);
            r.name == row.name && r.active == row.active && row.aliases <= r.aliases &&
              TierRank(r.tier) >= TierRank(row.tier)
  {
    hide Strip;
  }

  lemma ConceptsGrow(p: ResolverPolicy, t: Tables, s: Step)
    requires Ready(p.edges, t) && IsGrounded(t, s.decision)
    ensures var after, id := ConceptsAfter(p, t, s), ResolvedId(p, t, s);
            && after.Keys == t.concepts.Keys + {id}
            && (id in t.concepts || (id == t.nextConcept && after[id].active && after[id].name == Strip(s.raw.name)))
            && (forall c | c in t.concepts ::
                after[c].name == t.concepts[c].name && after[c].active == t.concepts[c].active
                                              && t.concepts[c].aliases <= after[c].aliases)
            && (id !in t.concepts ==> NameHolder(t, Strip(s.raw.name)).None?)
            && (id in t.concepts ==> id < t.nextConcept)
  {
    var id := ResolvedId(p, t, s);
    if id in t.concepts { StillBelowNext(p, t, id); MergedRowKeeps(p.edges.names, t.concepts[id], s); }
    NextIsFree(p, t);
    FreshIsNext(p, t, s);
    hide Ready, MergedRow, Strip, FindByName, NameHolder, ResolvedId;
  }

  lemma FreshIsNext(p: ResolverPolicy, t: Tables, s: Step)
    requires IsGrounded(t, s.decision)
    ensures var id := ResolvedId(p, t, s);
            id !in t.concepts ==>
              id == t.nextConcept && NameHolder(t, Strip(s.raw.name)).None? && ResolvedBy(p, t, s).created
    ensures !ResolvedBy(p, t, s).created ==> ResolvedId(p, t, s) in t.concepts
  {
    hide Strip;
  }

  lemma StillBelowNext(p: ResolverPolicy, t: Tables, id: int)
    requires Ready(p.edges, t) && id in t.concepts
    ensures id < t.nextConcept
  {
  }

  lemma EdgesGrow(p: ResolverPolicy, t: Tables, s: Step)
    requires Ready(p.edges, t) && !Fails(p, t, s)
    ensures var after := EdgesAfter(p, t, s);
            && Sound(after) && t.nextEdge <= after.next
            && (forall e | e in t.edges :: e in after.rows && after.rows[e].key == t.edges[e].key)
            && (forall e | e in after.rows && e !in t.edges ::
                  Links(s) && after.rows[e].key.src == ResolvedId(p, t, s) &&
                    after.rows[e].key.tgt == s.decision.linkTo.value
                  && e == t.nextEdge)
  {
    RowsSound(p, t);
    hide Upsert, ResolvedId, Valid;
    if Links(s) { UpsertMeaning(p.edges, Rows(t), DecidedLink(s, ResolvedId(p, t, s))); }
  }

  lemma AppliedIsValid(p: ResolverPolicy, chunk: int, t: Tables, s: Step)
    requires Ready(p.edges, t) && chunk in t.chunks && IsGrounded(t, s.decision) && !Fails(p, t, s)
    ensures Valid(Applied(p, chunk, t, s))
  {
    ConceptsGrow(p, t, s);
    EdgesGrow(p, t, s);
    AppliedRowsSound(p, chunk, t, s);
    hide ConceptsAfter, EdgesAfter, EdgesAreSound, ResolvedId, RowsAreSound, ConceptKeysHold, ChunkKeysHold, Fails;
    KeysStay(t, Applied(p, chunk, t, s), ResolvedId(p, t, s), s, chunk);
  }

  lemma AppliedRowsSound(p: ResolverPolicy, chunk: int, t: Tables, s: Step)
    requires Ready(p.edges, t) && chunk in t.chunks && IsGrounded(t, s.decision) && !Fails(p, t, s)
    ensures RowsAreSound(Applied(p, chunk, t, s))
  {
    ConceptsGrow(p, t, s);
    EdgesGrow(p, t, s);
    NamesStayUnique(p, chunk, t, s);
    hide ConceptsAfter, EdgesAfter, EdgesAreSound, ResolvedId, ConceptKeysHold, ChunkKeysHold, Fails, IsGrounded, Strip,
      NameHolder;
  }

  lemma KeysStay(t: Tables, after: Tables, id: int, s: Step, chunk: int)
    requires Valid(t) && chunk in t.chunks && SameElsewhere(t, after)
    requires after.concepts.Keys == t.concepts.Keys + {id} && IsGrounded(t, s.decision)
    requires after.provenance == t.provenance + {(ConceptTarget(id), chunk)}
    requires forall a | a in after.aliases ::
               after.aliases[a] == id || (a in t.aliases && after.aliases[a] == t.aliases[a])
    requires forall e | e in after.edges :: (e in t.edges && after.edges[e].key == t.edges[e].key)
                                            || (Links(s) && after.edges[e].key.src == id &&
                                                after.edges[e].key.tgt == s.decision.linkTo.value)
    ensures ChunkKeysHold(after) && ConceptKeysHold(after)
  {
    hide RowsAreSound;
  }

  lemma NamesStayUnique(p: ResolverPolicy, chunk: int, t: Tables, s: Step)
    requires Ready(p.edges, t) && IsGrounded(t, s.decision) && !Fails(p, t, s)
    ensures var after := ConceptsAfter(p, t, s);
            forall c, d | c in after && d in after && after[c].name == after[d].name :: c == d
  {
    ConceptsGrow(p, t, s);
    hide ConceptsAfter, ResolvedId, Strip, EdgesAreSound;
    var holder := NameHolder(t, Strip(s.raw.name));
    hide NameHolder;
  }

  /** A decision keeps the alias map on active concepts exactly when it does not reuse a retired row. */
  lemma AliasesStayActive(p: ResolverPolicy, chunk: int, t: Tables, s: Step)
    requires Ready(p.edges, t) && IsGrounded(t, s.decision) && AliasesActive(t)
    requires s.decision.kind == MergeInto ==> IsActive(t, s.decision.mergeInto.value)
    ensures AliasesActive(Applied(p, chunk, t, s)) <==> !ReusesRetired(p, t, s)
  {
    ConceptsGrow(p, t, s);
    RetiredIsReused(p, t, s);
    AppliedFields(p, chunk, t, s);
    hide Ready, Strip, ResolvedId, ConceptsAfter, ReusesRetired, NameHolder, Applied, IsGrounded, AliasesActive;
    OneMoreAlias(t, Applied(p, chunk, t, s), p.edges.names.Normalize(s.raw.name), ResolvedId(p, t, s));
  }

  lemma AppliedFields(p: ResolverPolicy, chunk: int, t: Tables, s: Step)
    requires Ready(p.edges, t)
    ensures var after := Applied(p, chunk, t, s);
            && after.concepts == ConceptsAfter(p, t, s)
            && after.aliases == t.aliases[p.edges.names.Normalize(s.raw.name) := ResolvedId(p, t, s)]
  {
    hide Ready, ConceptsAfter, ResolvedId, EdgesAfter;
  }

  /** Pointing one alias somewhere keeps the alias map on active concepts exactly when it points at one. */
  lemma OneMoreAlias(t: Tables, after: Tables, norm: string, id: int)
    requires AliasesActive(t) && after.aliases == t.aliases[norm := id]
    requires forall c | c in t.concepts :: c in after.concepts && after.concepts[c].active == t.concepts[c].active
    ensures AliasesActive(after) <==> IsActive(after, id)
  {
    assert after.aliases[norm] == id;
  }

  lemma RetiredIsReused(p: ResolverPolicy, t: Tables, s: Step)
    requires Ready(p.edges, t) && IsGrounded(t, s.decision)
    requires s.decision.kind == MergeInto ==> IsActive(t, s.decision.mergeInto.value)
    ensures var id := ResolvedId(p, t, s); ReusesRetired(p, t, s) <==> id in t.concepts && !t.concepts[id].active
  {
    HolderIsRetired(p, t, s);
    NextIsFree(p, t);
    hide Valid, Strip, FindByName, NameHolder;
  }

  lemma HolderIsRetired(p: ResolverPolicy, t: Tables, s: Step)
    ensures ReusesRetired(p, t, s) ==> ResolvedId(p, t, s) in t.concepts && !IsActive(t, ResolvedId(p, t, s))
  {
    hide Strip;
  }

  /** One retired concept and a mention of exactly its name that is to be created: the retired row is reused, and the
      alias of the mention points at it. */
  lemma RetiredRowIsReused(p: ResolverPolicy, chunk: int, t: Tables, s: Step)
    requires Ready(p.edges, t) && AliasesActive(t) && t.concepts.Keys == {1} && !t.concepts[1].active
    requires t.concepts[1].name == Strip(s.raw.name) && s.decision.kind == CreateNew && s.decision.linkTo.None?
    ensures ResolvedId(p, t, s) == 1 && ResolvedBy(p, t, s).created
    ensures !AliasesActive(Applied(p, chunk, t, s))
  {
    var name := Strip(s.raw.name);
    hide Strip, Ready;
    assert NameHolder(t, name) == Some(1);
    assert FindByName(p, t, name) == None;
    hide FindByName, NameHolder;
    assert ReusesRetired(p, t, s);
    AliasesStayActive(p, chunk, t, s);
  }

  /** A row inserted by a link-only decision has no provenance, so the next prune removes it. */
  lemma LinksHaveNoProvenance(p: ResolverPolicy, chunk: int, t: Tables, s: Step)
    requires Ready(p.edges, t) && Links(s) && !Fails(p, t, s)
    requires forall e | e in t.edges :: t.edges[e].key != DecidedLink(s, ResolvedId(p, t, s)).key
    ensures var after := Applied(p, chunk, t, s);
            t.nextEdge in after.edges && after.edges[t.nextEdge].key == DecidedLink(s, ResolvedId(p, t, s)).key
            && !HasProvenance(after, EdgeTarget(t.nextEdge))
  {
    RowsSound(p, t);
    hide ResolvedId, ConceptsAfter;
    UpsertMeaning(p.edges, Rows(t), DecidedLink(s, ResolvedId(p, t, s)));
  }
}
