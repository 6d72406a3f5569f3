/** Streaming one chat response over a write-ahead message (domain/chat/stream.py, domain/chat/session_memory.py). */
module ChatStream {
  import opened Wrappers
  import opened Sequences
  import opened Text
  import opened ChatMessages

  // ---- events ----

  datatype Phase = Thinking | Searching | Responding | Finalizing

  function Rank(p: Phase): nat {
    match p
    case Thinking => 0
    case Searching => 1
    case Responding => 2
    case Finalizing => 3
  }

  datatype Event = Progress(phase: Phase) | Delta(text: string) | Trace | ReasoningSummary | AnswerParts
    | Final(text: string) | Error

  predicate IsTerminal(e: Event) { e.Final? || e.Error? }

  /** The phases of the events so far never go back and stop at top. */
  ghost predicate PhasesRise(es: seq<Event>, top: nat) {
    && (forall i | 0 <= i < |es| && es[i].Progress? :: Rank(es[i].phase) <= top)
    && (forall i, j | 0 <= i < j < |es| && es[i].Progress? && es[j].Progress? :: Rank(es[i].phase) <= Rank(es[j].phase))
  }

  /** Responding is announced at most once, and before the first visible text. */
  ghost predicate AnnouncesOnce(es: seq<Event>) {
    && (forall i, j | 0 <= i < j < |es| && es[i] == Progress(Responding) :: es[j] != Progress(Responding))
    && (forall j | 0 <= j < |es| && es[j].Delta? && es[j].text != "" :: Progress(Responding) in es[..j])
  }

  /** A stream under way: it has begun thinking and has not ended. */
  ghost predicate Open(es: seq<Event>, top: nat) {
    && es != [] && es[0] == Progress(Thinking)
    && (forall i | 0 <= i < |es| :: !IsTerminal(es[i]))
    && PhasesRise(es, top) && AnnouncesOnce(es)
  }

  /** A whole stream: one terminal event, at the very end. */
  ghost predicate IsStream(es: seq<Event>) {
    |es| > 0 && IsTerminal(es[|es| - 1]) && Open(es[..|es| - 1], 3)
  }

  function Announced(es: seq<Event>): bool { Progress(Responding) in es }

  /** The text of the deltas. */
  function Shown(es: seq<Event>): string {
    if es == [] then ""
    else Shown(es[..|es| - 1]) + if es[|es| - 1].Delta? then es[|es| - 1].text else ""
  }

  lemma Begins()
    ensures Open([Progress(Thinking)], 0) && !Announced([Progress(Thinking)]) && Shown([Progress(Thinking)]) == ""
  {
    assert [Progress(Thinking)][..0] == [];
  }

  lemma Emits(es: seq<Event>, top: nat, e: Event)
    requires Open(es, top) && !IsTerminal(e)
    requires e.Progress? ==> Rank(e.phase) >= top && (e.phase == Responding ==> !Announced(es))
    requires e.Delta? && e.text != "" ==> Announced(es)
    ensures Open(es + [e], if e.Progress? then Rank(e.phase) else top)
    ensures Announced(es + [e]) <==> Announced(es) || e == Progress(Responding)
    ensures Shown(es + [e]) == Shown(es) + if e.Delta? then e.text else ""
  {
    OpenMore(es, top, e);
    hide Open, Rank;
    assert (es + [e])[..|es|] == es;
  }

  lemma OpenMore(es: seq<Event>, top: nat, e: Event)
    requires Open(es, top) && !IsTerminal(e)
    requires e.Progress? ==> Rank(e.phase) >= top && (e.phase == Responding ==> !Announced(es))
    requires e.Delta? && e.text != "" ==> Announced(es)
    ensures Open(es + [e], if e.Progress? then Rank(e.phase) else top)
  {
    hide AnnouncesOnce, PhasesRise, Rank, Announced;
    OnceMore(es, e);
    RiseOn(es, top, e);
  }

  lemma OnceMore(es: seq<Event>, e: Event)
    requires AnnouncesOnce(es) && (e == Progress(Responding) ==> !Announced(es))
    requires e.Delta? && e.text != "" ==> Announced(es)
    ensures AnnouncesOnce(es + [e])
  {
    var all := es + [e];
    assert all[..|es|] == es;
    assert forall j | 0 <= j < |es| :: all[..j] == es[..j] && all[j] == es[j];
  }

  lemma RiseOn(es: seq<Event>, top: nat, e: Event)
    requires PhasesRise(es, top) && (e.Progress? ==> Rank(e.phase) >= top)
    ensures PhasesRise(es + [e], if e.Progress? then Rank(e.phase) else top)
  {
    hide Rank;
  }

  lemma Raises(es: seq<Event>, low: nat, high: nat)
    requires Open(es, low) && low <= high
    ensures Open(es, high)
  {
  }

  lemma Ends(es: seq<Event>, e: Event)
    requires Open(es, 3) && IsTerminal(e)
    ensures IsStream(es + [e]) && Shown(es + [e]) == Shown(es)
  {
    assert (es + [e])[..|es|] == es;
  }

  // ---- what may happen ----

  /** How the reply text comes about: a clarifying question, streamed deltas up to where the stream ended, or one
      blocking call. */
  datatype Generation =
    | Clarify(question: string)
    | Streamed(begin: Outcome, deltas: seq<string>, end: Outcome, traced: bool, summarized: bool, save: Outcome)
    | Blocking(call: Outcome, text: string)

  /** The statements of persist_turn. */
  datatype Persist = Persist(check: Outcome, user: Outcome, assistant: Outcome, titles: Outcome,
                             compacts: Option<string>, commit: Outcome)

  /** The outcome of everything the stream does, in the order it does it. */
  datatype Script = Script(
    social: Outcome, reply: Option<string>,
    check: Outcome, user: Outcome, placeholder: Outcome, ahead: Outcome,
    plan: Outcome, mastery: Outcome, retrieve: Outcome, expands: bool, execute: Outcome, emptyWorkspace: bool,
    evidence: Outcome, generation: Generation,
    parts: Outcome, verify: Outcome, envelope: string -> string, actions: Outcome, enrich: Outcome,
    finalize: Outcome, titles: Outcome, compacts: Option<string>, close: Outcome,
    persist: Persist, fail: Outcome, failClose: Outcome)

  /** Whether both session and user are known, and the query. */
  datatype Request = Request(known: bool, query: string)

  const EMPTY_WORKSPACE_TEXT :=
    "It looks like your workspace doesn't have any documents yet! "
    + "I'd love to help you learn, but I need some study material first.\n\n"
    + "**Here's how to get started:**\n"
    + "1. Head over to the **Knowledge Base** page\n"
    + "2. Upload your notes, textbooks, or any study material (Markdown or text files)\n"
    + "3. Come back here and ask me anything about them!\n\n"
    + "Once you upload documents, I can provide Socratic guidance, "
    + "generate quizzes, and help you master the material. 📚"

  const NO_RESPONSE := "(no response generated)"

  function Join(parts: seq<string>): string {
    if parts == [] then "" else Join(parts[..|parts| - 1]) + parts[|parts| - 1]
  }

  /** The first of two outcomes that is not fine. */
  function Then(a: Outcome, b: Outcome): Outcome { if a == Fine then b else a }

  function SearchTrouble(s: Script): Outcome {
    Then(s.plan, Then(s.mastery, Then(s.retrieve, Then(s.execute, if s.emptyWorkspace then Fine else s.evidence))))
  }

  function GenerationTrouble(g: Generation): Outcome {
    match g
    case Clarify(_) => Fine
    case Streamed(begin, _, end, _, _, save) => Then(begin, Then(end, save))
    case Blocking(call, _) => call
  }

  function FinishTrouble(s: Script): Outcome { Then(s.parts, Then(s.verify, s.enrich)) }

  /** The first thing to go wrong between the write-ahead and the finalization. */
  function Trouble(s: Script): Outcome {
    Then(SearchTrouble(s), if s.emptyWorkspace then Fine else Then(GenerationTrouble(s.generation), FinishTrouble(s)))
  }

  function Generated(g: Generation): string {
    match g
    case Clarify(question) => question
    case Streamed(_, deltas, _, _, _, _) => Strip(Join(deltas))
    case Blocking(_, text) => text
  }

  function AssistantText(g: Generation): string { if Generated(g) == "" then NO_RESPONSE else Generated(g) }

  /** The text of the final envelope. */
  function Reply(s: Script): string {
    if s.emptyWorkspace then EMPTY_WORKSPACE_TEXT else s.envelope(AssistantText(s.generation))
  }

  /** What a failed message keeps: the reply once it was complete, never a part of it. */
  function PartialText(s: Script): string {
    if SearchTrouble(s) == Fine && !s.emptyWorkspace && GenerationTrouble(s.generation) == Fine
      then AssistantText(s.generation) else ""
  }

  function FinishOutcome(s: Script): Outcome { Then(s.finalize, Then(s.titles, s.close)) }

  function PersistOutcome(p: Persist): Outcome {
    Then(p.check, Then(p.user, Then(p.assistant, Then(p.titles, p.commit))))
  }

  function UserRow(query: string): Row { Row(User, Complete, Text(Strip(query))) }

  const PLACEHOLDER_ROW := Row(Assistant, Generating, Placeholder)

  /** The summary row a compaction adds. */
  function Summary(compacts: Option<string>): Rows {
    if compacts.Some? then [Row(System, Complete, Text(compacts.value))] else []
  }

  /** The rows after persist_turn. */
  function Persisted(r: Request, p: Persist, rows: Rows, text: string): Rows {
    if r.known && PersistOutcome(p) == Fine
      then rows + [UserRow(r.query)] + [Row(Assistant, Complete, Envelope(text))] + Summary(p.compacts) else rows
  }

  /** The rows if the caller then commits: a turn that broke off without a refused statement is stored as far as it
      came. */
  function TurnAfterCommit(r: Request, p: Persist, rows: Rows, text: string): Rows {
    if !r.known || Then(p.check, p.user) != Fine then rows
    else if p.assistant != Fine then (if p.assistant == Broke then rows + [UserRow(r.query)] else rows)
    else if p.titles != Fine then
      if p.titles == Broke then rows + [UserRow(r.query)] + [Row(Assistant, Complete, Envelope(text))] else rows
    else Persisted(r, p, rows, text)
  }

  /** After the write-ahead: the committed rows, the placeholder's id, and whether an exception escaped. */
  datatype Opening = Opening(rows: Rows, placeholder: Option<nat>, raised: bool)

  function OpeningOf(s: Script, r: Request, rows: Rows): Opening {
    if !r.known then Opening(rows, None, false)
    else if Then(s.check, s.user) != Fine then Opening(rows, None, true)
    else if s.placeholder == Refused then Opening(rows, None, false)
    else if s.ahead != Fine then Opening(rows, if s.placeholder == Fine then Some(|rows| + 1) else None, true)
    else if s.placeholder == Broke then Opening(rows + [UserRow(r.query)], None, false)
    else Opening(rows + [UserRow(r.query)] + [PLACEHOLDER_ROW], Some(|rows| + 1), false)
  }

  /** The committed rows when the stream is over, after an opening that raised nothing. */
  function RowsAtEnd(s: Script, r: Request, o: Opening): Rows {
    if Trouble(s) != Fine then
      if o.placeholder.Some? && Trouble(s) == Broke && Then(s.fail, s.failClose) == Fine
      then MarkedFailed(o.rows, o.placeholder.value, PartialText(s)) else o.rows
    else if o.placeholder.Some? then
      if FinishOutcome(s) == Fine then Finalized(o.rows, o.placeholder.value, Reply(s)) + Summary(s.compacts)
        else o.rows
    else Persisted(r, s.persist, o.rows, Reply(s))
  }

  /** The committed rows when a stream is over that began with these. */
  function FinalRows(s: Script, r: Request, rows: Rows): Rows {
    if s.social != Fine then rows
    else if s.reply.Some? then Persisted(r, s.persist, rows, s.reply.value)
    else if OpeningOf(s, r, rows).raised then rows
    else RowsAtEnd(s, r, OpeningOf(s, r, rows))
  }

  /** The rows if the caller commits once an answer without trouble is closed. */
  function ClosedRows(s: Script, r: Request, o: Opening): Rows {
    if o.placeholder.None? then TurnAfterCommit(r, s.persist, o.rows, Reply(s))
    else if s.finalize == Fine && s.titles == Broke then Finalized(o.rows, o.placeholder.value, Reply(s))
    else RowsAtEnd(s, r, o)
  }

  /** The rows if the caller commits once the stream is over. */
  function AfterCommit(s: Script, r: Request, rows: Rows): Rows {
    var o := OpeningOf(s, r, rows);
    if s.social != Fine then rows
    else if s.reply.Some? then TurnAfterCommit(r, s.persist, rows, s.reply.value)
    else if o.raised || Trouble(s) != Fine then FinalRows(s, r, rows)
    else ClosedRows(s, r, o)
  }

  /** How the request ends after its stream: its session is closed without a commit, or with one. Which of them depends
      on whether the session outlives the response. */
  datatype Ending = Closes | Commits(outcome: Outcome)

  /** The rows once the request is over. */
  function RequestRows(s: Script, r: Request, rows: Rows, ending: Ending): Rows {
    if ending == Commits(Fine) then AfterCommit(s, r, rows) else FinalRows(s, r, rows)
  }

  /** The stream's last event. */
  function LastEvent(s: Script, r: Request, rows: Rows): Event {
    var persists := !r.known || PersistOutcome(s.persist) == Fine;
    if s.social != Fine then Error
    else if s.reply.Some? then (if persists then Final(s.reply.value) else Error)
    else if OpeningOf(s, r, rows).raised || Trouble(s) != Fine then Error
    else if OpeningOf(s, r, rows).placeholder.Some? || persists then Final(Reply(s))
    else Error
  }

  /** What is left to happen once the write-ahead raised nothing. */
  lemma OnceOpened(s: Script, r: Request, rows: Rows)
    requires s.social == Fine && s.reply.None? && !OpeningOf(s, r, rows).raised
    ensures var o, persists := OpeningOf(s, r, rows), !r.known || PersistOutcome(s.persist) == Fine;
            && LastEvent(s, r, rows) ==
                 (if Trouble(s) == Fine && (o.placeholder.Some? || persists) then Final(Reply(s)) else Error)
            && FinalRows(s, r, rows) == RowsAtEnd(s, r, o)
            && AfterCommit(s, r, rows) == if Trouble(s) != Fine then RowsAtEnd(s, r, o) else ClosedRows(s, r, o)
  {
    hide Trouble, Reply, RowsAtEnd, ClosedRows, PersistOutcome;
  }

  // ---- what the reply says ----

  /** The text a reply is made of: what the deltas showed, without surrounding blanks; a clarifying question or the text
      of a blocking call as it is; and a stock phrase instead of nothing. */
  function Said(g: Generation, shown: string): string {
    match g
    case Clarify(question) => if question == "" then NO_RESPONSE else question
    case Streamed(_, _, _, _, _, _) => if Strip(shown) == "" then NO_RESPONSE else Strip(shown)
    case Blocking(_, reply) => if reply == "" then NO_RESPONSE else reply
  }

  /** A stream that ends in final on a workspace with documents says the envelope of that text; with a placeholder whose
      closing goes through, the text is stored in it and the user's message before it. */
  ghost predicate Delivers(s: Script, r: Request, rows: Rows, shown: string, last: Event, after: Rows) {
    var text := s.envelope(Said(s.generation, shown));
    && last == Final(text)
    && (r.known && s.check == Fine && s.user == Fine && s.placeholder == Fine && s.finalize == Fine &&
        s.titles == Fine && s.close == Fine ==>
          && |after| >= |rows| + 2 && after[..|rows|] == rows
          && after[|rows|] == Row(User, Complete, Text(Strip(r.query)))
          && after[|rows| + 1] == Row(Assistant, Complete, Envelope(text))
          && (match s.compacts
              case None => |after| == |rows| + 2
              case Some(summary) =>
                |after| == |rows| + 3 && after[|rows| + 2] == Row(System, Complete, Text(summary))))
  }

  lemma FinalDelivers(s: Script, r: Request, rows: Rows, shown: string)
    requires s.reply.None? && !s.emptyWorkspace && LastEvent(s, r, rows).Final?
    requires s.generation.Streamed? ==> shown == Join(s.generation.deltas)
    ensures Delivers(s, r, rows, shown, LastEvent(s, r, rows), FinalRows(s, r, rows))
  {
    hide Strip, Join, PersistOutcome, Trouble;
    OnceOpened(s, r, rows);
  }

  // ---- the stream ----

  class Stream {
    const db: ChatDb
    const script: Script
    const request: Request
    var events: seq<Event>
    var placeholder: Option<nat>
    var partial: string

    constructor (db: ChatDb, script: Script, request: Request)
      ensures this.db == db && this.script == script && this.request == request
      ensures events == [] && placeholder == None && partial == ""
    {
      this.db, this.script, this.request := db, script, request;
      events, placeholder, partial := [], None, "";
    }

    /** What a commit would make of the open transaction. */
    function IfCommitted(): Rows
      reads db
    {
      if db.spoiled then db.committed else db.working
    }

    /** Nothing is written and the transaction is sound. */
    ghost predicate Rests(rows: Rows)
      reads db
    {
      db.committed == rows && db.working == rows && !db.spoiled
    }

    method PersistTurn(text: string) returns (ok: bool)
      requires !db.spoiled && db.working == db.committed
      modifies db
      ensures ok == (!request.known || PersistOutcome(script.persist) == Fine)
      ensures db.committed == Persisted(request, script.persist, old(db.committed), text)
      ensures IfCommitted() == TurnAfterCommit(request, script.persist, old(db.committed), text)
    {
      if !request.known {
        return true;
      }
      var p := script.persist;
      ok := db.Run(p.check);
      if !ok { return; }
      ok := db.Write(p.user, Append(UserRow(request.query)));
      if !ok { return; }
      ok := db.Write(p.assistant, Append(Row(Assistant, Complete, Envelope(text))));
      if !ok { return; }
      ok := db.Run(p.titles);
      if !ok { return; }
      Unit(db.working);
      if p.compacts.Some? {
        ok := db.Write(Fine, Append(Row(System, Complete, Text(p.compacts.value))));
      }
      ok := db.Commit(p.commit);
    }

    /** The write-ahead: the user's message and a generating placeholder, whose failure alone is tolerated. */
    method WriteAhead() returns (ok: bool)
      requires !db.spoiled && db.working == db.committed && placeholder == None
      modifies db, this`placeholder
      ensures var o := OpeningOf(script, request, old(db.committed));
              && ok == !o.raised && placeholder == o.placeholder && db.committed == o.rows
              && (ok || placeholder.Some? ==> Rests(o.rows)) && IfCommitted() == o.rows
    {
      if !request.known {
        return true;
      }
      ok := db.Run(script.check);
      if !ok { return; }
      ok := db.Write(script.user, Append(UserRow(request.query)));
      if !ok { return; }
      var made := db.Write(script.placeholder, Append(PLACEHOLDER_ROW));
      if made {
        placeholder := Some(|db.working| - 1);
      }
      ok := db.Commit(script.ahead);
    }

    method Emit(e: Event, ghost top: nat)
      requires Open(events, top) && !IsTerminal(e)
      requires e.Progress? ==> Rank(e.phase) >= top && (e.phase == Responding ==> !Announced(events))
      requires e.Delta? && e.text != "" ==> Announced(events)
      modifies this`events
      ensures events == old(events) + [e]
      ensures Open(events, if e.Progress? then Rank(e.phase) else top)
      ensures Announced(events) <==> old(Announced(events)) || e == Progress(Responding)
      ensures Shown(events) == old(Shown(events)) + if e.Delta? then e.text else ""
    {
      Emits(events, top, e);
      events := events + [e];
    }

    /** Planning and retrieval; nothing is written. */
    method Search(ghost rows: Rows) returns (ok: bool)
      requires Rests(rows) && Open(events, 0) && !Announced(events)
      modifies db`spoiled, this`events
      ensures ok == (SearchTrouble(script) == Fine)
      ensures db.spoiled == (SearchTrouble(script) == Refused)
      ensures Open(events, 1) && !Announced(events) && Shown(events) == old(Shown(events))
    {
      hide Open, Announced, Shown;
      Emit(Progress(Searching), 0);
      ok := db.Run(script.plan);
      if !ok { return; }
      Emit(Progress(Searching), 1);
      ok := db.Run(script.mastery);
      if !ok { return; }
      Emit(Progress(Searching), 1);
      ok := db.Run(script.retrieve);
      if !ok { return; }
      if script.expands {
        Emit(Progress(Searching), 1);
      }
      ok := db.Run(script.execute);
      if !ok || script.emptyWorkspace { return; }
      ok := db.Run(script.evidence);
      if !ok { return; }
      Emit(Progress(Searching), 1);
    }

    /** The deltas, as they come; responding is announced with the first visible one. */
    method Relay(deltas: seq<string>)
      requires Open(events, 1) && !Announced(events)
      modifies this`events
      ensures Open(events, 2) && Shown(events) == old(Shown(events)) + Join(deltas)
    {
      hide Open, Announced, Shown;
      var responded := false;
      ghost var top := 1;
      Unit(Shown(events));
      for i := 0 to |deltas|
        invariant top <= 2 && Open(events, top) && (!responded ==> top == 1)
        invariant responded == Announced(events)
        invariant Shown(events) == old(Shown(events)) + Join(deltas[..i])
      {
        SplitAt(deltas, i);
        assert deltas[..i + 1][..i] == deltas[..i];
        var delta := deltas[i];
        if !responded && delta != "" {
          Emit(Progress(Responding), top);
          responded := true;
          top := 2;
        }
        Emit(Delta(delta), top);
        Assoc(old(Shown(events)), Join(deltas[..i]), delta);
      }
      assert deltas[..|deltas|] == deltas;
      Raises(events, top, 2);
    }

    /** The reply text; partial text is kept only once it is complete. */
    method Generate(ghost rows: Rows) returns (ok: bool, text: string)
      requires Rests(rows) && Open(events, 1) && !Announced(events)
      modifies db`spoiled, this`events
      ensures ok == (GenerationTrouble(script.generation) == Fine)
      ensures db.spoiled == (GenerationTrouble(script.generation) == Refused)
      ensures Open(events, 2)
      ensures ok ==> text == AssistantText(script.generation)
      ensures ok ==>
                Shown(events) ==
                old(Shown(events)) + if script.generation.Streamed? then Join(script.generation.deltas) else ""
    {
      hide Open, Announced, Shown, Strip, Join;
      text, ok := "", true;
      match script.generation {
        case Clarify(question) =>
          text := question;
          if question != "" {
            Emit(Progress(Responding), 1);
          } else {
            Raises(events, 1, 2);
          }
        case Streamed(begin, deltas, end, traced, summarized, save) =>
          ok := db.Run(begin);
          if !ok { Raises(events, 1, 2); return; }
          Relay(deltas);
          ok := db.Run(end);
          if !ok { return; }
          text := Strip(Join(deltas));
          if traced {
            Emit(Trace, 2);
            if summarized {
              Emit(ReasoningSummary, 2);
            }
          }
          ok := db.Run(save);
          if !ok { return; }
        case Blocking(call, reply) =>
          ok := db.Run(call);
          if !ok { Raises(events, 1, 2); return; }
          text := reply;
          if reply != "" {
            Emit(Progress(Responding), 1);
          } else {
            Raises(events, 1, 2);
          }
      }
      if text == "" {
        text := NO_RESPONSE;
      }
    }

    /** Verification; a failure to build actions is rolled back and tolerated. */
    method Verify(ghost rows: Rows) returns (ok: bool)
      requires Rests(rows) && Open(events, 2)
      modifies db, this`events
      ensures ok == (FinishTrouble(script) == Fine)
      ensures db.spoiled == (FinishTrouble(script) == Refused) && db.committed == db.working == rows
      ensures Open(events, 3) && Shown(events) == old(Shown(events))
    {
      hide Open, Announced, Shown;
      ok := db.Run(script.parts);
      if !ok { Raises(events, 2, 3); return; }
      Emit(AnswerParts, 2);
      Emit(Progress(Finalizing), 2);
      ok := db.Run(script.verify);
      if !ok { return; }
      var built := db.Run(script.actions);
      if !built {
        db.Rollback();
      }
      ok := db.Run(script.enrich);
      if !ok { return; }
      Emit(Progress(Finalizing), 3);
    }

    /** Finalizing the placeholder, whose failure is tolerated, or persisting the whole turn, whose failure is not. */
    method Close(text: string) returns (ok: bool)
      requires !db.spoiled && db.working == db.committed
      modifies db
      ensures ok == (placeholder.Some? || !request.known || PersistOutcome(script.persist) == Fine)
      ensures db.committed ==
              if placeholder.None? then Persisted(request, script.persist, old(db.committed), text)
              else if FinishOutcome(script) == Fine then Finalized(old(db.committed), placeholder.value, text)
                + Summary(script.compacts)
              else old(db.committed)
      ensures IfCommitted() ==
              if placeholder.None? then TurnAfterCommit(request, script.persist, old(db.committed), text)
              else if script.finalize == Fine && script.titles == Broke
                then Finalized(old(db.committed), placeholder.value, text)
              else db.committed
    {
      if placeholder.None? {
        ok := PersistTurn(text);
        return;
      }
      ok := true;
      var done := db.Write(script.finalize, Finalize(placeholder.value, text));
      if !done { return; }
      done := db.Run(script.titles);
      if !done { return; }
      Unit(db.working);
      if script.compacts.Some? {
        done := db.Write(Fine, Append(Row(System, Complete, Text(script.compacts.value))));
      }
      done := db.Commit(script.close);
    }

    /** _stream_inner; when it raises, the events so far stand and the caller has to end the stream. */
    method Inner() returns (ok: bool, text: string)
      requires !db.spoiled && db.working == db.committed
      requires events == [] && placeholder == None && partial == ""
      modifies db, this
      ensures Open(events, 3)
      ensures var rows := old(db.committed); var last := LastEvent(script, request, rows);
              && ok == last.Final? && (ok ==> last == Final(text) && db.committed == FinalRows(script, request, rows)
                                                  && IfCommitted() == AfterCommit(script, request, rows))
              && (ok && script.reply.None? ==>
                  Shown(events) ==
                  if !script.emptyWorkspace && script.generation.Streamed? then Join(script.generation.deltas) else "")
      ensures !ok ==> AfterRaise(old(db.committed))
    {
      hide Open, Announced, Shown, Join, Persisted, TurnAfterCommit, Summary, Finalized, MarkedFailed, UserRow,
        FinishOutcome, PersistOutcome, Trouble, PartialText, Reply, ClosedRows;
      ghost var rows := db.committed;
      text := "";
      events := [Progress(Thinking)];
      Begins();
      Raises(events, 0, 3);
      ok := db.Run(script.social);
      if !ok { return; }
      if script.reply.Some? {
        Emit(Progress(Finalizing), 0);
        text := script.reply.value;
        ok := PersistTurn(text);
        return;
      }
      ok := WriteAhead();
      if !ok { return; }
      OnceOpened(script, request, rows);
      hide LastEvent, FinalRows, AfterCommit, OpeningOf;
      ok, text := Answer(OpeningOf(script, request, rows));
    }

    /** The rest of _stream_inner, after the write-ahead. */
    method Answer(ghost o: Opening) returns (ok: bool, text: string)
      requires Rests(o.rows) && placeholder == o.placeholder && partial == ""
      requires Open(events, 0) && !Announced(events) && Shown(events) == ""
      modifies db, this`events, this`partial
      ensures Open(events, 3)
      ensures ok == (Trouble(script) == Fine &&
                     (placeholder.Some? || !request.known || PersistOutcome(script.persist) == Fine))
      ensures Trouble(script) == Fine ==>
                && text == Reply(script) && db.committed == RowsAtEnd(script, request, o)
                && IfCommitted() == ClosedRows(script, request, o)
      ensures Trouble(script) != Fine ==>
                && db.committed == db.working == o.rows && db.spoiled == (Trouble(script) == Refused)
                && partial == PartialText(script)
      ensures ok ==>
                Shown(events) ==
                if !script.emptyWorkspace && script.generation.Streamed? then Join(script.generation.deltas) else ""
    {
      hide Open, Announced, Shown, Join, Persisted, TurnAfterCommit, Summary, Finalized, MarkedFailed, UserRow,
        FinishOutcome, PersistOutcome, SearchTrouble, GenerationTrouble, FinishTrouble, AssistantText;
      text := "";
      ok := Search(o.rows);
      Raises(events, 1, 3);
      if !ok { return; }
      if script.emptyWorkspace {
        Emit(Progress(Finalizing), 1);
        text := EMPTY_WORKSPACE_TEXT;
        ok := Close(text);
        return;
      }
      var reply: string;
      ok, reply := Generate(o.rows);
      Raises(events, 2, 3);
      if !ok { return; }
      partial := reply;
      ok := Verify(o.rows);
      if !ok { return; }
      text := script.envelope(reply);
      ok := Close(text);
    }

    /** What the error handler finds: nothing of this stream is pending but in a spoiled transaction, and the
        placeholder is as the write-ahead left it. */
    ghost predicate AfterRaise(rows: Rows)
      reads this, db
    {
      && (placeholder.None? ==>
            db.committed == FinalRows(script, request, rows) && IfCommitted() == AfterCommit(script, request, rows))
      && (placeholder.Some? ==>
            var o := OpeningOf(script, request, rows);
            && script.social == Fine && script.reply.None? && db.committed == db.working == o.rows
            && o.placeholder == placeholder
            && if o.raised then !db.spoiled
               else
                 && Trouble(script) != Fine && db.spoiled == (Trouble(script) == Refused)
                 && partial == PartialText(script))
    }

    /** generate_chat_response_stream, consumed to the end. */
    method Respond()
      requires !db.spoiled && db.working == db.committed
      requires events == [] && placeholder == None && partial == ""
      modifies db, this
      ensures IsStream(events) && events[|events| - 1] == LastEvent(script, request, old(db.committed))
      ensures db.committed == FinalRows(script, request, old(db.committed))
      ensures IfCommitted() == AfterCommit(script, request, old(db.committed))
      ensures events[|events| - 1].Final? && script.reply.None? ==>
                Shown(events) ==
                  if !script.emptyWorkspace && script.generation.Streamed? then Join(script.generation.deltas) else ""
      ensures events[|events| - 1].Final? && script.reply.None? && !script.emptyWorkspace ==>
                Delivers(script, request, old(db.committed), Shown(events), events[|events| - 1], db.committed)
    {
      hide Open, Announced, Shown, Join, IsStream, Delivers;
      ghost var rows := db.committed;
      var ok, text := Inner();
      if ok {
        if script.reply.None? && !script.emptyWorkspace {
          FinalDelivers(script, request, rows, Shown(events));
        }
        Ends(events, Final(text));
        events := events + [Final(text)];
        return;
      }
      if placeholder.Some? {
        var marked := db.Write(script.fail, Fail(placeholder.value, partial));
        if marked {
          var closed := db.Commit(script.failClose);
        }
      }
      Ends(events, Error);
      events := events + [Error];
    }

    /** The request around the stream: get_db_session commits on a clean exit if it is still open then. */
    method Serve(ending: Ending)
      requires !db.spoiled && db.working == db.committed
      requires events == [] && placeholder == None && partial == ""
      modifies db, this
      ensures IsStream(events) && events[|events| - 1] == LastEvent(script, request, old(db.committed))
      ensures db.committed == db.working == RequestRows(script, request, old(db.committed), ending) && !db.spoiled
    {
      hide IsStream, LastEvent, FinalRows, AfterCommit;
      Respond();
      if ending.Commits? {
        var ok := db.Commit(ending.outcome);
        if !ok {
          db.Rollback();
        }
      } else {
        db.Rollback();
      }
    }
  }

  // ---- what every stream guarantees ----

  /** A write-ahead succeeded. */
  predicate HasPlaceholder(s: Script, r: Request) {
    s.social == Fine && s.reply.None? && r.known && Then(s.check, s.user) == Fine && s.placeholder == Fine &&
      s.ahead == Fine
  }

  /** The finalization of a placeholder comes to be committed: by the stream, or by the caller when only the statements
      after it broke off without being refused. */
  predicate ClosingHolds(s: Script, ending: Ending) {
    s.finalize == Fine && ((s.titles == Fine && s.close == Fine) || (s.titles == Broke && ending == Commits(Fine)))
  }

  /** Once the request is over a placeholder is complete exactly when the stream ended with final and the closing holds;
      it is failed exactly when the stream ended in an error that was no refused statement and the marking went through;
      otherwise it is left generating. */
  lemma PlaceholderOutcome(s: Script, r: Request, rows: Rows, ending: Ending)
    requires HasPlaceholder(s, r)
    ensures var after, last := RequestRows(s, r, rows, ending), LastEvent(s, r, rows);
            && |after| >= |rows| + 2 && after[|rows|] == UserRow(r.query)
            && var row := after[|rows| + 1];
               && (row == Row(Assistant, Complete, Envelope(Reply(s))) <==>
                   last == Final(Reply(s)) && ClosingHolds(s, ending))
               && (row == Row(Assistant, Failed, Partial(PartialText(s))) <==>
                     last == Error && Trouble(s) != Refused && s.fail == Fine && s.failClose == Fine)
               && (row.status == Complete ==> last.Final?) && (row.status == Failed ==> last.Error?)
               && (|| row.status == Generating
                   || row == Row(Assistant, Complete, Envelope(Reply(s)))
                   || row == Row(Assistant, Failed, Partial(PartialText(s))))
  {
    hide Strip, AssistantText, PartialText, Reply;
  }

  /** No statement of the stream is refused and the closing ones go through. */
  predicate StatementsSucceed(s: Script) {
    Trouble(s) != Refused && FinishOutcome(s) == Fine && s.fail == Fine && s.failClose == Fine
  }

  /** If the database statements succeed, a created placeholder ends complete with final or failed with error, however
      the request ends. */
  lemma NothingStaysGenerating(s: Script, r: Request, rows: Rows, ending: Ending)
    requires HasPlaceholder(s, r) && StatementsSucceed(s)
    ensures var after := RequestRows(s, r, rows, ending);
            && |after| > |rows| + 1
            && (LastEvent(s, r, rows).Final? <==> after[|rows| + 1].status == Complete)
            && (LastEvent(s, r, rows).Error? <==> after[|rows| + 1].status == Failed)
  {
    hide Strip, AssistantText, PartialText, Reply;
    PlaceholderOutcome(s, r, rows, ending);
  }

  /** A stream that dies of a refused statement leaves its message generating: the handler does not roll back before it
      marks the message, so the marking is refused too, and so is the caller's commit. */
  lemma RefusalLeavesGenerating(s: Script, r: Request, rows: Rows, ending: Ending)
    requires HasPlaceholder(s, r) && Trouble(s) == Refused
    ensures LastEvent(s, r, rows) == Error
    ensures RequestRows(s, r, rows, ending) == rows + [UserRow(r.query)] + [PLACEHOLDER_ROW]
  {
    hide Strip;
  }

  /** A stream whose closing does not hold still ends with final, and leaves its message generating; a title or summary
      step that breaks off does so unless the caller commits. */
  lemma FinalMayBeLost(s: Script, r: Request, rows: Rows, ending: Ending)
    requires HasPlaceholder(s, r) && Trouble(s) == Fine
    ensures LastEvent(s, r, rows) == Final(Reply(s))
    ensures RequestRows(s, r, rows, ending) == rows + [UserRow(r.query)] + [PLACEHOLDER_ROW] <==>
              !ClosingHolds(s, ending)
  {
    hide Strip, Reply;
    if ClosingHolds(s, ending) { PlaceholderOutcome(s, r, rows, ending); }
  }

  /** A turn persisted as a whole is not atomic when the caller commits: a title or summary step that breaks off after
      the answer ends the stream in an error, and the complete answer is stored all the same; an answer that breaks off
      leaves the message of the user alone. */
  lemma ErrorMayKeepTheTurn(s: Script, r: Request, rows: Rows, text: string)
    requires r.known && s.social == Fine && s.reply == Some(text) && Then(s.persist.check, s.persist.user) == Fine
    ensures s.persist.assistant == Fine && s.persist.titles == Broke ==>
              && LastEvent(s, r, rows) == Error && FinalRows(s, r, rows) == rows
              && RequestRows(s, r, rows, Commits(Fine)) ==
                   rows + [UserRow(r.query)] + [Row(Assistant, Complete, Envelope(text))]
    ensures s.persist.assistant == Broke ==>
              && LastEvent(s, r, rows) == Error && FinalRows(s, r, rows) == rows
              && RequestRows(s, r, rows, Commits(Fine)) == rows + [UserRow(r.query)]
  {
    hide Strip;
  }

  /** When only the creation of the placeholder breaks down, the user's message is stored twice. */
  lemma UserMessageStoredTwice(s: Script, r: Request, rows: Rows, ending: Ending)
    requires r.known && s.social == Fine && s.reply.None? && Then(s.check, s.user) == Fine && s.ahead == Fine
    requires Trouble(s) == Fine && PersistOutcome(s.persist) == Fine
    ensures RequestRows(s, r, rows, ending) ==
            match s.placeholder
            case Fine =>
              if !ClosingHolds(s, ending) then rows + [UserRow(r.query)] + [PLACEHOLDER_ROW]
              else rows + [UserRow(r.query)] + [Row(Assistant, Complete, Envelope(Reply(s)))] +
                   if s.titles == Fine then Summary(s.compacts) else []
            case Refused =>
              rows + [UserRow(r.query)] + [Row(Assistant, Complete, Envelope(Reply(s)))] + Summary(s.persist.compacts)
            case Broke =>
              rows + [UserRow(r.query)] + [UserRow(r.query)] + [Row(Assistant, Complete, Envelope(Reply(s)))] +
              Summary(s.persist.compacts)
  {
    hide Strip, Reply;
    var written := rows + [UserRow(r.query)] + [PLACEHOLDER_ROW];
    assert written[|rows| + 1 := Row(Assistant, Complete, Envelope(Reply(s)))] ==
             rows + [UserRow(r.query)] + [Row(Assistant, Complete, Envelope(Reply(s)))];
  }

  /** Rows only added, none for an unknown session or user, and at most one generating row, which a startup cleanup
      then fails. */
  ghost predicate Extends(s: Script, r: Request, rows: Rows, after: Rows) {
    && rows <= after && (!r.known ==> after == rows)
    && forall i | |rows| <= i < |after| && after[i].status == Generating ::
         i == |rows| + 1 && HasPlaceholder(s, r) && CleanedUp(after)[i].status == Failed
  }

  lemma TurnExtends(s: Script, r: Request, p: Persist, rows: Rows, start: Rows, text: string)
    requires start <= rows && (!r.known ==> rows == start)
    requires forall i | |start| <= i < |rows| :: rows[i].status != Generating
    ensures Extends(s, r, start, Persisted(r, p, rows, text)) && Extends(s, r, start, TurnAfterCommit(r, p, rows, text))
  {
    hide Strip;
  }

  lemma FinalRowsExtend(s: Script, r: Request, rows: Rows)
    ensures Extends(s, r, rows, FinalRows(s, r, rows))
  {
    hide Strip, Reply, PartialText, Persisted;
    var o := OpeningOf(s, r, rows);
    if s.reply.Some? { TurnExtends(s, r, s.persist, rows, rows, s.reply.value); }
    if o.placeholder.None? { TurnExtends(s, r, s.persist, o.rows, rows, Reply(s)); }
  }

  lemma AfterCommitExtends(s: Script, r: Request, rows: Rows)
    ensures Extends(s, r, rows, AfterCommit(s, r, rows))
  {
    FinalRowsExtend(s, r, rows);
    hide Strip, Reply, PartialText, TurnAfterCommit, FinalRows;
    var o := OpeningOf(s, r, rows);
    if s.reply.Some? { TurnExtends(s, r, s.persist, rows, rows, s.reply.value); }
    if o.placeholder.None? { TurnExtends(s, r, s.persist, o.rows, rows, Reply(s)); }
  }

  /** A stream only adds rows, adds none for an unknown session or user, and adds at most one generating row, which a
      startup cleanup then fails. */
  lemma EarlierRowsStay(s: Script, r: Request, rows: Rows, ending: Ending)
    ensures var after := RequestRows(s, r, rows, ending);
            && rows <= after && (!r.known ==> after == rows)
            && forall i | |rows| <= i < |after| && after[i].status == Generating ::
                 i == |rows| + 1 && HasPlaceholder(s, r) && CleanedUp(after)[i].status == Failed
  {
    FinalRowsExtend(s, r, rows);
    AfterCommitExtends(s, r, rows);
    hide FinalRows, AfterCommit;
  }

  /** In a whole stream every event before the last is not terminal, responding comes at most once and before any
      visible text, and phases never go back. */
  lemma StreamShape(es: seq<Event>, i: nat, j: nat)
    requires IsStream(es) && i < j < |es|
    ensures es[0] == Progress(Thinking) && IsTerminal(es[|es| - 1]) && !IsTerminal(es[i])
    ensures es[i].Progress? && es[j].Progress? ==> Rank(es[i].phase) <= Rank(es[j].phase)
    ensures es[i] == Progress(Responding) ==> es[j] != Progress(Responding)
    ensures es[j].Delta? && es[j].text != "" ==> exists k: nat | k < j :: es[k] == Progress(Responding)
  {
    var front := es[..|es| - 1];
    if j < |front| {
      assert front[i] == es[i] && front[j] == es[j];
      if es[j].Delta? && es[j].text != "" {
        var k :| 0 <= k < j && front[..j][k] == Progress(Responding);
        assert es[k] == Progress(Responding);
      }
    }
    assert front[i] == es[i] && front[0] == es[0];
  }
}
