/** The life of a chat message row (adapters/db/chat.py) and the transaction it is written in. */
module ChatMessages {
  import opened Wrappers
  import opened Sequences

  datatype Status = Generating | Complete | Failed | Superseded

  datatype Kind = User | Assistant | System

  datatype Payload = Text(text: string) | Placeholder | Envelope(text: string) | Partial(text: string)

  datatype Row = Row(kind: Kind, status: Status, payload: Payload)

  /** Rows are named by their position. */
  type Rows = seq<Row>

  // ---- guarded status changes ----

  predicate IsGenerating(rows: Rows, id: nat) { id < |rows| && rows[id].status == Generating }

  /** finalize_assistant_message */
  function Finalized(rows: Rows, id: nat, text: string): Rows {
    if IsGenerating(rows, id) then rows[id := rows[id].(status := Complete, payload := Envelope(text))] else rows
  }

  /** fail_assistant_message */
  function MarkedFailed(rows: Rows, id: nat, partial: string): Rows {
    if IsGenerating(rows, id) then rows[id := rows[id].(status := Failed, payload := Partial(partial))] else rows
  }

  /** mark_message_superseded, as its statement reads. It names a column that the migrations do not give the table, so
      the database refuses it there: see MarkSuperseded. */
  function MarkedSuperseded(rows: Rows, id: nat): Rows {
    if id < |rows| && rows[id].status == Complete && rows[id].kind == Assistant
      then rows[id := rows[id].(status := Superseded)] else rows
  }

  /** cleanup_stale_generating_messages */
  function CleanedUp(rows: Rows): (r: Rows)
    ensures |r| == |rows|
    ensures forall i | 0 <= i < |rows| :: r[i] ==
              if rows[i].status == Generating then rows[i].(status := Failed) else rows[i]
  {
    if rows == [] then []
    else
      var last := rows[|rows| - 1];
      CleanedUp(rows[..|rows| - 1]) + [if last.status == Generating then last.(status := Failed) else last]
  }

  /** Every row the source adds and every change of a status. Deleting a session with its rows is left out. */
  datatype Change =
    | Append(row: Row)
    | Finalize(id: nat, text: string)
    | Fail(id: nat, partial: string)
    | Supersede(id: nat)
    | Cleanup

  function Changed(rows: Rows, c: Change): Rows {
    match c
    case Append(row) => rows + [row]
    case Finalize(id, text) => Finalized(rows, id, text)
    case Fail(id, partial) => MarkedFailed(rows, id, partial)
    case Supersede(id) => MarkedSuperseded(rows, id)
    case Cleanup => CleanedUp(rows)
  }

  function AllChanged(rows: Rows, cs: seq<Change>): Rows {
    if cs == [] then rows else Changed(AllChanged(rows, cs[..|cs| - 1]), cs[|cs| - 1])
  }

  /** The ways a row's status may have moved: out of generating once, and from complete to superseded. */
  predicate Leads(from: Status, to: Status) {
    from == to || from == Generating || (from == Complete && to == Superseded)
  }

  ghost predicate MovedOn(before: Row, after: Row) {
    && after.kind == before.kind && Leads(before.status, after.status)
    && (before.status != Generating ==> after.payload == before.payload)
    && (after.status == Generating ==> after == before)
    && (before.status == Generating && after.status == Failed ==>
        after.payload == before.payload || after.payload.Partial?)
    && (before.status == Generating && after.status in {Complete, Superseded} ==> after.payload.Envelope?)
  }

  /** Whatever is done to the table, in any order, statuses only move forward, and what a row said when it left
      generating it says for good. */
  lemma {:induction false} EveryRunMovesOn(rows: Rows, cs: seq<Change>)
    ensures var after := AllChanged(rows, cs); |rows| <= |after| && forall i | 0 <= i < |rows| ::
              MovedOn(rows[i], after[i])
  {
    if cs != [] {
      EveryRunMovesOn(rows, cs[..|cs| - 1]);
      var mid := AllChanged(rows, cs[..|cs| - 1]);
      var after := AllChanged(rows, cs);
      assert after == Changed(mid, cs[|cs| - 1]);
      hide AllChanged;
      forall i | 0 <= i < |rows| ensures MovedOn(rows[i], after[i]) {
        assert MovedOn(rows[i], mid[i]);
        ChangeMovesOn(mid, cs[|cs| - 1], i);
      }
    }
  }

  lemma ChangeMovesOn(rows: Rows, c: Change, i: nat)
    requires i < |rows|
    ensures |rows| <= |Changed(rows, c)| && MovedOn(rows[i], Changed(rows, c)[i])
  {
  }

  /** Without the column that superseding needs, no row that was not superseded ever is. */
  lemma {:induction false} NothingIsSuperseded(rows: Rows, cs: seq<Change>, i: nat)
    requires i < |rows| && rows[i].status != Superseded && forall c | c in cs :: !c.Supersede?
    ensures i < |AllChanged(rows, cs)| && AllChanged(rows, cs)[i].status != Superseded
  {
    if cs != [] {
      var front := cs[..|cs| - 1];
      assert cs == front + [cs[|cs| - 1]];
      NothingIsSuperseded(rows, front, i);
    }
  }

  /** The first of finalizing and failing wins, whatever comes after. */
  lemma FirstOutcomeWins(rows: Rows, id: nat, text: string, partial: string)
    ensures MarkedFailed(Finalized(rows, id, text), id, partial) == Finalized(rows, id, text)
    ensures Finalized(MarkedFailed(rows, id, partial), id, text) == MarkedFailed(rows, id, partial)
    ensures Finalized(Finalized(rows, id, text), id, partial) == Finalized(rows, id, text)
    ensures MarkedSuperseded(MarkedSuperseded(rows, id), id) == MarkedSuperseded(rows, id)
  {
  }

  /** After the startup cleanup nothing is left generating, and doing it again changes nothing. */
  lemma CleanupIsThorough(rows: Rows)
    ensures forall i | 0 <= i < |rows| :: CleanedUp(rows)[i].status != Generating
    ensures CleanedUp(CleanedUp(rows)) == CleanedUp(rows)
  {
  }

  // ---- the transaction ----

  /** What becomes of a statement: done, refused by the database, or never sent. */
  datatype Outcome = Fine | Refused | Broke

  /** One database session. A refused statement spoils the transaction: until it ends every statement is refused, and
      its commit is a rollback. */
  class ChatDb {
    var committed: Rows
    var working: Rows
    var spoiled: bool

    constructor (rows: Rows)
      ensures committed == working == rows && !spoiled
    {
      committed, working, spoiled := rows, rows, false;
    }

    /** Any statement that writes no message. */
    method Run(o: Outcome) returns (ok: bool)
      modifies this`spoiled
      ensures ok == (!old(spoiled) && o == Fine)
      ensures spoiled == (old(spoiled) || o == Refused)
    {
      if spoiled || o == Refused {
        spoiled := true;
        return false;
      }
      ok := o == Fine;
    }

    /** One statement that changes the messages. */
    method Write(o: Outcome, c: Change) returns (ok: bool)
      modifies this`spoiled, this`working
      ensures ok == (!old(spoiled) && o == Fine)
      ensures spoiled == (old(spoiled) || o == Refused)
      ensures working == if ok then Changed(old(working), c) else old(working)
    {
      ok := Run(o);
      if ok {
        working := Changed(working, c);
      }
    }

    /** mark_message_superseded: where the table lacks the column it names, the statement is refused, the request fails
        and no row changes; elsewhere a complete assistant message is superseded, and updated says whether one was. */
    method MarkSuperseded(id: nat, hasColumn: bool, o: Outcome) returns (ok: bool, updated: bool)
      modifies this`spoiled, this`working
      ensures ok == (hasColumn && !old(spoiled) && o == Fine)
      ensures spoiled == (old(spoiled) || !hasColumn || o == Refused)
      ensures working == if ok then MarkedSuperseded(old(working), id) else old(working)
      ensures updated == (ok && id < |old(working)| && old(working)[id].status == Complete &&
                          old(working)[id].kind == Assistant)
    {
      var matches := id < |working| && working[id].status == Complete && working[id].kind == Assistant;
      ok := Write(if hasColumn then o else Refused, Supersede(id));
      updated := ok && matches;
    }

    /** A commit that fails ends the transaction without effect. */
    method Commit(o: Outcome) returns (ok: bool)
      modifies this
      ensures ok == (old(spoiled) || o == Fine)
      ensures committed == working == (if old(spoiled) || o != Fine then old(committed) else old(working)) && !spoiled
    {
      if spoiled || o != Fine {
        ok := spoiled;
        working, spoiled := committed, false;
      } else {
        committed, ok := working, true;
      }
    }

    method Rollback()
      modifies this`working, this`spoiled
      ensures working == committed && !spoiled
    {
      working, spoiled := committed, false;
    }

    /** cleanup_stale_generating_messages in its own session: the number of rows cleaned. */
    method CleanUp(o: Outcome, commit: Outcome) returns (ok: bool)
      requires !spoiled && working == committed
      modifies this
      ensures ok == (o == Fine && commit == Fine)
      ensures committed == if ok then CleanedUp(old(committed)) else old(committed)
    {
      ok := Write(o, Cleanup);
      if !ok {
        return;
      }
      ok := Commit(commit);
    }
  }
}
