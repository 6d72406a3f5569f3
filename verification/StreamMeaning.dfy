/** When a chat stream ends well and what it then says and stores, said of the outcomes of its steps alone
    (domain/chat/stream.py). */
module StreamMeaning {
  import opened Wrappers
  import opened Sequences
  import opened Text
  import opened ChatMessages
  import opened ChatStream

  // ---- when it ends well ----

  /** The statements that persist a whole turn go through, or there is nobody to persist it for. */
  predicate Persists(s: Script, r: Request) {
    r.known ==>
      && s.persist.check == Fine && s.persist.user == Fine && s.persist.assistant == Fine
      && s.persist.titles == Fine && s.persist.commit == Fine
  }

  predicate Searched(s: Script) {
    && s.plan == Fine && s.mastery == Fine && s.retrieve == Fine && s.execute == Fine
    && (!s.emptyWorkspace ==> s.evidence == Fine)
  }

  predicate Answered(s: Script) {
    match s.generation
    case Clarify(_) => true
    case Streamed(begin, _, end, _, _, save) => begin == Fine && end == Fine && save == Fine
    case Blocking(call, _) => call == Fine
  }

  /** Every step between the write-ahead and the end goes through; an empty workspace needs no answer. Building actions
      is not among them. */
  predicate Works(s: Script) {
    Searched(s) && (s.emptyWorkspace || (Answered(s) && s.parts == Fine && s.verify == Fine && s.enrich == Fine))
  }

  /** The write-ahead raises nothing: a refused placeholder alone is tolerated, and so is one that breaks down. */
  predicate Starts(s: Script, r: Request) {
    r.known ==> s.check == Fine && s.user == Fine && (s.placeholder == Refused || s.ahead == Fine)
  }

  /** The write-ahead leaves a placeholder. */
  predicate Holds(s: Script, r: Request) {
    r.known && s.check == Fine && s.user == Fine && s.placeholder == Fine && s.ahead == Fine
  }

  /** A stream ends in final exactly when its steps go through: a ready reply needs its turn persisted; any other reply
      needs the write-ahead, every step up to the end, and without a placeholder its turn persisted. The text is the
      ready reply, the notice for an empty workspace, or the envelope of what was said. */
  lemma FinalCondition(s: Script, r: Request, rows: Rows)
    ensures LastEvent(s, r, rows).Final? <==>
            && s.social == Fine
            && if s.reply.Some? then Persists(s, r)
               else Starts(s, r) && Works(s) && (Holds(s, r) || Persists(s, r))
    ensures LastEvent(s, r, rows).Final? ==>
              LastEvent(s, r, rows) ==
              Final(if s.reply.Some? then s.reply.value
                    else if s.emptyWorkspace then EMPTY_WORKSPACE_TEXT
                    else s.envelope(Said(s.generation, match s.generation
                                                       case Streamed(_, deltas, _, _, _, _) => Join(deltas)
                                                       case _ => "")))
    ensures !LastEvent(s, r, rows).Final? ==> LastEvent(s, r, rows) == Error
  {
    TroubleMeaning(s);
    hide Strip, Join, Trouble;
  }

  lemma TroubleMeaning(s: Script)
    ensures Trouble(s) == Fine <==> Works(s)
  {
  }

  // ---- how it breaks off ----

  /** The steps between the write-ahead and the end, in order. */
  function Steps(s: Script): seq<Outcome> {
    [s.plan, s.mastery, s.retrieve, s.execute] + if s.emptyWorkspace then [] else [s.evidence] + AnswerSteps(s)
  }

  function AnswerSteps(s: Script): seq<Outcome> {
    (match s.generation
     case Clarify(_) => []
     case Streamed(begin, _, end, _, _, save) => [begin, end, save]
     case Blocking(call, _) => [call]) + [s.parts, s.verify, s.enrich]
  }

  /** The first outcome that is not fine is this one. */
  ghost predicate FirstWrong(steps: seq<Outcome>, outcome: Outcome) {
    exists i :: 0 <= i < |steps| && steps[i] == outcome && outcome != Fine && AllFine(steps[..i])
  }

  predicate AllFine(steps: seq<Outcome>) { forall i | 0 <= i < |steps| :: steps[i] == Fine }

  function First(steps: seq<Outcome>): Outcome {
    if steps == [] then Fine else Then(steps[0], First(steps[1..]))
  }

  lemma {:induction false} FirstAppend(a: seq<Outcome>, b: seq<Outcome>)
    ensures First(a + b) == Then(First(a), First(b))
  {
    if a == [] {
      assert a + b == b;
    } else {
      FirstAppend(a[1..], b);
      assert (a + b)[1..] == a[1..] + b;
    }
  }

  lemma {:induction false} FirstMeaning(steps: seq<Outcome>, outcome: Outcome)
    requires outcome != Fine
    ensures First(steps) == outcome <==> FirstWrong(steps, outcome)
  {
    if steps != [] {
      FirstMeaning(steps[1..], outcome);
      if steps[0] != Fine {
        if FirstWrong(steps, outcome) {
          var i :| 0 <= i < |steps| && steps[i] == outcome && AllFine(steps[..i]);
          if i > 0 { HeadIsFine(steps, i); }
        } else {
          assert steps[0] == outcome ==> AllFine(steps[..0]);
        }
      } else {
        LaterWrong(steps, outcome);
      }
    }
  }

  lemma HeadIsFine(steps: seq<Outcome>, i: nat)
    requires 0 < i <= |steps| && AllFine(steps[..i])
    ensures steps[0] == Fine
  {
    assert steps[..i][0] == steps[0];
  }

  lemma LaterWrong(steps: seq<Outcome>, outcome: Outcome)
    requires steps != [] && steps[0] == Fine
    ensures FirstWrong(steps, outcome) <==> FirstWrong(steps[1..], outcome)
  {
    if FirstWrong(steps, outcome) {
      var i :| 0 <= i < |steps| && steps[i] == outcome && outcome != Fine && AllFine(steps[..i]);
      assert steps[1..][..i - 1] == steps[..i][1..];
      assert steps[1..][i - 1] == outcome && AllFine(steps[1..][..i - 1]);
    }
    if FirstWrong(steps[1..], outcome) {
      var i :| 0 <= i < |steps[1..]| && steps[1..][i] == outcome && outcome != Fine && AllFine(steps[1..][..i]);
      assert steps[..i + 1] == [steps[0]] + steps[1..][..i];
      assert steps[i + 1] == outcome && AllFine(steps[..i + 1]);
    }
  }

  /** The first step that goes wrong is the trouble of the stream. */
  lemma TroubleIsFirst(s: Script, outcome: Outcome)
    requires outcome != Fine
    ensures Trouble(s) == outcome <==> FirstWrong(Steps(s), outcome)
  {
    var search, rest := [s.plan, s.mastery, s.retrieve, s.execute], AnswerSteps(s);
    FirstMeaning(Steps(s), outcome);
    FirstAppend(search, if s.emptyWorkspace then [] else [s.evidence] + rest);
    FirstAppend([s.evidence], rest);
    var g := rest[..|rest| - 3];
    assert rest == g + [s.parts, s.verify, s.enrich];
    FirstAppend(g, [s.parts, s.verify, s.enrich]);
    hide FirstWrong;
    FirstFew(s.plan, s.mastery, s.retrieve, s.execute);
    FirstFew(s.parts, s.verify, s.enrich, Fine);
    match s.generation {
      case Clarify(_) =>
      case Streamed(begin, _, end, _, _, save) => FirstFew(begin, end, save, Fine);
      case Blocking(call, _) =>
    }
  }

  lemma FirstOne(a: Outcome)
    ensures First([a]) == a
  {
    assert First([a][1..]) == Fine;
  }

  lemma FirstFew(a: Outcome, b: Outcome, c: Outcome, d: Outcome)
    ensures First([a, b, c, d]) == Then(a, Then(b, Then(c, d))) && First([a, b, c]) == Then(a, Then(b, c))
    ensures First([a]) == a
  {
    hide First;
    FirstOne(a);
    FirstOne(b);
    FirstOne(c);
    FirstOne(d);
    FirstAppend([a], [b]);
    FirstAppend([a, b], [c]);
    FirstAppend([a, b, c], [d]);
    assert [a] + [b] == [a, b] && [a, b] + [c] == [a, b, c] && [a, b, c] + [d] == [a, b, c, d];
  }

  /** What a stream that breaks off leaves of its placeholder: when the first step to go wrong was refused the message
      is left generating; when it broke down and the marking is committed the message has failed, and keeps the reply if
      that was complete and nothing otherwise. */
  lemma FailedMeaning(s: Script, r: Request, rows: Rows, ending: Ending)
    requires s.social == Fine && s.reply.None? && Holds(s, r) && !Works(s)
    ensures var after := RequestRows(s, r, rows, ending);
            && |after| == |rows| + 2 && after[..|rows|] == rows
            && after[|rows|] == Row(User, Complete, Text(Strip(r.query)))
            && after[|rows| + 1] ==
                 if FirstWrong(Steps(s), Broke) && s.fail == Fine && s.failClose == Fine
                 then Row(Assistant, Failed, Partial(SaidSoFar(s)))
                 else Row(Assistant, Generating, Placeholder)
  {
    TroubleMeaning(s);
    TroubleIsFirst(s, Broke);
    SearchMeaning(s);
    hide Strip, Join, Trouble, FirstWrong, Works, Searched, Answered, SearchTrouble, GenerationTrouble, Steps,
      SaidSoFar, PartialText;
    var o, row := OpeningOf(s, r, rows), Row(User, Complete, Text(Strip(r.query)));
    assert o == Opening(rows + [row] + [PLACEHOLDER_ROW], Some(|rows| + 1), false);
    assert o.rows[..|rows|] == rows;
    PartialMeaning(s);
  }

  /** What was said when the stream broke off: the whole reply or nothing. */
  function SaidSoFar(s: Script): string {
    if !Searched(s) || s.emptyWorkspace || !Answered(s) then ""
    else
      Said(s.generation, match s.generation
                         case Streamed(_, deltas, _, _, _, _) => Join(deltas)
                         case _ => "")
  }

  lemma PartialMeaning(s: Script)
    ensures PartialText(s) == SaidSoFar(s)
  {
  }

  lemma SearchMeaning(s: Script)
    ensures SearchTrouble(s) == Fine <==> Searched(s)
    ensures GenerationTrouble(s.generation) == Fine <==> Answered(s)
  {
  }
}
