/** The bounded loop between the model and its tools (core/agent_loop.py, core/tools.py). */
module AgentLoop {
  import opened Wrappers
  import opened Sequences
  import opened Ordering
  import opened Text

  // ---- tools ----

  datatype ToolCall = ToolCall(id: string, name: string, args: string)

  /** What one invocation of a tool comes to. */
  datatype Outcome = BadJson(detail: string) | BadArguments(detail: string) | Result(text: string)
    | Raised(detail: string)

  /** A tool's behaviour, invocation by invocation. */
  datatype Tool = Tool(name: string, invoke: (nat, string) -> Outcome)

  class ToolRegistry {
    var tools: map<string, Tool>
    var order: seq<string>

    ghost predicate Valid()
      reads this
    {
      && Distinct(order) && (forall n :: n in order <==> n in tools)
      && forall n | n in tools :: tools[n].name == n
    }

    constructor ()
      ensures Valid() && tools == map[] && order == []
    {
      tools, order := map[], [];
    }

    /** False stands for the duplicate-name error. */
    method Register(tool: Tool) returns (ok: bool)
      requires Valid()
      modifies this
      ensures Valid()
      ensures ok == (tool.name !in old(tools))
      ensures ok ==> tools == old(tools)[tool.name := tool] && order == old(order) + [tool.name]
      ensures !ok ==> tools == old(tools) && order == old(order)
    {
      if tool.name in tools {
        return false;
      }
      tools := tools[tool.name := tool];
      order := order + [tool.name];
      return true;
    }
  }

  datatype Role = System | User | Assistant | ToolRole

  datatype Message = Message(role: Role, content: string, toolCalls: seq<ToolCall>, toolCallId: string)

  function AssistantSays(content: string, calls: seq<ToolCall>): Message { Message(Assistant, content, calls, "") }

  function ToolSays(content: string, id: string): Message { Message(ToolRole, content, [], id) }

  /** The tools of an executor, and how an error object is written as JSON. */
  datatype Executor = Executor(tools: map<string, Tool>, errorJson: string -> string) {

    /** The text of one call, the n-th made: a tool's result, or an error the model can read. */
    function RunOne(n: nat, name: string, args: string): string {
      if name !in tools then errorJson("Unknown tool: " + name)
      else
        match tools[name].invoke(n, args)
        case BadJson(detail) => errorJson("Invalid arguments JSON: " + detail)
        case BadArguments(detail) => errorJson("Invalid arguments: " + detail)
        case Result(text) => text
        case Raised(detail) => errorJson("Tool execution failed: " + detail)
    }

    function Replies(n: nat, calls: seq<ToolCall>): (ms: seq<Message>)
      ensures |ms| == |calls|
      ensures forall j | 0 <= j < |calls| :: ms[j] == ToolSays(RunOne(n + j, calls[j].name, calls[j].args), calls[j].id)
    {
      if calls == [] then []
      else
        var last := calls[|calls| - 1];
        Replies(n, calls[..|calls| - 1]) + [ToolSays(RunOne(n + |calls| - 1, last.name, last.args), last.id)]
    }

    lemma RepliesAppend(n: nat, calls: seq<ToolCall>, c: ToolCall)
      ensures Replies(n, []) == []
      ensures Replies(n, calls + [c]) == Replies(n, calls) + [ToolSays(RunOne(n + |calls|, c.name, c.args), c.id)]
    {
      hide RunOne;
      assert (calls + [c])[..|calls|] == calls;
    }

    /** One reply per call, in order, tagged with the call's id. */
    method ExecuteToolCalls(n: nat, calls: seq<ToolCall>) returns (results: seq<Message>)
      ensures results == Replies(n, calls)
    {
      hide RunOne, Replies;
      results := [];
      RepliesAppend(n, [], ToolCall("", "", ""));
      for j := 0 to |calls|
        invariant results == Replies(n, calls[..j])
      {
        SplitAt(calls, j);
        RepliesAppend(n, calls[..j], calls[j]);
        results := results + [ToolSays(RunOne(n + j, calls[j].name, calls[j].args), calls[j].id)];
      }
      assert calls[..|calls|] == calls;
    }
  }

  // ---- the loop ----

  /** What the model returns: token usage and at most one message. */
  datatype Response = Response(promptTokens: nat, completionTokens: nat, choice: Option<Choice>)

  datatype Choice = Choice(content: string, toolCalls: seq<ToolCall>)

  /** The model, call by call; None is a call that raised. */
  type Llm = (nat, seq<Message>) -> Option<Response>

  datatype LoopResult = LoopResult(text: string, messages: seq<Message>, iterations: nat, toolCallsMade: nat,
                                   budgetExhausted: bool,
                                   promptTokens: nat, completionTokens: nat)

  /** A round in which the model asked for tools: what it said and what it asked. */
  datatype Round = Round(content: string, calls: seq<ToolCall>)

  function CallsIn(rounds: seq<Round>): nat {
    if rounds == [] then 0 else CallsIn(rounds[..|rounds| - 1]) + |rounds[|rounds| - 1].calls|
  }

  /** The messages the rounds append: each request followed by its replies. */
  function Said(x: Executor, rounds: seq<Round>): seq<Message> {
    if rounds == [] then []
    else
      var front, r := rounds[..|rounds| - 1], rounds[|rounds| - 1];
      Said(x, front) + ([AssistantSays(r.content, r.calls)] + x.Replies(CallsIn(front), r.calls))
  }

  /** The model asked for these tools, round by round, having seen everything said before. */
  ghost predicate Happened(llm: Llm, x: Executor, input: seq<Message>, rounds: seq<Round>) {
    rounds == [] ||
    var front, r := rounds[..|rounds| - 1], rounds[|rounds| - 1];
    && Happened(llm, x, input, front)
    && r.calls != []
    && var reply := llm(|rounds|, input + Said(x, front));
       reply.Some? && reply.value.choice == Some(Choice(r.content, r.calls))
  }

  /** What the model says at one point, when it asks for tools. */
  function NextRound(llm: Llm, x: Executor, input: seq<Message>, rounds: seq<Round>): (r: Option<Round>)
    ensures r.Some? ==> r.value.calls != []
  {
    match llm(|rounds| + 1, input + Said(x, rounds))
    case None => None
    case Some(reply) =>
      if reply.choice.None? || reply.choice.value.toolCalls == [] then None
      else Some(Round(reply.choice.value.content, reply.choice.value.toolCalls))
  }

  /** All rounds from some on, while the model asks for tools and the budget lasts. */
  function Rounds(llm: Llm, x: Executor, input: seq<Message>, rounds: seq<Round>, budget: nat): seq<Round>
    decreases budget
  {
    if budget == 0 then rounds
    else
      match NextRound(llm, x, input, rounds)
      case None => rounds
      case Some(r) => Rounds(llm, x, input, rounds + [r], budget - 1)
  }

  /** The usage reported over the rounds. */
  function PromptTokens(llm: Llm, x: Executor, input: seq<Message>, rounds: seq<Round>): nat {
    if rounds == [] then 0
    else
      var front := rounds[..|rounds| - 1];
      var reply := llm(|rounds|, input + Said(x, front));
      PromptTokens(llm, x, input, front) + if reply.Some? then reply.value.promptTokens else 0
  }

  function CompletionTokens(llm: Llm, x: Executor, input: seq<Message>, rounds: seq<Round>): nat {
    if rounds == [] then 0
    else
      var front := rounds[..|rounds| - 1];
      var reply := llm(|rounds|, input + Said(x, front));
      CompletionTokens(llm, x, input, front) + if reply.Some? then reply.value.completionTokens else 0
  }

  /** The loop's end after some rounds: the budget ran out, the model said nothing, or it gave its final text. */
  ghost predicate Ended(llm: Llm, x: Executor, input: seq<Message>, maxIterations: nat, rounds: seq<Round>,
                        r: LoopResult) {
    var said := input + Said(x, rounds);
    r.toolCallsMade == CallsIn(rounds) &&
    if |rounds| == maxIterations then
      && r.messages == said && r.budgetExhausted && r.iterations == maxIterations
      && rounds != [] && r.text == Strip(rounds[|rounds| - 1].content)
      && r.promptTokens == PromptTokens(llm, x, input, rounds)
      && r.completionTokens == CompletionTokens(llm, x, input, rounds)
    else
      && |rounds| < maxIterations && !r.budgetExhausted && r.iterations == |rounds| + 1
      && var reply := llm(|rounds| + 1, said);
         && reply.Some?
         && r.promptTokens == PromptTokens(llm, x, input, rounds) + reply.value.promptTokens
         && r.completionTokens == CompletionTokens(llm, x, input, rounds) + reply.value.completionTokens
         && match reply.value.choice
            case None => r.messages == said && r.text == ""
            case Some(c) =>
              c.toolCalls == [] && r.messages == said + [AssistantSays(c.content, [])] && r.text == Strip(c.content)
  }

  /** The loop's variables after some rounds. */
  ghost predicate IsAt(llm: Llm, x: Executor, input: seq<Message>, rounds: seq<Round>, messages: seq<Message>,
                       calls: nat, prompt: nat, completion: nat) {
    && Happened(llm, x, input, rounds)
    && messages == input + Said(x, rounds) && calls == CallsIn(rounds)
    && prompt == PromptTokens(llm, x, input, rounds) && completion == CompletionTokens(llm, x, input, rounds)
  }

  lemma NothingSaid(llm: Llm, x: Executor, input: seq<Message>)
    ensures IsAt(llm, x, input, [], input, 0, 0, 0)
  {
    Unit(input);
  }

  lemma RoundAppended(llm: Llm, x: Executor, input: seq<Message>, rounds: seq<Round>, messages: seq<Message>,
                      calls: nat, prompt: nat, completion: nat,
                      reply: Response, r: Round)
    requires IsAt(llm, x, input, rounds, messages, calls, prompt, completion) && r.calls != []
    requires llm(|rounds| + 1, messages) == Some(reply) && reply.choice == Some(Choice(r.content, r.calls))
    ensures IsAt(llm, x, input, rounds + [r],
                 messages + [AssistantSays(r.content, r.calls)] + x.Replies(calls, r.calls),
                 calls + |r.calls|, prompt + reply.promptTokens, completion + reply.completionTokens)
  {
    var after := rounds + [r];
    assert after[..|rounds|] == rounds;
    hide Executor.Replies, Executor.RunOne;
    Assoc(messages, [AssistantSays(r.content, r.calls)], x.Replies(calls, r.calls));
    Assoc(input, Said(x, rounds), [AssistantSays(r.content, r.calls)] + x.Replies(calls, r.calls));
  }

  /** AgentLoop.run; None when a model call raised. */
  method Run(llm: Llm, x: Executor, input: seq<Message>, maxIterations: nat) returns (r: Option<LoopResult>)
    requires maxIterations >= 1
    ensures var rounds := Rounds(llm, x, input, [], maxIterations);
            && (r.None? <==> |rounds| < maxIterations && llm(|rounds| + 1, input + Said(x, rounds)).None?)
            && (r.Some? ==> Ended(llm, x, input, maxIterations, rounds, r.value))
  {
    hide Strip, Executor.Replies, Executor.RunOne, IsAt, Ended, Rounds, NextRound;
    var messages: seq<Message>, toolCallsMade: nat := input, 0;
    var prompt: nat, completion: nat := 0, 0;
    var content := "";
    ghost var rounds: seq<Round> := [];
    NothingSaid(llm, x, input);
    for iteration := 1 to maxIterations + 1
      invariant |rounds| == iteration - 1
      invariant Rounds(llm, x, input, rounds, maxIterations + 1 - iteration) == Rounds(llm, x, input, [], maxIterations)
      invariant IsAt(llm, x, input, rounds, messages, toolCallsMade, prompt, completion)
      invariant rounds != [] ==> content == rounds[|rounds| - 1].content
    {
      AtMeans(llm, x, input, rounds, messages, toolCallsMade, prompt, completion);
      hide Happened, Said, PromptTokens, CompletionTokens, CallsIn;
      RoundsStep(llm, x, input, rounds, maxIterations + 1 - iteration);
      var response := llm(iteration, messages);
      if response.None? {
        return None;
      }
      if response.value.choice.None? {
        r := Some(LoopResult("", messages, iteration, toolCallsMade, false,
                             prompt + response.value.promptTokens, completion + response.value.completionTokens));
        EndsEarly(llm, x, input, maxIterations, rounds, r.value);
        return;
      }
      var calls := response.value.choice.value.toolCalls;
      content := response.value.choice.value.content;
      if calls == [] {
        r := Some(LoopResult(Strip(content), messages + [AssistantSays(content, [])], iteration, toolCallsMade, false,
                             prompt + response.value.promptTokens, completion + response.value.completionTokens));
        EndsEarly(llm, x, input, maxIterations, rounds, r.value);
        return;
      }
      RoundAppended(llm, x, input, rounds, messages, toolCallsMade, prompt, completion, response.value,
                    Round(content, calls));
      messages := messages + [AssistantSays(content, calls)];
      prompt := prompt + response.value.promptTokens;
      completion := completion + response.value.completionTokens;
      var results := x.ExecuteToolCalls(toolCallsMade, calls);
      toolCallsMade := toolCallsMade + |calls|;
      messages := messages + results;
      rounds := rounds + [Round(content, calls)];
    }
    RoundsStep(llm, x, input, rounds, 0);
    AtMeans(llm, x, input, rounds, messages, toolCallsMade, prompt, completion);
    r := Some(LoopResult(Strip(content), messages, maxIterations, toolCallsMade, true, prompt, completion));
    EndsExhausted(llm, x, input, maxIterations, rounds, r.value);
  }

  lemma AtMeans(llm: Llm, x: Executor, input: seq<Message>, rounds: seq<Round>, messages: seq<Message>, calls: nat,
                prompt: nat, completion: nat)
    requires IsAt(llm, x, input, rounds, messages, calls, prompt, completion)
    ensures Happened(llm, x, input, rounds)
    ensures messages == input + Said(x, rounds) && calls == CallsIn(rounds)
    ensures prompt == PromptTokens(llm, x, input, rounds) && completion == CompletionTokens(llm, x, input, rounds)
  {
  }

  lemma RoundsStep(llm: Llm, x: Executor, input: seq<Message>, rounds: seq<Round>, budget: nat)
    ensures budget == 0 ==> Rounds(llm, x, input, rounds, budget) == rounds
    ensures budget > 0 ==>
              var reply := llm(|rounds| + 1, input + Said(x, rounds));
              Rounds(llm, x, input, rounds, budget) ==
              if reply.None? || reply.value.choice.None? || reply.value.choice.value.toolCalls == [] then rounds
              else Rounds(llm, x, input,
                          rounds + [Round(reply.value.choice.value.content, reply.value.choice.value.toolCalls)],
                          budget - 1)
  {
    hide Said;
  }

  /** The rounds taken really happened, within the budget, and stop early only where the model asks for nothing. */
  lemma {:induction false} RoundsMeaning(llm: Llm, x: Executor, input: seq<Message>, rounds: seq<Round>, budget: nat)
    requires Happened(llm, x, input, rounds)
    ensures var all := Rounds(llm, x, input, rounds, budget);
            && Happened(llm, x, input, all) && |rounds| <= |all| <= |rounds| + budget
            && (|all| < |rounds| + budget ==> NextRound(llm, x, input, all).None?)
    decreases budget
  {
    hide Said;
    if budget > 0 && NextRound(llm, x, input, rounds).Some? {
      var r := NextRound(llm, x, input, rounds).value;
      assert (rounds + [r])[..|rounds|] == rounds;
      RoundsMeaning(llm, x, input, rounds + [r], budget - 1);
    }
  }

  lemma EndsEarly(llm: Llm, x: Executor, input: seq<Message>, maxIterations: nat, rounds: seq<Round>, r: LoopResult)
    requires |rounds| < maxIterations && !r.budgetExhausted && r.iterations == |rounds| + 1
    requires r.toolCallsMade == CallsIn(rounds)
    requires var said := input + Said(x, rounds);
             var reply := llm(|rounds| + 1, said);
             && reply.Some?
             && r.promptTokens == PromptTokens(llm, x, input, rounds) + reply.value.promptTokens
             && r.completionTokens == CompletionTokens(llm, x, input, rounds) + reply.value.completionTokens
             && match reply.value.choice
                case None => r.messages == said && r.text == ""
                case Some(c) =>
                  c.toolCalls == [] && r.messages == said + [AssistantSays(c.content, [])] && r.text == Strip(c.content)
    ensures Ended(llm, x, input, maxIterations, rounds, r)
  {
    hide Strip, Said, PromptTokens, CompletionTokens;
  }

  lemma EndsExhausted(llm: Llm, x: Executor, input: seq<Message>, maxIterations: nat, rounds: seq<Round>, r: LoopResult)
    requires |rounds| == maxIterations && rounds != [] && r.budgetExhausted && r.iterations == maxIterations
    requires r.toolCallsMade == CallsIn(rounds)
    requires r.messages == input + Said(x, rounds) && r.text == Strip(rounds[|rounds| - 1].content)
    requires r.promptTokens == PromptTokens(llm, x, input, rounds)
    requires r.completionTokens == CompletionTokens(llm, x, input, rounds)
    ensures Ended(llm, x, input, maxIterations, rounds, r)
  {
  }

  // ---- the transcript ----

  predicate IsReply(m: Message, call: ToolCall) { m.role == ToolRole && m.toolCallId == call.id && m.toolCalls == [] }

  /** A request at position i is followed by exactly its replies, in order and with matching ids. */
  ghost predicate IsAnswered(ms: seq<Message>, i: nat)
    requires i < |ms|
  {
    var calls := ms[i].toolCalls;
    var n := |calls|;
    && i + n < |ms|
    && (forall j | 0 <= j < n :: IsReply(ms[i + 1 + j], calls[j]))
    && (i + 1 + n < |ms| ==> ms[i + 1 + n].role != ToolRole)
  }

  ghost predicate IsTranscript(ms: seq<Message>) {
    && (ms != [] ==> ms[0].role == Assistant)
    && (forall i | 0 <= i < |ms| :: IsTurn(ms[i]))
    && (forall i | 0 <= i < |ms| && ms[i].role == Assistant :: IsAnswered(ms, i))
  }

  /** A transcript holds the assistant's messages and tool messages, and only the former ask for tools. */
  predicate IsTurn(m: Message) { m.role == Assistant || (m.role == ToolRole && m.toolCalls == []) }

  function ToolMessages(ms: seq<Message>): nat {
    if ms == [] then 0 else ToolMessages(ms[..|ms| - 1]) + if ms[|ms| - 1].role == ToolRole then 1 else 0
  }

  lemma {:induction false} ToolMessagesAppend(a: seq<Message>, b: seq<Message>)
    ensures ToolMessages(a + b) == ToolMessages(a) + ToolMessages(b)
  {
    if b == [] {
      assert a + b == a;
    } else {
      ToolMessagesAppend(a, b[..|b| - 1]);
      assert (a + b)[..|a + b| - 1] == a + b[..|b| - 1];
    }
  }

  lemma {:induction false} RepliesAreToolMessages(x: Executor, n: nat, calls: seq<ToolCall>)
    ensures ToolMessages(x.Replies(n, calls)) == |calls|
  {
    if calls != [] {
      RepliesAreToolMessages(x, n, calls[..|calls| - 1]);
      var all := x.Replies(n, calls);
      assert all[..|all| - 1] == x.Replies(n, calls[..|calls| - 1]);
    }
  }

  /** One request and its replies, appended to a transcript. */
  lemma TranscriptExtends(x: Executor, ms: seq<Message>, n: nat, content: string, calls: seq<ToolCall>)
    requires IsTranscript(ms)
    ensures IsTranscript(ms + ([AssistantSays(content, calls)] + x.Replies(n, calls)))
    ensures ToolMessages(ms + ([AssistantSays(content, calls)] + x.Replies(n, calls))) == ToolMessages(ms) + |calls|
  {
    var request, replies := AssistantSays(content, calls), x.Replies(n, calls);
    hide IsTranscript, Executor.Replies, Executor.RunOne;
    TranscriptAppend(ms, request, replies);
    ToolMessagesAppend(ms, [request] + replies);
    ToolMessagesAppend([request], replies);
    RepliesAreToolMessages(x, n, calls);
    assert ToolMessages([request]) == 0;
  }

  ghost predicate AreReplies(replies: seq<Message>, calls: seq<ToolCall>) {
    && |replies| == |calls|
    && forall j | 0 <= j < |calls| :: IsReply(replies[j], calls[j])
  }

  lemma TranscriptAppend(ms: seq<Message>, request: Message, replies: seq<Message>)
    requires IsTranscript(ms) && request.role == Assistant && AreReplies(replies, request.toolCalls)
    ensures IsTranscript(ms + ([request] + replies))
  {
    hide IsAnswered;
    var tail := [request] + replies;
    var all := ms + tail;
    RequestAnswered(ms, request, replies);
    TurnsAppend(ms, request, replies);
    forall i | |ms| < i < |all| ensures all[i].role == ToolRole {
      assert all[i] == replies[i - |ms| - 1] && IsReply(replies[i - |ms| - 1], request.toolCalls[i - |ms| - 1]);
    }
    forall i | 0 <= i < |ms| && all[i].role == Assistant ensures IsAnswered(all, i) {
      assert all[i] == ms[i];
      StillAnswered(ms, tail, i);
    }
  }

  lemma TurnsAppend(ms: seq<Message>, request: Message, replies: seq<Message>)
    requires IsTranscript(ms) && request.role == Assistant && AreReplies(replies, request.toolCalls)
    ensures var all := ms + ([request] + replies); all[0].role == Assistant && forall i | 0 <= i < |all| ::
              IsTurn(all[i])
  {
    hide IsAnswered;
    var all := ms + ([request] + replies);
    forall i | 0 <= i < |all| ensures IsTurn(all[i]) {
      if i < |ms| { assert all[i] == ms[i]; }
      else if i == |ms| { assert all[i] == request; }
      else {
        assert all[i] == replies[i - |ms| - 1] && IsReply(replies[i - |ms| - 1], request.toolCalls[i - |ms| - 1]);
      }
    }
  }

  lemma StillAnswered(ms: seq<Message>, tail: seq<Message>, i: nat)
    requires i < |ms| && IsAnswered(ms, i) && tail != [] && tail[0].role != ToolRole
    ensures IsAnswered(ms + tail, i)
  {
    var all := ms + tail;
    assert all[|ms|] == tail[0] && all[i] == ms[i];
    forall j | 0 <= j < |ms[i].toolCalls|
      ensures IsReply(all[i + 1 + j], ms[i].toolCalls[j])
    {
      assert IsReply(ms[i + 1 + j], ms[i].toolCalls[j]);
      assert all[i + 1 + j] == ms[i + 1 + j];
    }
  }

  lemma RequestAnswered(ms: seq<Message>, request: Message, replies: seq<Message>)
    requires AreReplies(replies, request.toolCalls)
    ensures IsAnswered(ms + ([request] + replies), |ms|)
  {
    var all := ms + ([request] + replies);
    var i := |ms|;
    assert all[i] == request;
    forall j | 0 <= j < |request.toolCalls| ensures IsReply(all[i + 1 + j], request.toolCalls[j]) {
      assert all[i + 1 + j] == replies[j];
    }
  }

  lemma {:induction false} RoundsAreTranscript(x: Executor, rounds: seq<Round>)
    ensures IsTranscript(Said(x, rounds)) && ToolMessages(Said(x, rounds)) == CallsIn(rounds)
  {
    if rounds != [] {
      var front, r := rounds[..|rounds| - 1], rounds[|rounds| - 1];
      RoundsAreTranscript(x, front);
      hide IsTranscript, ToolMessages;
      TranscriptExtends(x, Said(x, front), CallsIn(front), r.content, r.calls);
    }
  }

  /** Whatever the model and the tools do, the result extends the input by a transcript in which every request is
      answered in full; the tool calls counted are the tool messages appended; the iterations respect the bound; and the
      budget is exhausted exactly when every permitted round asked for tools. */
  lemma LoopMeaning(llm: Llm, x: Executor, input: seq<Message>, maxIterations: nat, r: LoopResult)
    requires maxIterations >= 1 && Ended(llm, x, input, maxIterations, Rounds(llm, x, input, [], maxIterations), r)
    ensures input <= r.messages && IsTranscript(r.messages[|input|..])
    ensures r.toolCallsMade == ToolMessages(r.messages[|input|..])
    ensures 1 <= r.iterations <= maxIterations
    ensures r.budgetExhausted <==> |Rounds(llm, x, input, [], maxIterations)| == maxIterations
  {
    RoundsMeaning(llm, x, input, [], maxIterations);
    hide Happened, IsTranscript, ToolMessages, Rounds, Ended;
    LoopShape(llm, x, input, maxIterations, Rounds(llm, x, input, [], maxIterations), r);
  }

  lemma LoopShape(llm: Llm, x: Executor, input: seq<Message>, maxIterations: nat, rounds: seq<Round>, r: LoopResult)
    requires maxIterations >= 1 && |rounds| <= maxIterations && Ended(llm, x, input, maxIterations, rounds, r)
    ensures input <= r.messages && IsTranscript(r.messages[|input|..])
    ensures r.toolCallsMade == ToolMessages(r.messages[|input|..])
    ensures 1 <= r.iterations <= maxIterations
    ensures r.budgetExhausted <==> |rounds| == maxIterations
  {
    hide Strip, IsTranscript, ToolMessages, Rounds, CallsIn, PromptTokens, CompletionTokens;
    RoundsAreTranscript(x, rounds);
    var said, tail := Said(x, rounds), r.messages[|input|..];
    if tail != said {
      var final := tail[|tail| - 1];
      TranscriptExtends(x, said, 0, final.content, []);
      assert tail == said + ([final] + x.Replies(0, []));
    }
  }
}
