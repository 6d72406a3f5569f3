/** What a run of the agent loop is, read off its messages (core/agent_loop.py, core/tools.py). */
module AgentStory {
  import opened Wrappers
  import opened Sequences
  import opened Text
  import opened AgentLoop

  /** The text a call comes to, the n-th made: the tool's result, or what went wrong as an error object. */
  ghost predicate IsToolText(x: Executor, n: nat, call: ToolCall, text: string) {
    if call.name !in x.tools then text == x.errorJson("Unknown tool: " + call.name)
    else
      match x.tools[call.name].invoke(n, call.args)
      case Result(result) => text == result
      case BadJson(detail) => text == x.errorJson("Invalid arguments JSON: " + detail)
      case BadArguments(detail) => text == x.errorJson("Invalid arguments: " + detail)
      case Raised(detail) => text == x.errorJson("Tool execution failed: " + detail)
  }

  /** How many of the messages the model said. */
  function Sayings(ms: seq<Message>): nat {
    if ms == [] then 0 else Sayings(ms[..|ms| - 1]) + if ms[|ms| - 1].role == Assistant then 1 else 0
  }

  /** A message is what the model said when it was asked with everything before it, in the call of that number. */
  ghost predicate IsSaidAfter(llm: Llm, input: seq<Message>, before: seq<Message>, m: Message) {
    var reply := llm(Sayings(before) + 1, input + before);
    && reply.Some? && reply.value.choice == Some(Choice(m.content, m.toolCalls))
    && m == Message(Assistant, m.content, m.toolCalls, "")
  }

  ghost predicate IsSaying(llm: Llm, input: seq<Message>, ms: seq<Message>, i: nat)
    requires i < |ms|
  {
    IsSaidAfter(llm, input, ms[..i], ms[i])
  }

  /** Message i replies to a call of an earlier message of the model, with what that call came to; the calls are
      numbered in the order of the replies. */
  ghost predicate IsToolReply(x: Executor, ms: seq<Message>, i: nat)
    requires i < |ms|
  {
    exists a: nat :: RepliesTo(x, ms, i, a)
  }

  ghost predicate RepliesTo(x: Executor, ms: seq<Message>, i: nat, a: nat)
    requires i < |ms|
  {
    && a < i && ms[a].role == Assistant && i - a - 1 < |ms[a].toolCalls|
    && var call := ms[a].toolCalls[i - a - 1];
       && ms[i] == Message(ToolRole, ms[i].content, [], call.id)
       && IsToolText(x, ToolMessages(ms[..i]), call, ms[i].content)
  }

  /** The messages a run appends to its input: each is said by the model or replies to one of its calls. */
  ghost predicate IsStory(llm: Llm, x: Executor, input: seq<Message>, ms: seq<Message>) {
    forall i | 0 <= i < |ms| :: if ms[i].role == Assistant then IsSaying(llm, input, ms, i) else IsToolReply(x, ms, i)
  }

  /** The tokens of the calls in which the model said the messages. */
  function Usage(llm: Llm, input: seq<Message>, ms: seq<Message>, count: Response -> nat): nat {
    if ms == [] then 0
    else
      var front := ms[..|ms| - 1];
      var reply := llm(Sayings(front) + 1, input + front);
      Usage(llm, input, front, count) +
      if ms[|ms| - 1].role == Assistant && reply.Some? then count(reply.value) else 0
  }

  lemma RunOneIs(x: Executor, n: nat, call: ToolCall)
    ensures IsToolText(x, n, call, x.RunOne(n, call.name, call.args))
  {
  }

  // ---- one more round ----

  lemma {:induction false} SayingsAppend(a: seq<Message>, b: seq<Message>)
    ensures Sayings(a + b) == Sayings(a) + Sayings(b)
  {
    if b == [] {
      assert a + b == a;
    } else {
      SayingsAppend(a, b[..|b| - 1]);
      assert (a + b)[..|a + b| - 1] == a + b[..|b| - 1];
    }
  }

  /** What was said stays said when more follows. */
  lemma StoryStays(llm: Llm, x: Executor, input: seq<Message>, ms: seq<Message>, more: seq<Message>, i: nat)
    requires i < |ms| && if ms[i].role == Assistant then IsSaying(llm, input, ms, i) else IsToolReply(x, ms, i)
    ensures if ms[i].role == Assistant then IsSaying(llm, input, ms + more, i) else IsToolReply(x, ms + more, i)
  {
    var all := ms + more;
    assert all[i] == ms[i] && all[..i] == ms[..i];
    if ms[i].role != Assistant {
      var a: nat :| RepliesTo(x, ms, i, a);
      assert all[a] == ms[a];
      assert RepliesTo(x, all, i, a);
    }
  }

  /** The model says something more. */
  lemma OneSaying(llm: Llm, x: Executor, input: seq<Message>, ms: seq<Message>, reply: Response, said: Choice,
                  count: Response -> nat)
    requires IsStory(llm, x, input, ms)
    requires llm(Sayings(ms) + 1, input + ms) == Some(reply) && reply.choice == Some(said)
    ensures var all := ms + [AssistantSays(said.content, said.toolCalls)];
            && IsStory(llm, x, input, all) && Sayings(all) == Sayings(ms) + 1 && ToolMessages(all) == ToolMessages(ms)
            && Usage(llm, input, all, count) == Usage(llm, input, ms, count) + count(reply)
  {
    hide IsSaying, IsToolReply;
    var m := AssistantSays(said.content, said.toolCalls);
    var all := ms + [m];
    assert all[..|ms|] == ms && all[|ms|] == m;
    NewSaying(llm, input, ms, reply, said);
    hide Usage, Sayings, ToolMessages;
    forall i | 0 <= i < |ms| ensures if all[i].role == Assistant then IsSaying(llm, input, all, i)
                                     else IsToolReply(x, all, i) {
      StoryStays(llm, x, input, ms, [m], i);
    }
  }

  lemma NewSaying(llm: Llm, input: seq<Message>, ms: seq<Message>, reply: Response, said: Choice)
    requires llm(Sayings(ms) + 1, input + ms) == Some(reply) && reply.choice == Some(said)
    ensures IsSaying(llm, input, ms + [AssistantSays(said.content, said.toolCalls)], |ms|)
  {
    SaidNow(llm, input, ms, reply, said);
    hide IsSaidAfter;
    var m := AssistantSays(said.content, said.toolCalls);
    var all := ms + [m];
    assert all[..|ms|] == ms && all[|ms|] == m;
  }

  lemma SaidNow(llm: Llm, input: seq<Message>, ms: seq<Message>, reply: Response, said: Choice)
    requires llm(Sayings(ms) + 1, input + ms) == Some(reply) && reply.choice == Some(said)
    ensures IsSaidAfter(llm, input, ms, AssistantSays(said.content, said.toolCalls))
  {
  }

  /** One more of the replies to the last saying. */
  lemma OneReply(llm: Llm, x: Executor, input: seq<Message>, ms: seq<Message>, a: nat, j: nat, count: Response -> nat)
    requires IsStory(llm, x, input, ms) && a + 1 + j == |ms| && ms[a].role == Assistant && j < |ms[a].toolCalls|
    ensures var call := ms[a].toolCalls[j];
            var all := ms + [ToolSays(x.RunOne(ToolMessages(ms), call.name, call.args), call.id)];
            && IsStory(llm, x, input, all) && Sayings(all) == Sayings(ms) && ToolMessages(all) == ToolMessages(ms) + 1
            && Usage(llm, input, all, count) == Usage(llm, input, ms, count)
  {
    hide Executor.RunOne, IsToolText;
    var call := ms[a].toolCalls[j];
    var m := ToolSays(x.RunOne(ToolMessages(ms), call.name, call.args), call.id);
    var all := ms + [m];
    assert all[..|ms|] == ms && all[|ms|] == m && all[a] == ms[a];
    RunOneIs(x, ToolMessages(ms), call);
    assert RepliesTo(x, all, |ms|, a);
    forall i | 0 <= i < |all| ensures if all[i].role == Assistant then IsSaying(llm, input, all, i)
                                      else IsToolReply(x, all, i) {
      if i < |ms| { StoryStays(llm, x, input, ms, [m], i); }
    }
  }

  // ---- the rounds ----

  /** The messages so far, with the numbers that go with them. */
  ghost predicate IsStoryOf(llm: Llm, x: Executor, input: seq<Message>, ms: seq<Message>, sayings: nat, replies: nat,
                            prompt: nat, completion: nat) {
    && IsStory(llm, x, input, ms) && Sayings(ms) == sayings && ToolMessages(ms) == replies
    && Usage(llm, input, ms, PromptOf) == prompt && Usage(llm, input, ms, CompletionOf) == completion
  }

  function PromptOf(r: Response): nat { r.promptTokens }

  function CompletionOf(r: Response): nat { r.completionTokens }

  lemma {:induction false} RepliesStory(llm: Llm, x: Executor, input: seq<Message>, ms: seq<Message>, a: nat,
                                        calls: seq<ToolCall>, sayings: nat, replies: nat, prompt: nat, completion: nat)
    requires IsStoryOf(llm, x, input, ms, sayings, replies, prompt, completion) && a + 1 == |ms|
    requires ms[a].role == Assistant && calls <= ms[a].toolCalls
    ensures IsStoryOf(llm, x, input, ms + x.Replies(replies, calls), sayings, replies + |calls|, prompt, completion)
  {
    hide IsStory, Sayings, ToolMessages, Usage, Executor.RunOne;
    if calls == [] {
      assert ms + x.Replies(replies, calls) == ms;
    } else {
      var front, last := calls[..|calls| - 1], calls[|calls| - 1];
      RepliesStory(llm, x, input, ms, a, front, sayings, replies, prompt, completion);
      var sofar := ms + x.Replies(replies, front);
      assert sofar[a] == ms[a];
      OneReply(llm, x, input, sofar, a, |front|, PromptOf);
      OneReply(llm, x, input, sofar, a, |front|, CompletionOf);
      assert calls == front + [last];
      x.RepliesAppend(replies, front, last);
      Assoc(ms, x.Replies(replies, front), [ToolSays(x.RunOne(replies + |front|, last.name, last.args), last.id)]);
    }
  }

  lemma {:induction false} RoundsStory(llm: Llm, x: Executor, input: seq<Message>, rounds: seq<Round>)
    requires Happened(llm, x, input, rounds)
    ensures IsStoryOf(llm, x, input, Said(x, rounds), |rounds|, CallsIn(rounds), PromptTokens(llm, x, input, rounds),
                      CompletionTokens(llm, x, input, rounds))
  {
    if rounds != [] {
      var front, r := rounds[..|rounds| - 1], rounds[|rounds| - 1];
      RoundsStory(llm, x, input, front);
      hide IsStoryOf, Executor.Replies;
      var ms, m := Said(x, front), AssistantSays(r.content, r.calls);
      RoundSaid(llm, x, input, ms, |front|, CallsIn(front), PromptTokens(llm, x, input, front),
                CompletionTokens(llm, x, input, front), llm(|rounds|, input + ms).value, Choice(r.content, r.calls));
      var replies := x.Replies(CallsIn(front), r.calls);
      hide Said, Happened;
      RepliesStory(llm, x, input, ms + [m], |ms|, r.calls, |rounds|, CallsIn(front),
                   PromptTokens(llm, x, input, rounds), CompletionTokens(llm, x, input, rounds));
      Assoc(ms, [m], replies);
    } else {
      NoStory(llm, x, input);
    }
  }

  lemma NoStory(llm: Llm, x: Executor, input: seq<Message>)
    ensures IsStoryOf(llm, x, input, [], 0, 0, 0, 0)
  {
  }

  lemma RoundSaid(llm: Llm, x: Executor, input: seq<Message>, ms: seq<Message>, sayings: nat, replies: nat,
                  prompt: nat, completion: nat, reply: Response, said: Choice)
    requires IsStoryOf(llm, x, input, ms, sayings, replies, prompt, completion)
    requires llm(sayings + 1, input + ms) == Some(reply) && reply.choice == Some(said)
    ensures IsStoryOf(llm, x, input, ms + [AssistantSays(said.content, said.toolCalls)], sayings + 1, replies,
                      prompt + reply.promptTokens, completion + reply.completionTokens)
  {
    hide IsStory, Sayings, ToolMessages, Usage;
    OneSaying(llm, x, input, ms, reply, said, PromptOf);
    OneSaying(llm, x, input, ms, reply, said, CompletionOf);
  }

  /** Everything the model said asks for tools. */
  ghost predicate AllAsk(ms: seq<Message>) {
    forall i | 0 <= i < |ms| && ms[i].role == Assistant :: ms[i].toolCalls != []
  }

  /** The last thing the model said has been replied to. */
  ghost predicate EndsInReplies(ms: seq<Message>, content: string) {
    && ms != [] && ms[|ms| - 1].role != Assistant && ms[|ms| - 1].toolCalls == []
    && exists a :: 0 <= a < |ms| && ms[a].role == Assistant && ms[a].content == content
                   && forall i | a < i < |ms| :: ms[i].role != Assistant
  }

  lemma {:induction false} RoundsAsk(llm: Llm, x: Executor, input: seq<Message>, rounds: seq<Round>)
    requires Happened(llm, x, input, rounds)
    ensures AllAsk(Said(x, rounds))
    ensures rounds != [] ==> EndsInReplies(Said(x, rounds), rounds[|rounds| - 1].content)
  {
    if rounds != [] {
      var front, r := rounds[..|rounds| - 1], rounds[|rounds| - 1];
      RoundsAsk(llm, x, input, front);
      hide AllAsk, EndsInReplies, Executor.Replies, Executor.RunOne;
      LastRound(Said(x, front), AssistantSays(r.content, r.calls), x.Replies(CallsIn(front), r.calls));
    }
  }

  lemma LastRound(ms: seq<Message>, m: Message, replies: seq<Message>)
    requires AllAsk(ms) && m.role == Assistant && m.toolCalls != [] && replies != []
    requires forall j | 0 <= j < |replies| :: replies[j].role != Assistant && replies[j].toolCalls == []
    ensures AllAsk(ms + ([m] + replies)) && EndsInReplies(ms + ([m] + replies), m.content)
  {
    var all := ms + ([m] + replies);
    assert all[|ms|] == m;
    assert forall i | |ms| < i < |all| :: all[i] == replies[i - |ms| - 1];
  }

  // ---- a run ----

  /** The text is the last thing the model said, stripped. */
  ghost predicate EndsOn(ms: seq<Message>, text: string) {
    exists a :: 0 <= a < |ms| && ms[a].role == Assistant && text == Strip(ms[a].content)
                && forall i | a < i < |ms| :: ms[i].role != Assistant
  }

  /** A run that the bound cut off after the replies to the last request. */
  ghost predicate RanOut(llm: Llm, input: seq<Message>, ms: seq<Message>, maxIterations: nat, r: LoopResult) {
    && r.iterations == Sayings(ms) == maxIterations && EndsOn(ms, r.text)
    && ms != [] && ms[|ms| - 1].role != Assistant && AllAsk(ms)
    && r.promptTokens == Usage(llm, input, ms, PromptOf) && r.completionTokens == Usage(llm, input, ms, CompletionOf)
  }

  /** A run that the model ended with a text, the only message that asks for no tools. */
  ghost predicate Answered(llm: Llm, input: seq<Message>, ms: seq<Message>, maxIterations: nat, r: LoopResult) {
    && r.iterations == Sayings(ms) <= maxIterations && EndsOn(ms, r.text)
    && ms != [] && ms[|ms| - 1].role == Assistant && ms[|ms| - 1].toolCalls == [] && AllAsk(ms[..|ms| - 1])
    && r.promptTokens == Usage(llm, input, ms, PromptOf) && r.completionTokens == Usage(llm, input, ms, CompletionOf)
  }

  /** A run whose last call brought no message. */
  ghost predicate FellSilent(llm: Llm, input: seq<Message>, ms: seq<Message>, maxIterations: nat, r: LoopResult) {
    && r.iterations == Sayings(ms) + 1 <= maxIterations && r.text == "" && AllAsk(ms)
    && var last := llm(r.iterations, r.messages);
       && last.Some? && last.value.choice.None?
       && r.promptTokens == Usage(llm, input, ms, PromptOf) + last.value.promptTokens
       && r.completionTokens == Usage(llm, input, ms, CompletionOf) + last.value.completionTokens
  }

  /** A run, told by its messages: what it appends to its input is said by the model, asked in turn with everything
      before it, or replies to the model's calls with what they came to; the model goes on as long as it asks for tools
      and the bound allows; the text is the last thing it said; and the counts and tokens are those of the story. */
  lemma LoopStory(llm: Llm, x: Executor, input: seq<Message>, maxIterations: nat, r: LoopResult)
    requires maxIterations >= 1 && Ended(llm, x, input, maxIterations, Rounds(llm, x, input, [], maxIterations), r)
    ensures input <= r.messages
    ensures var ms := r.messages[|input|..];
            && IsStory(llm, x, input, ms) && r.toolCallsMade == ToolMessages(ms)
            && if r.budgetExhausted then RanOut(llm, input, ms, maxIterations, r)
               else Answered(llm, input, ms, maxIterations, r) || FellSilent(llm, input, ms, maxIterations, r)
  {
    var rounds := Rounds(llm, x, input, [], maxIterations);
    RoundsMeaning(llm, x, input, [], maxIterations);
    hide *;
    RoundsStory(llm, x, input, rounds);
    RoundsAsk(llm, x, input, rounds);
    RunStory(llm, x, input, maxIterations, rounds, Said(x, rounds), r);
  }

  lemma RunStory(llm: Llm, x: Executor, input: seq<Message>, maxIterations: nat, rounds: seq<Round>,
                 said: seq<Message>, r: LoopResult)
    requires Ended(llm, x, input, maxIterations, rounds, r) && |rounds| <= maxIterations && said == Said(x, rounds)
    requires IsStoryOf(llm, x, input, said, |rounds|, CallsIn(rounds), PromptTokens(llm, x, input, rounds),
                       CompletionTokens(llm, x, input, rounds))
    requires AllAsk(said) && (rounds != [] ==> EndsInReplies(said, rounds[|rounds| - 1].content))
    ensures input <= r.messages
    ensures var ms := r.messages[|input|..];
            && IsStory(llm, x, input, ms) && r.toolCallsMade == ToolMessages(ms)
            && if r.budgetExhausted then RanOut(llm, input, ms, maxIterations, r)
               else Answered(llm, input, ms, maxIterations, r) || FellSilent(llm, input, ms, maxIterations, r)
  {
    hide Strip, IsStory, Sayings, ToolMessages, Usage, Said, PromptTokens, CompletionTokens, CallsIn, AllAsk;
    assert (input + said)[|input|..] == said;
    var reply := llm(|rounds| + 1, input + said);
    if !r.budgetExhausted && reply.value.choice.Some? {
      var c := reply.value.choice.value;
      var m := AssistantSays(c.content, []);
      Assoc(input, said, [m]);
      assert (input + (said + [m]))[|input|..] == said + [m];
      hide EndsInReplies;
      RoundSaid(llm, x, input, said, |rounds|, CallsIn(rounds), PromptTokens(llm, x, input, rounds),
                CompletionTokens(llm, x, input, rounds), reply.value, c);
      var ms := said + [m];
      assert ms[..|ms| - 1] == said && ms[|said|] == m;
      assert EndsOn(ms, r.text);
    }
  }
}
