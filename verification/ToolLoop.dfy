/** The blocking turn loop, `_run_tool_loop` of backend/src/ai/orchestrator.py. */
module ToolLoop {
  import opened Prelude
  import opened AiMessages
  import opened FallbackProviders

  const MAX_TOOL_ROUNDS := 5
  const MAX_TOOL_ROUNDS_CEILING := 15

  /** _resolve_max_tool_rounds, from the persona's own setting if it has one. */
  function ResolveMaxToolRounds(ownRounds: Option<int>): (rounds: int)
    ensures rounds <= MAX_TOOL_ROUNDS_CEILING
    ensures ownRounds in {None, Some(0)} ==> rounds == 5
    ensures ownRounds.Some? && ownRounds.value > MAX_TOOL_ROUNDS_CEILING ==> rounds == 15
    ensures ownRounds.Some? && ownRounds.value < 0 ==> Rounds(rounds) == 0
    ensures ownRounds.Some? && 1 <= ownRounds.value <= MAX_TOOL_ROUNDS_CEILING ==> rounds == ownRounds.value
  {
    if ownRounds.Some? && ownRounds.value != 0 then
      if ownRounds.value < MAX_TOOL_ROUNDS_CEILING then ownRounds.value else MAX_TOOL_ROUNDS_CEILING
    else MAX_TOOL_ROUNDS
  }

  /** range(n): no rounds for a negative bound. */
  function Rounds(bound: int): nat {
    if bound < 0 then 0 else bound
  }

  /** What stays the same over a turn; `exhausted` is the text sent when the tool
      budget has run out. */
  datatype Prompt = Prompt(
    system: Option<string>, systemContext: Option<string>, tools: seq<string>, exhausted: string)

  /** The environment answers the n-th tool call of the turn as it likes. */
  type ToolModel = (nat, ToolCall) -> (string, bool)

  datatype Env = Env(prompt: Prompt, models: Models, chat: ChatModel, stream: StreamModel, tools: ToolModel)

  /** How far a turn has come: the requests it asked of its provider, the tool calls
      it ran and the usage reported to it. */
  datatype Turn = Turn(
    history: seq<Message>, provider: Progress, asked: seq<Request>, executed: seq<ToolCall>, reported: seq<Usage>)

  function Begun(history: seq<Message>): Turn {
    Turn(history, UNUSED, [], [], [])
  }

  function RequestFor(env: Env, history: seq<Message>, tools: seq<string>): Request {
    Request(history, env.models.primary, env.prompt.system, env.prompt.systemContext, tools)
  }

  predicate WantsTools(stopReason: Option<string>, calls: Option<seq<ToolCall>>) {
    stopReason == Some("tool_use") && calls.Some? && calls.value != []
  }

  function ResultOf(tools: ToolModel, n: nat, call: ToolCall): ToolResult {
    var (content, isError) := tools(n, call);
    ToolResult(call.id, content, isError)
  }

  function ResultsOf(tools: ToolModel, n: nat, calls: seq<ToolCall>): (results: seq<ToolResult>)
    ensures |results| == |calls|
    ensures forall i :: 0 <= i < |calls| ==> results[i] == ResultOf(tools, n + i, calls[i])
  {
    if calls == [] then [] else ResultsOf(tools, n, calls[..|calls| - 1]) + [ResultOf(tools, n + |calls| - 1, calls[|calls| - 1])]
  }

  function AssistantMessage(content: string, calls: seq<ToolCall>): Message {
    Message(Assistant, content, Some(calls), None)
  }

  function ResultsMessage(results: seq<ToolResult>): Message {
    Message(User, "", None, Some(results))
  }

  function ExhaustedMessage(env: Env): Message {
    Message(User, env.prompt.exhausted, None, None)
  }

  function Asked(t: Turn, r: Request, provider: Progress): Turn {
    t.(asked := t.asked + [r], provider := provider)
  }

  function Reported(t: Turn, usage: Usage): Turn {
    t.(reported := t.reported + [usage])
  }

  /** The assistant's tool calls, run in order and answered in one message. */
  function ToolsRun(env: Env, t: Turn, content: string, calls: seq<ToolCall>): Turn {
    t.(history := t.history + [AssistantMessage(content, calls), ResultsMessage(ResultsOf(env.tools, |t.executed|, calls))],
       executed := t.executed + calls)
  }

  datatype Run = Run(turn: Turn, response: Option<Response>)

  function RunFrom(env: Env, t: Turn, rounds: nat): Run
    decreases rounds
  {
    var history := if rounds == 0 then t.history + [ExhaustedMessage(env)] else t.history;
    var request := RequestFor(env, history, if rounds == 0 then [] else env.prompt.tools);
    var (outcome, provider) := ChatVia(env.chat, env.models, t.provider, request);
    var t := Asked(t.(history := history), request, provider);
    match outcome
    case Failure(_) => Run(t, None)
    case Answer(response) =>
      var t := Reported(t, response.usage);
      if rounds == 0 || !WantsTools(response.stopReason, response.toolCalls) then Run(t, Some(response))
      else RunFrom(env, ToolsRun(env, t, response.content, response.toolCalls.value), rounds - 1)
  }

  class ToolBox {
    const tools: ToolModel
    var executed: seq<ToolCall>

    constructor (tools: ToolModel)
      ensures this.tools == tools && executed == []
    {
      this.tools, executed := tools, [];
    }

    method Execute(call: ToolCall) returns (result: ToolResult)
      modifies this
      ensures executed == old(executed) + [call]
      ensures result == ResultOf(tools, old(|executed|), call)
    {
      var (content, isError) := tools(|executed|, call);
      executed := executed + [call];
      result := ToolResult(call.id, content, isError);
    }
  }

  method ExecuteAll(toolbox: ToolBox, calls: seq<ToolCall>) returns (results: seq<ToolResult>)
    modifies toolbox
    ensures toolbox.executed == old(toolbox.executed) + calls
    ensures results == ResultsOf(toolbox.tools, old(|toolbox.executed|), calls)
  {
    results := [];
    for i := 0 to |calls|
      invariant toolbox.executed == old(toolbox.executed) + calls[..i]
      invariant results == ResultsOf(toolbox.tools, old(|toolbox.executed|), calls[..i])
    {
      var result := toolbox.Execute(calls[i]);
      results := results + [result];
      assert calls[..i + 1][..i] == calls[..i];
    }
    assert calls[..|calls|] == calls;
  }

  /** Totals, the answer if no call raised, and the history as the loop leaves it. */
  method RunToolLoop(env: Env, provider: FallbackProvider, toolbox: ToolBox, history: seq<Message>, maxRounds: int)
    returns (response: Option<Response>, usage: Usage, messages: seq<Message>, ghost run: Run)
    requires provider.chat == env.chat && provider.models == env.models && provider.Now() == UNUSED
    requires toolbox.tools == env.tools && toolbox.executed == []
    modifies provider, toolbox
    ensures run == RunFrom(env, Begun(history), Rounds(maxRounds))
    ensures response == run.response && usage == Sum(run.turn.reported) && messages == run.turn.history
    ensures provider.Now() == run.turn.provider && toolbox.executed == run.turn.executed
  {
    hide RunFrom, ChatVia;
    messages, usage, response := history, NO_USAGE, None;
    ghost var turn := Begun(history);
    run := RunFrom(env, turn, Rounds(maxRounds));
    var round := 0;
    while round < maxRounds
      invariant 0 <= round <= Rounds(maxRounds)
      invariant run == RunFrom(env, turn, Rounds(maxRounds) - round)
      invariant messages == turn.history && usage == Sum(turn.reported)
      invariant provider.Now() == turn.provider && toolbox.executed == turn.executed
    {
      RunStep(env, turn, Rounds(maxRounds) - round);
      var request := RequestFor(env, messages, env.prompt.tools);
      var outcome := provider.Chat(request);
      turn := Asked(turn, request, provider.Now());
      if outcome.Failure? { return None, usage, messages, run; }
      response := Some(outcome.response);
      usage := usage.Plus(outcome.response.usage);
      turn := Reported(turn, outcome.response.usage);
      if !WantsTools(outcome.response.stopReason, outcome.response.toolCalls) { return; }
      var calls := outcome.response.toolCalls.value;
      messages := messages + [AssistantMessage(outcome.response.content, calls)];
      var results := ExecuteAll(toolbox, calls);
      messages := messages + [ResultsMessage(results)];
      turn := ToolsRun(env, turn, outcome.response.content, calls);
      round := round + 1;
    }
    RunStep(env, turn, 0);
    messages := messages + [ExhaustedMessage(env)];
    var request := RequestFor(env, messages, []);
    var outcome := provider.Chat(request);
    response := None;
    if outcome.Answer? {
      response := Some(outcome.response);
      usage := usage.Plus(outcome.response.usage);
    }
  }

  lemma RunStep(env: Env, t: Turn, rounds: nat)
    ensures
      var history := if rounds == 0 then t.history + [ExhaustedMessage(env)] else t.history;
      var request := RequestFor(env, history, if rounds == 0 then [] else env.prompt.tools);
      var (outcome, provider) := ChatVia(env.chat, env.models, t.provider, request);
      var asked := Asked(t.(history := history), request, provider);
      RunFrom(env, t, rounds) ==
        if outcome.Failure? then Run(asked, None)
        else
          var answered := Reported(asked, outcome.response.usage);
          if rounds == 0 || !WantsTools(outcome.response.stopReason, outcome.response.toolCalls)
          then Run(answered, Some(outcome.response))
          else RunFrom(env, ToolsRun(env, answered, outcome.response.content, outcome.response.toolCalls.value), rounds - 1)
  {
  }
}
