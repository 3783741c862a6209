/** The streaming turn, `_stream_turn` of backend/src/ai/orchestrator.py: the same loop
    over streams, stoppable at any event it yields, and the usage row it leaves behind. */
module StreamedTurn {
  import opened Prelude
  import opened AiMessages
  import opened FallbackProviders
  import opened ToolLoop

  /** The client closes the stream when it has taken event number `n`; or never does. */
  type CloseAt = Option<nat>

  // -------------------------------------------------------------- one provider stream

  /** What the inner loop has taken from a stream: the text, the message_stop events,
      how many events the turn has yielded, and whether the client closed it there. */
  datatype Taken = Taken(text: string, stops: seq<Stop>, yielded: nat, closed: bool)

  function TakeOne(event: StreamEvent, closeAt: CloseAt, taken: Taken): Taken {
    if event.MessageStop? then taken.(stops := taken.stops + [event.stop])
    else Taken(taken.text + event.text, taken.stops, taken.yielded + 1, closeAt == Some(taken.yielded))
  }

  function Take(events: seq<StreamEvent>, closeAt: CloseAt, taken: Taken): Taken
    decreases |events|
  {
    if events == [] || taken.closed then taken else Take(events[1..], closeAt, TakeOne(events[0], closeAt, taken))
  }

  function Nothing(yielded: nat): Taken {
    Taken("", [], yielded, false)
  }

  /** The stream did not reach its end: the client closed it or the provider failed. */
  predicate CutOff(taken: Taken, stream: Stream) {
    taken.closed || stream.failure.Some?
  }

  /** What the last message_stop of a round said; nothing if there was none. */
  function LastStop(stops: seq<Stop>): Stop {
    if stops == [] then Stop(None, None, None) else stops[|stops| - 1]
  }

  function UsageOf(stop: Stop): seq<Usage> {
    if stop.usage.Some? then [stop.usage.value] else []
  }

  function UsagesOf(stops: seq<Stop>): seq<Usage> {
    if stops == [] then [] else UsagesOf(stops[..|stops| - 1]) + UsageOf(stops[|stops| - 1])
  }

  // ------------------------------------------------------------------ the whole turn

  /** How the turn ended: it completed, or it was cut off, perhaps in the middle of a
      provider stream that had shown some text so far. */
  datatype Ending = Completed | CutBetween | CutDuring(text: string)

  datatype Streamed = Streamed(turn: Turn, yielded: nat, ending: Ending)

  /** How many of the calls have run when the client closes the stream, if it does. */
  function RunBeforeClose(calls: nat, yielded: nat, closeAt: CloseAt): (n: nat)
    ensures n <= calls
  {
    if closeAt.Some? && yielded <= closeAt.value < yielded + calls then closeAt.value - yielded + 1 else calls
  }

  predicate ClosedWithin(calls: nat, yielded: nat, closeAt: CloseAt) {
    closeAt.Some? && yielded <= closeAt.value < yielded + calls
  }

  /** The client leaves while tool results are still being gathered. */
  function ToolsCut(t: Turn, content: string, calls: seq<ToolCall>, ran: nat): Turn
    requires ran <= |calls|
  {
    t.(history := t.history + [AssistantMessage(content, calls)], executed := t.executed + calls[..ran])
  }

  /** One round of the loop ends the turn or leaves it ready for the next. */
  datatype Step = Next(turn: Turn, yielded: nat) | Over(streamed: Streamed)

  function OneRound(env: Env, t: Turn, yielded: nat, enableTools: bool, closeAt: CloseAt): Step {
    var request := RequestFor(env, t.history, env.prompt.tools);
    var (stream, provider) := StreamVia(env.stream, env.models, t.provider, request);
    var taken := Take(stream.events, closeAt, Nothing(yielded));
    AfterStream(env, Asked(t, request, provider), taken, CutOff(taken, stream), enableTools, closeAt)
  }

  function AfterStream(env: Env, asked: Turn, taken: Taken, cut: bool, enableTools: bool, closeAt: CloseAt): Step {
    if cut then Over(Streamed(asked, taken.yielded, CutDuring(taken.text)))
    else
      var stop := LastStop(taken.stops);
      var answered := asked.(reported := asked.reported + UsageOf(stop));
      if !enableTools || !WantsTools(stop.stopReason, stop.toolCalls) then
        Over(Streamed(answered, taken.yielded, Completed))
      else
        AfterTools(env, answered, taken, stop.toolCalls.value, closeAt)
  }

  function AfterTools(env: Env, answered: Turn, taken: Taken, calls: seq<ToolCall>, closeAt: CloseAt): Step {
    var ran := RunBeforeClose(|calls|, taken.yielded, closeAt);
    if ClosedWithin(|calls|, taken.yielded, closeAt) then
      Over(Streamed(ToolsCut(answered, taken.text, calls, ran), taken.yielded + ran, CutBetween))
    else Next(ToolsRun(env, answered, taken.text, calls), taken.yielded + |calls|)
  }

  /** The call without tools when the budget has run out; it adds up usage as it arrives. */
  function LastRound(env: Env, t: Turn, yielded: nat, closeAt: CloseAt): Streamed {
    var history := t.history + [ExhaustedMessage(env)];
    var request := RequestFor(env, history, []);
    var (stream, provider) := StreamVia(env.stream, env.models, t.provider, request);
    var taken := Take(stream.events, closeAt, Nothing(yielded));
    var asked := Asked(t.(history := history), request, provider);
    Streamed(asked.(reported := asked.reported + UsagesOf(taken.stops)), taken.yielded,
             if CutOff(taken, stream) then CutDuring(taken.text) else Completed)
  }

  function StreamFrom(env: Env, t: Turn, yielded: nat, rounds: nat, enableTools: bool, closeAt: CloseAt): Streamed
    decreases rounds
  {
    if rounds == 0 then LastRound(env, t, yielded, closeAt)
    else
      match OneRound(env, t, yielded, enableTools, closeAt)
      case Over(streamed) => streamed
      case Next(turn, yielded) => StreamFrom(env, turn, yielded, rounds - 1, enableTools, closeAt)
  }

  // --------------------------------------------------------------------- what it costs

  datatype UsageRow = UsageRow(model: string, usage: Usage)

  /** _estimate_tokens. */
  function EstimateTokens(text: string): nat {
    if text == "" then 0 else |text| / 4 + 1
  }

  function Contents(history: seq<Message>): string {
    if history == [] then "" else history[0].content + Contents(history[1..])
  }

  /** The prompt of a round that was cut off: as large as the last one reported, or
      guessed from everything that was sent. */
  function EstimatedPrompt(env: Env, t: Turn): nat {
    if t.reported != [] then t.reported[|t.reported| - 1].Prompt()
    else EstimateTokens(env.prompt.system.GetOr("") + env.prompt.systemContext.GetOr("") + Contents(t.history))
  }

  function Charged(env: Env, s: Streamed): Usage {
    match s.ending
    case CutDuring(text) => Sum(s.turn.reported).Plus(Usage(EstimatedPrompt(env, s.turn), EstimateTokens(text), 0, 0))
    case Completed => Sum(s.turn.reported)
    case CutBetween => Sum(s.turn.reported)
  }

  /** The events yielded before the provider is first asked: start, and route. */
  const OPENING: nat := 2

  predicate ClosedAtOpening(closeAt: CloseAt) {
    closeAt.Some? && closeAt.value < OPENING
  }

  /** The rows a streamed turn writes: none if the client left before the provider was
      asked, else exactly one, however it ends. */
  function RowsOf(env: Env, history: seq<Message>, bound: int, enableTools: bool, closeAt: CloseAt): seq<UsageRow> {
    if ClosedAtOpening(closeAt) then []
    else
      var s := StreamFrom(env, Begun(history), OPENING, Rounds(bound), enableTools, closeAt);
      [UsageRow(ModelInUse(env.models, s.turn.provider), Charged(env, s))]
  }

  // ---------------------------------------------------------------------- the method

  /** The local variables of `_stream_turn`, and the turn they stand for. */
  class LiveTurn {
    const env: Env
    const enableTools: bool
    const closeAt: CloseAt
    const provider: FallbackProvider
    const toolbox: ToolBox
    ghost var turn: Turn
    var messages: seq<Message>
    var totals: Usage
    var lastUsage: Option<Usage>
    var yielded: nat
    var inFlightText: string
    var roundInFlight: bool
    var completed: bool

    ghost predicate Valid()
      reads this, provider, toolbox
    {
      && provider.stream == env.stream && provider.models == env.models && toolbox.tools == env.tools
      && provider.Now() == turn.provider && toolbox.executed == turn.executed && messages == turn.history
      && Tracks(turn.reported, totals, lastUsage)
    }

    constructor (env: Env, provider: FallbackProvider, toolbox: ToolBox, history: seq<Message>, enableTools: bool, closeAt: CloseAt)
      requires provider.stream == env.stream && provider.models == env.models && provider.Now() == UNUSED
      requires toolbox.tools == env.tools && toolbox.executed == []
      ensures Valid() && turn == Begun(history) && yielded == OPENING && !roundInFlight && !completed
      ensures this.env == env && this.enableTools == enableTools && this.closeAt == closeAt
      ensures this.provider == provider && this.toolbox == toolbox
    {
      this.env, this.enableTools, this.closeAt := env, enableTools, closeAt;
      this.provider, this.toolbox := provider, toolbox;
      turn, messages, totals, lastUsage := Begun(history), history, NO_USAGE, None;
      yielded, inFlightText, roundInFlight, completed := OPENING, "", false, false;
    }

    /** The fields say how the turn ended. */
    ghost predicate EndedAs(s: Streamed)
      reads this
    {
      && turn == s.turn && completed == s.ending.Completed?
      && (roundInFlight <==> s.ending.CutDuring?)
      && (roundInFlight ==> inFlightText == s.ending.text)
    }

    /** The inner loop over one provider stream. */
    method Consume(stream: Stream) returns (stops: seq<Stop>, closed: bool)
      modifies this`inFlightText, this`yielded
      ensures Taken(inFlightText, stops, yielded, closed) == Take(stream.events, closeAt, Nothing(old(yielded)))
    {
      hide Take;
      inFlightText, stops, closed := "", [], false;
      var i := 0;
      TakeStep(stream.events, 0, closeAt, Nothing(yielded));
      while i < |stream.events| && !closed
        invariant 0 <= i <= |stream.events|
        invariant Take(stream.events[i..], closeAt, Taken(inFlightText, stops, yielded, closed))
          == Take(stream.events, closeAt, Nothing(old(yielded)))
      {
        TakeStep(stream.events, i, closeAt, Taken(inFlightText, stops, yielded, closed));
        var event := stream.events[i];
        if event.TextDelta? {
          inFlightText := inFlightText + event.text;
          closed := closeAt == Some(yielded);
          yielded := yielded + 1;
        } else {
          stops := stops + [event.stop];
        }
        i := i + 1;
      }
      TakeStep(stream.events, i, closeAt, Taken(inFlightText, stops, yielded, closed));
    }

    /** Runs the calls one by one, yielding an event after each. */
    method ExecuteYielding(calls: seq<ToolCall>) returns (results: seq<ToolResult>, closed: bool)
      modifies toolbox, this`yielded
      ensures closed == ClosedWithin(|calls|, old(yielded), closeAt)
      ensures yielded == old(yielded) + RunBeforeClose(|calls|, old(yielded), closeAt)
      ensures toolbox.executed == old(toolbox.executed) + calls[..yielded - old(yielded)]
      ensures results == ResultsOf(toolbox.tools, old(|toolbox.executed|), calls[..yielded - old(yielded)])
    {
      hide ResultOf;
      results, closed := [], false;
      var i := 0;
      while i < |calls| && !closed
        invariant 0 <= i <= |calls| && yielded == old(yielded) + i
        invariant toolbox.executed == old(toolbox.executed) + calls[..i]
        invariant results == ResultsOf(toolbox.tools, old(|toolbox.executed|), calls[..i])
        invariant closed == ClosedWithin(i, old(yielded), closeAt)
        invariant closed ==> closeAt == Some(old(yielded) + i - 1)
      {
        var result := toolbox.Execute(calls[i]);
        ResultsOneMore(toolbox.tools, old(|toolbox.executed|), calls, i);
        results := results + [result];
        closed := closeAt == Some(yielded);
        yielded := yielded + 1;
        i := i + 1;
      }
    }

    method AddUsage(stop: Stop)
      requires Tracks(turn.reported, totals, lastUsage)
      modifies this`totals, this`lastUsage, this`turn
      ensures turn == old(turn).(reported := old(turn.reported) + UsageOf(stop))
      ensures Tracks(turn.reported, totals, lastUsage)
    {
      if stop.usage.Some? {
        SumOneMore(turn.reported, stop.usage.value);
        totals := totals.Plus(stop.usage.value);
        lastUsage := stop.usage;
      } else {
        assert turn.reported + [] == turn.reported;
      }
      turn := turn.(reported := turn.reported + UsageOf(stop));
    }

    method Round() returns (goesOn: bool, ghost step: Step)
      requires Valid() && !roundInFlight && !completed
      modifies this, provider, toolbox
      ensures Valid()
      ensures step == OneRound(env, old(turn), old(yielded), enableTools, closeAt)
      ensures goesOn == step.Next?
      ensures goesOn ==> turn == step.turn && yielded == step.yielded && !roundInFlight && !completed
      ensures step.Over? ==> EndedAs(step.streamed)
    {
      hide Take, StreamVia, Tracks, WantsTools, ResultsOf, RequestFor;
      step := OneRound(env, turn, yielded, enableTools, closeAt);
      var request := RequestFor(env, messages, env.prompt.tools);
      roundInFlight := true;
      var stream := provider.StreamChat(request);
      turn := Asked(turn, request, provider.Now());
      var stops, closed := Consume(stream);
      if closed || stream.failure.Some? { return false, step; }
      roundInFlight := false;
      var stop := LastStop(stops);
      AddUsage(stop);
      if !enableTools || !WantsTools(stop.stopReason, stop.toolCalls) {
        completed := true;
        return false, step;
      }
      goesOn := Tools(stop, step);
    }

    /** The rest of a round in which the model asked for tools. */
    method Tools(stop: Stop, ghost step: Step) returns (goesOn: bool)
      requires Valid() && !roundInFlight && !completed && WantsTools(stop.stopReason, stop.toolCalls)
      requires step == AfterTools(env, turn, Taken(inFlightText, [], yielded, false), stop.toolCalls.value, closeAt)
      modifies this, toolbox
      ensures Valid() && goesOn == step.Next? && !roundInFlight && !completed
      ensures goesOn ==> turn == step.turn && yielded == step.yielded
      ensures step.Over? ==> EndedAs(step.streamed)
    {
      hide Tracks;
      var calls := stop.toolCalls.value;
      messages := messages + [AssistantMessage(inFlightText, calls)];
      ghost var before := yielded;
      var results, closed := ExecuteYielding(calls);
      if closed {
        turn := ToolsCut(turn, inFlightText, calls, yielded - before);
        return false;
      }
      messages := messages + [ResultsMessage(results)];
      assert calls[..|calls|] == calls;
      turn := ToolsRun(env, turn, inFlightText, calls);
      goesOn := true;
    }

    method Last() returns (ghost s: Streamed)
      requires Valid() && !roundInFlight && !completed
      modifies this, provider
      ensures Valid()
      ensures s == LastRound(env, old(turn), old(yielded), closeAt) && EndedAs(s)
    {
      hide Take, StreamVia, Tracks, RequestFor;
      s := LastRound(env, turn, yielded, closeAt);
      messages := messages + [ExhaustedMessage(env)];
      var request := RequestFor(env, messages, []);
      roundInFlight := true;
      var stream := provider.StreamChat(request);
      turn := Asked(turn.(history := messages), request, provider.Now());
      var stops, closed := Consume(stream);
      AddUsages(stops);
      if closed || stream.failure.Some? { return; }
      roundInFlight := false;
      completed := true;
    }

    method AddUsages(stops: seq<Stop>)
      requires Tracks(turn.reported, totals, lastUsage)
      modifies this`totals, this`lastUsage, this`turn
      ensures turn == old(turn).(reported := old(turn.reported) + UsagesOf(stops))
      ensures Tracks(turn.reported, totals, lastUsage)
    {
      for i := 0 to |stops|
        invariant turn == old(turn).(reported := old(turn.reported) + UsagesOf(stops[..i]))
        invariant Tracks(turn.reported, totals, lastUsage)
      {
        assert stops[..i + 1][..i] == stops[..i];
        AddUsage(stops[i]);
      }
      assert stops[..|stops|] == stops;
    }

    method Run(maxRounds: int) returns (rows: seq<UsageRow>, ghost s: Streamed)
      requires Valid() && !roundInFlight && !completed
      modifies this, provider, toolbox
      ensures s == StreamFrom(env, old(turn), old(yielded), Rounds(maxRounds), enableTools, closeAt)
      ensures provider.Now() == s.turn.provider && toolbox.executed == s.turn.executed
      ensures rows == [UsageRow(ModelInUse(env.models, s.turn.provider), Charged(env, s))]
    {
      hide OneRound, LastRound, Tracks, Charged;
      s := StreamFrom(env, turn, yielded, Rounds(maxRounds), enableTools, closeAt);
      var round, goesOn := 0, true;
      while round < maxRounds && goesOn
        invariant Valid() && 0 <= round <= Rounds(maxRounds)
        invariant goesOn ==> s == StreamFrom(env, turn, yielded, Rounds(maxRounds) - round, enableTools, closeAt)
        invariant goesOn ==> !roundInFlight && !completed
        invariant !goesOn ==> EndedAs(s)
      {
        ghost var step;
        goesOn, step := Round();
        round := round + 1;
      }
      if goesOn {
        ghost var last := Last();
      }
      rows := Finish(s);
    }

    /** The finally block: a turn that was cut off is charged all the same. */
    method Finish(ghost s: Streamed) returns (rows: seq<UsageRow>)
      requires Valid() && EndedAs(s)
      modifies this`totals
      ensures rows == [UsageRow(ModelInUse(env.models, s.turn.provider), Charged(env, s))]
    {
      if !completed && roundInFlight {
        var prompt := if lastUsage.Some? then lastUsage.value.Prompt()
          else EstimateTokens(env.prompt.system.GetOr("") + env.prompt.systemContext.GetOr("") + Contents(messages));
        totals := totals.Plus(Usage(prompt, EstimateTokens(inFlightText), 0, 0));
      }
      rows := [UsageRow(provider.ModelUsed(), totals)];
    }
  }

  method StreamTurn(env: Env, provider: FallbackProvider, toolbox: ToolBox, history: seq<Message>, maxRounds: int,
                    enableTools: bool, closeAt: CloseAt) returns (rows: seq<UsageRow>, ghost s: Streamed)
    requires provider.stream == env.stream && provider.models == env.models && provider.Now() == UNUSED
    requires toolbox.tools == env.tools && toolbox.executed == []
    modifies provider, toolbox
    ensures s == StreamFrom(env, Begun(history), OPENING, Rounds(maxRounds), enableTools, closeAt)
    ensures rows == RowsOf(env, history, maxRounds, enableTools, closeAt)
    ensures !ClosedAtOpening(closeAt) ==> provider.Now() == s.turn.provider && toolbox.executed == s.turn.executed
    ensures ClosedAtOpening(closeAt) ==> provider.Now() == UNUSED && toolbox.executed == []
  {
    s := StreamFrom(env, Begun(history), OPENING, Rounds(maxRounds), enableTools, closeAt);
    if ClosedAtOpening(closeAt) { return [], s; }
    var live := new LiveTurn(env, provider, toolbox, history, enableTools, closeAt);
    rows, s := live.Run(maxRounds);
  }

  /** The running figures are those of what was reported. */
  predicate Tracks(reported: seq<Usage>, totals: Usage, lastUsage: Option<Usage>) {
    totals == Sum(reported) && lastUsage == if reported == [] then None else Some(reported[|reported| - 1])
  }

  lemma TakeStep(events: seq<StreamEvent>, i: nat, closeAt: CloseAt, taken: Taken)
    requires i <= |events|
    ensures events[0..] == events
    ensures Take(events[i..], closeAt, taken) ==
      if i == |events| || taken.closed then taken else Take(events[i + 1..], closeAt, TakeOne(events[i], closeAt, taken))
  {
    if i < |events| { assert events[i..][1..] == events[i + 1..]; }
  }

  lemma ResultsOneMore(tools: ToolModel, n: nat, calls: seq<ToolCall>, i: nat)
    requires i < |calls|
    ensures ResultsOf(tools, n, calls[..i + 1]) == ResultsOf(tools, n, calls[..i]) + [ResultOf(tools, n + i, calls[i])]
  {
    assert calls[..i + 1][..i] == calls[..i];
  }
}
