/** What holds of whole chat turns, blocking and streamed. */
module TurnProperties {
  import opened Prelude
  import opened AiMessages
  import opened FallbackProviders
  import opened ToolLoop
  import opened StreamedTurn

  // --------------------------------------------------------- the two loops agree

  function Deltas(events: seq<StreamEvent>): nat {
    if events == [] then 0 else (if events[0].TextDelta? then 1 else 0) + Deltas(events[1..])
  }

  /** A stream that is not closed is taken whole. */
  lemma {:induction false} TakesAll(events: seq<StreamEvent>, closeAt: CloseAt, taken: Taken)
    requires !taken.closed && !Take(events, closeAt, taken).closed
    ensures Take(events, closeAt, taken)
      == Taken(taken.text + Text(events), taken.stops + Stops(events), taken.yielded + Deltas(events), false)
    decreases |events|
  {
    hide Text, Stops, Deltas, TakeOne;
    if events == [] {
      NothingLeft(taken);
    } else {
      FirstTaken(events, closeAt, taken);
      TakesAll(events[1..], closeAt, TakeOne(events[0], closeAt, taken));
    }
  }

  lemma NothingLeft(taken: Taken)
    ensures taken.text + Text([]) == taken.text && taken.stops + Stops([]) == taken.stops && Deltas([]) == 0
  {
  }

  lemma FirstTaken(events: seq<StreamEvent>, closeAt: CloseAt, taken: Taken)
    requires events != []
    ensures var next := TakeOne(events[0], closeAt, taken);
      && next.text + Text(events[1..]) == taken.text + Text(events)
      && next.stops + Stops(events[1..]) == taken.stops + Stops(events)
      && next.yielded + Deltas(events[1..]) == taken.yielded + Deltas(events)
      && (next.closed ==> Take(events[1..], closeAt, next) == next)
  {
    var text, stops := Text(events[1..]), Stops(events[1..]);
    if events[0].TextDelta? {
      assert Text(events) == events[0].text + text && Stops(events) == [] + stops == stops;
      assert (taken.text + events[0].text) + text == taken.text + (events[0].text + text);
    } else {
      assert Text(events) == "" + text == text && Stops(events) == [events[0].stop] + stops;
      assert (taken.stops + [events[0].stop]) + stops == taken.stops + ([events[0].stop] + stops);
    }
  }

  lemma {:induction false} NobodyCloses(events: seq<StreamEvent>, taken: Taken)
    requires !taken.closed
    ensures !Take(events, None, taken).closed
    decreases |events|
  {
    if events != [] { NobodyCloses(events[1..], TakeOne(events[0], None, taken)); }
  }

  lemma {:induction false} TakesNoMoreStops(events: seq<StreamEvent>, closeAt: CloseAt, taken: Taken)
    ensures |Take(events, closeAt, taken).stops| <= |taken.stops| + |Stops(events)|
    decreases |events|
  {
    if events != [] && !taken.closed { TakesNoMoreStops(events[1..], closeAt, TakeOne(events[0], closeAt, taken)); }
  }

  /** For a provider whose streams are its chat answers cut in pieces, the streaming
      turn with tools that nobody closes is the blocking one: the same requests in the
      same order, inner calls and switch included, the same tool calls, history and
      usage; and it is cut short exactly when the blocking one raises. */
  lemma {:induction false} LoopsAgree(env: Env, t: Turn, yielded: nat, rounds: nat)
    requires SameProvider(env.chat, env.stream)
    ensures var r, s := RunFrom(env, t, rounds), StreamFrom(env, t, yielded, rounds, true, None);
      && s.turn == r.turn
      && s.ending == if r.response.Some? then Completed else CutDuring("")
    decreases rounds
  {
    hide ChatVia, StreamVia, Take, Renders, WantsTools, SameProvider, RunFrom, OneRound, LastRound, ToolsRun, Asked, Reported;
    RunStep(env, t, rounds);
    if rounds == 0 {
      LastRoundsAgree(env, t, yielded);
    } else {
      var request := RequestFor(env, t.history, env.prompt.tools);
      var (outcome, provider) := ChatVia(env.chat, env.models, t.provider, request);
      RoundsAgree(env, t, yielded, request);
      if outcome.Answer? && WantsTools(outcome.response.stopReason, outcome.response.toolCalls) {
        var step := OneRound(env, t, yielded, true, None);
        assert step.Next?;
        LoopsAgree(env, step.turn, step.yielded, rounds - 1);
      }
    }
  }

  /** What is taken of a rendered outcome. */
  lemma TakesRendered(stream: Stream, outcome: Outcome, yielded: nat)
    requires Renders(stream, outcome)
    ensures var taken := Take(stream.events, None, Nothing(yielded));
      && CutOff(taken, stream) == outcome.Failure?
      && match outcome
         case Failure(_) => taken.text == "" && taken.stops == []
         case Answer(r) => taken.text == r.content && taken.stops == [Stop(Some(r.usage), r.toolCalls, r.stopReason)]
  {
    hide Take;
    NobodyCloses(stream.events, Nothing(yielded));
    TakesAll(stream.events, None, Nothing(yielded));
    if outcome.Failure? {
      TakeStep(stream.events, 0, None, Nothing(yielded));
    }
  }

  lemma RoundsAgree(env: Env, t: Turn, yielded: nat, request: Request)
    requires SameProvider(env.chat, env.stream) && request == RequestFor(env, t.history, env.prompt.tools)
    ensures
      var (outcome, provider) := ChatVia(env.chat, env.models, t.provider, request);
      var asked, step := Asked(t, request, provider), OneRound(env, t, yielded, true, None);
      match outcome
      case Failure(_) => step.Over? && step.streamed.turn == asked && step.streamed.ending == CutDuring("")
      case Answer(r) =>
        if WantsTools(r.stopReason, r.toolCalls)
        then step.Next? && step.turn == ToolsRun(env, Reported(asked, r.usage), r.content, r.toolCalls.value)
        else step.Over? && step.streamed.turn == Reported(asked, r.usage) && step.streamed.ending == Completed
  {
    hide ChatVia, StreamVia, Take, Renders, SameProvider, ToolsRun;
    var (outcome, provider) := ChatVia(env.chat, env.models, t.provider, request);
    RendersThroughFallback(env.chat, env.stream, env.models, t.provider, request);
    TakesRendered(StreamVia(env.stream, env.models, t.provider, request).0, outcome, yielded);
  }

  lemma LastRoundsAgree(env: Env, t: Turn, yielded: nat)
    requires SameProvider(env.chat, env.stream)
    ensures var r, s := RunFrom(env, t, 0), LastRound(env, t, yielded, None);
      && s.turn == r.turn
      && s.ending == if r.response.Some? then Completed else CutDuring("")
  {
    hide ChatVia, StreamVia, Take, Renders, SameProvider;
    var history := t.history + [ExhaustedMessage(env)];
    var request := RequestFor(env, history, []);
    var (outcome, provider) := ChatVia(env.chat, env.models, t.provider, request);
    RendersThroughFallback(env.chat, env.stream, env.models, t.provider, request);
    TakesRendered(StreamVia(env.stream, env.models, t.provider, request).0, outcome, yielded);
    RunStep(env, t, 0);
    if outcome.Answer? { OneUsage(outcome.response); } else { assert t.reported + [] == t.reported; }
  }

  lemma OneUsage(r: Response)
    ensures UsagesOf([Stop(Some(r.usage), r.toolCalls, r.stopReason)]) == [r.usage]
  {
    var stops := [Stop(Some(r.usage), r.toolCalls, r.stopReason)];
    assert stops[..0] == [] && UsagesOf(stops[..0]) == [];
    assert UsagesOf(stops) == [] + UsageOf(stops[0]);
  }

  /** Without an agent and with enable_tools false the streaming loop stops after one
      round, though it offers tools as the blocking loop does: the two agree exactly
      when the first answer asks for no tool. */
  lemma PlainChatAgreesIff(env: Env, t: Turn, yielded: nat, rounds: nat)
    requires SameProvider(env.chat, env.stream) && rounds >= 1
    ensures var first := ChatVia(env.chat, env.models, t.provider, RequestFor(env, t.history, env.prompt.tools)).0;
      StreamFrom(env, t, yielded, rounds, false, None).turn == RunFrom(env, t, rounds).turn
      <==> !(first.Answer? && WantsTools(first.response.stopReason, first.response.toolCalls))
  {
    hide ChatVia, StreamVia, Take, Renders, SameProvider, RunFrom, WantsTools;
    var request := RequestFor(env, t.history, env.prompt.tools);
    var (outcome, provider) := ChatVia(env.chat, env.models, t.provider, request);
    RendersThroughFallback(env.chat, env.stream, env.models, t.provider, request);
    TakesRendered(StreamVia(env.stream, env.models, t.provider, request).0, outcome, yielded);
    RunStep(env, t, rounds);
    if outcome.Answer? { SomeCalls(outcome.response.stopReason, outcome.response.toolCalls); }
    if outcome.Answer? && WantsTools(outcome.response.stopReason, outcome.response.toolCalls) {
      var next := ToolsRun(env, Reported(Asked(t, request, provider), outcome.response.usage), outcome.response.content, outcome.response.toolCalls.value);
      ExecutedGrows(env, next, rounds - 1);
      assert |next.executed| > |t.executed|;
    }
  }

  lemma {:induction false} ExecutedGrows(env: Env, t: Turn, rounds: nat)
    ensures |RunFrom(env, t, rounds).turn.executed| >= |t.executed|
    decreases rounds
  {
    hide ChatVia, RunFrom, WantsTools;
    RunStep(env, t, rounds);
    var history := if rounds == 0 then t.history + [ExhaustedMessage(env)] else t.history;
    var request := RequestFor(env, history, if rounds == 0 then [] else env.prompt.tools);
    var (outcome, provider) := ChatVia(env.chat, env.models, t.provider, request);
    if rounds > 0 && outcome.Answer? && WantsTools(outcome.response.stopReason, outcome.response.toolCalls) {
      SomeCalls(outcome.response.stopReason, outcome.response.toolCalls);
      ExecutedGrows(env, ToolsRun(env, Reported(Asked(t, request, provider), outcome.response.usage), outcome.response.content, outcome.response.toolCalls.value), rounds - 1);
    }
  }

  // ------------------------------------------------------ leaving changes nothing done

  predicate DoneBy(part: Turn, whole: Turn) {
    part.asked <= whole.asked && part.executed <= whole.executed
  }

  /** Unless the client closes a stream it is taken as if nobody could. */
  lemma OpenTakesSame(events: seq<StreamEvent>, closeAt: CloseAt, yielded: nat)
    requires !Take(events, closeAt, Nothing(yielded)).closed
    ensures Take(events, closeAt, Nothing(yielded)) == Take(events, None, Nothing(yielded))
  {
    hide Take;
    NobodyCloses(events, Nothing(yielded));
    TakesAll(events, closeAt, Nothing(yielded));
    TakesAll(events, None, Nothing(yielded));
  }

  lemma {:induction false} StreamGoesOn(env: Env, t: Turn, yielded: nat, rounds: nat, enableTools: bool)
    ensures DoneBy(t, StreamFrom(env, t, yielded, rounds, enableTools, None).turn)
    decreases rounds
  {
    hide OneRound, DoneBy;
    if rounds == 0 {
      LastRoundGoesOn(env, t, yielded);
    } else {
      RoundGoesOn(env, t, yielded, enableTools);
      var step := OneRound(env, t, yielded, enableTools, None);
      if step.Next? {
        StreamGoesOn(env, step.turn, step.yielded, rounds - 1, enableTools);
        DoneByThen(t, step.turn, StreamFrom(env, step.turn, step.yielded, rounds - 1, enableTools, None).turn);
      }
    }
  }

  lemma DoneByThen(a: Turn, b: Turn, c: Turn)
    requires DoneBy(a, b) && DoneBy(b, c)
    ensures DoneBy(a, c)
  {
  }

  lemma LastRoundGoesOn(env: Env, t: Turn, yielded: nat)
    ensures DoneBy(t, LastRound(env, t, yielded, None).turn)
  {
    hide Take, StreamVia;
  }

  lemma RoundGoesOn(env: Env, t: Turn, yielded: nat, enableTools: bool)
    ensures match OneRound(env, t, yielded, enableTools, None)
      case Next(turn, _) => DoneBy(t, turn)
      case Over(s) => DoneBy(t, s.turn)
  {
    hide Take, StreamVia, WantsTools;
    var (stream, _) := StreamVia(env.stream, env.models, t.provider, RequestFor(env, t.history, env.prompt.tools));
    var stop := LastStop(Take(stream.events, None, Nothing(yielded)).stops);
    SomeCalls(stop.stopReason, stop.toolCalls);
  }

  lemma RoundLeft(env: Env, t: Turn, yielded: nat, enableTools: bool, closeAt: CloseAt)
    ensures var left, whole := OneRound(env, t, yielded, enableTools, closeAt), OneRound(env, t, yielded, enableTools, None);
      || left == whole
      || (left.Over? && !left.streamed.ending.Completed?
          && DoneBy(left.streamed.turn, if whole.Over? then whole.streamed.turn else whole.turn))
  {
    hide Take, StreamVia, WantsTools;
    var (stream, _) := StreamVia(env.stream, env.models, t.provider, RequestFor(env, t.history, env.prompt.tools));
    if !Take(stream.events, closeAt, Nothing(yielded)).closed { OpenTakesSame(stream.events, closeAt, yielded); }
    var stop := LastStop(Take(stream.events, None, Nothing(yielded)).stops);
    SomeCalls(stop.stopReason, stop.toolCalls);
  }

  lemma LastRoundLeft(env: Env, t: Turn, yielded: nat, closeAt: CloseAt)
    ensures var left, whole := LastRound(env, t, yielded, closeAt), LastRound(env, t, yielded, None);
      DoneBy(left.turn, whole.turn) && (left.ending.Completed? ==> left == whole)
  {
    hide Take, StreamVia;
    var request := RequestFor(env, t.history + [ExhaustedMessage(env)], []);
    var (stream, _) := StreamVia(env.stream, env.models, t.provider, request);
    if !Take(stream.events, closeAt, Nothing(yielded)).closed { OpenTakesSame(stream.events, closeAt, yielded); }
  }

  /** Wherever the client leaves, the turn has asked and run a part of what the whole
      turn asks and runs, in the same order; a turn that completes is the whole turn. */
  lemma {:induction false} LeavingCutsShort(env: Env, t: Turn, yielded: nat, rounds: nat, enableTools: bool, closeAt: CloseAt)
    ensures var left, whole := StreamFrom(env, t, yielded, rounds, enableTools, closeAt), StreamFrom(env, t, yielded, rounds, enableTools, None);
      DoneBy(left.turn, whole.turn) && (left.ending.Completed? ==> left == whole)
    decreases rounds
  {
    hide OneRound, LastRound, DoneBy;
    if rounds == 0 {
      LastRoundLeft(env, t, yielded, closeAt);
    } else {
      RoundLeft(env, t, yielded, enableTools, closeAt);
      var left, whole := OneRound(env, t, yielded, enableTools, closeAt), OneRound(env, t, yielded, enableTools, None);
      if left.Next? {
        LeavingCutsShort(env, left.turn, left.yielded, rounds - 1, enableTools, closeAt);
      } else if whole.Next? {
        StreamGoesOn(env, whole.turn, whole.yielded, rounds - 1, enableTools);
        DoneByThen(left.streamed.turn, whole.turn, StreamFrom(env, whole.turn, whole.yielded, rounds - 1, enableTools, None).turn);
      } else {
        AllDone(left.streamed.turn);
      }
    }
  }

  lemma AllDone(t: Turn)
    ensures DoneBy(t, t)
  {
  }

  lemma {:induction false} TakeClosesAt(events: seq<StreamEvent>, n: nat, taken: Taken)
    requires !taken.closed && taken.yielded <= n
    ensures var after := Take(events, Some(n), taken);
      if taken.yielded + Deltas(events) <= n then !after.closed else after.closed && after.yielded == n + 1
    decreases |events|
  {
    if events != [] {
      var next := TakeOne(events[0], Some(n), taken);
      if !next.closed { TakeClosesAt(events[1..], n, next); }
    }
  }

  lemma TakeYields(events: seq<StreamEvent>, yielded: nat)
    ensures Take(events, None, Nothing(yielded)).yielded == yielded + Deltas(events)
  {
    NobodyCloses(events, Nothing(yielded));
    TakesAll(events, None, Nothing(yielded));
  }

  lemma RoundClosesAt(env: Env, t: Turn, yielded: nat, enableTools: bool, n: nat)
    requires yielded <= n
    ensures var left, whole := OneRound(env, t, yielded, enableTools, Some(n)), OneRound(env, t, yielded, enableTools, None);
      var shown := if whole.Next? then whole.yielded else whole.streamed.yielded;
      && shown >= yielded
      && if shown <= n then left == whole
         else left.Over? && left.streamed.yielded == n + 1 && !left.streamed.ending.Completed?
  {
    hide Take, StreamVia, WantsTools, ToolsRun, ToolsCut;
    var (stream, _) := StreamVia(env.stream, env.models, t.provider, RequestFor(env, t.history, env.prompt.tools));
    TakeClosesAt(stream.events, n, Nothing(yielded));
    TakeYields(stream.events, yielded);
    if !Take(stream.events, Some(n), Nothing(yielded)).closed { OpenTakesSame(stream.events, Some(n), yielded); }
    NobodyCloses(stream.events, Nothing(yielded));
    var stop := LastStop(Take(stream.events, None, Nothing(yielded)).stops);
    SomeCalls(stop.stopReason, stop.toolCalls);
  }

  lemma LastRoundClosesAt(env: Env, t: Turn, yielded: nat, n: nat)
    requires yielded <= n
    ensures var left, whole := LastRound(env, t, yielded, Some(n)), LastRound(env, t, yielded, None);
      && whole.yielded >= yielded
      && if whole.yielded <= n then left == whole else left.yielded == n + 1 && !left.ending.Completed?
  {
    hide Take, StreamVia;
    var request := RequestFor(env, t.history + [ExhaustedMessage(env)], []);
    var (stream, _) := StreamVia(env.stream, env.models, t.provider, request);
    TakeClosesAt(stream.events, n, Nothing(yielded));
    TakeYields(stream.events, yielded);
    if !Take(stream.events, Some(n), Nothing(yielded)).closed { OpenTakesSame(stream.events, Some(n), yielded); }
  }

  /** A client that leaves at event n sees n + 1 events of a turn that is cut off there,
      or the whole of a turn that has no event n. */
  lemma {:induction false} LeavingCutsThere(env: Env, t: Turn, yielded: nat, rounds: nat, enableTools: bool, n: nat)
    requires yielded <= n
    ensures var left, whole := StreamFrom(env, t, yielded, rounds, enableTools, Some(n)), StreamFrom(env, t, yielded, rounds, enableTools, None);
      && whole.yielded >= yielded
      && if whole.yielded <= n then left == whole else left.yielded == n + 1 && !left.ending.Completed?
    decreases rounds
  {
    hide OneRound, LastRound;
    if rounds == 0 {
      LastRoundClosesAt(env, t, yielded, n);
    } else {
      RoundClosesAt(env, t, yielded, enableTools, n);
      var whole := OneRound(env, t, yielded, enableTools, None);
      if whole.Next? {
        if whole.yielded <= n { LeavingCutsThere(env, whole.turn, whole.yielded, rounds - 1, enableTools, n); }
        else { LeavingCutsThere(env, whole.turn, whole.yielded, rounds - 1, enableTools, whole.yielded); }
      }
    }
  }

  // ------------------------------------------------ every tool call has its result

  predicate Answers(results: seq<ToolResult>, calls: seq<ToolCall>) {
    |results| == |calls| && forall j :: 0 <= j < |calls| ==> results[j].toolCallId == calls[j].id
  }

  /** Each message with tool calls is followed by its results, id by id, in order. */
  predicate Paired(messages: seq<Message>) {
    forall i {:trigger messages[i]} :: 0 <= i < |messages| && messages[i].toolCalls.Some? ==>
      && i + 1 < |messages| && messages[i + 1].toolResults.Some?
      && Answers(messages[i + 1].toolResults.value, messages[i].toolCalls.value)
  }

  function CallsIn(messages: seq<Message>): seq<ToolCall> {
    if messages == [] then []
    else CallsIn(messages[..|messages| - 1]) + messages[|messages| - 1].toolCalls.GetOr([])
  }

  lemma CallsOneMore(messages: seq<Message>, m: Message)
    ensures CallsIn(messages + [m]) == CallsIn(messages) + m.toolCalls.GetOr([])
  {
    assert (messages + [m])[..|messages|] == messages;
  }

  /** What every turn keeps: requests are paired, the tools that ran are the ones the
      model called, and the provider has switched at most once. */
  ghost predicate Sound(env: Env, start: seq<Message>, t: Turn) {
    && (forall i :: 0 <= i < |t.asked| ==> Paired(t.asked[i].messages))
    && OneSwitch(env.models, t.provider, |t.asked|)
    && CallsIn(start) + t.executed <= CallsIn(t.history)
    && Growing(start, t.history, t.asked)
  }

  /** Every request repeats the one before it and adds to it. */
  ghost predicate Growing(start: seq<Message>, history: seq<Message>, asked: seq<Request>) {
    && start <= history
    && (forall i :: 0 <= i < |asked| ==> start <= asked[i].messages <= history)
    && (forall i, j :: 0 <= i <= j < |asked| ==> asked[i].messages <= asked[j].messages)
  }

  lemma GrowsByAsking(start: seq<Message>, history: seq<Message>, asked: seq<Request>, r: Request)
    requires Growing(start, history, asked) && r.messages == history
    ensures Growing(start, history, asked + [r])
  {
  }

  lemma GrowsByTurning(start: seq<Message>, history: seq<Message>, asked: seq<Request>, longer: seq<Message>)
    requires Growing(start, history, asked) && history <= longer
    ensures Growing(start, longer, asked)
  {
  }

  /** Sound, and ready to ask again. */
  ghost predicate Ready(env: Env, start: seq<Message>, t: Turn) {
    Sound(env, start, t) && Paired(t.history) && CallsIn(t.history) == CallsIn(start) + t.executed
  }

  lemma AskingKeeps(env: Env, start: seq<Message>, t: Turn, tools: seq<string>, after: Progress)
    requires Ready(env, start, t)
    requires Follows(env.models, t.provider, RequestFor(env, t.history, tools), after)
    ensures Ready(env, start, Asked(t, RequestFor(env, t.history, tools), after))
  {
    hide Paired, Follows, OneSwitch, Growing;
    GrowsByAsking(start, t.history, t.asked, RequestFor(env, t.history, tools));
    SwitchesOnce(env.models, t.provider, |t.asked|, RequestFor(env, t.history, tools), after);
  }

  lemma ExhaustedKeeps(env: Env, start: seq<Message>, t: Turn)
    requires Ready(env, start, t)
    ensures Ready(env, start, t.(history := t.history + [ExhaustedMessage(env)]))
  {
    hide OneSwitch, Growing;
    GrowsByTurning(start, t.history, t.asked, t.history + [ExhaustedMessage(env)]);
    CallsOneMore(t.history, ExhaustedMessage(env));
    assert CallsIn(t.history) + [] == CallsIn(t.history);
  }

  lemma ToolsKeep(env: Env, start: seq<Message>, t: Turn, content: string, calls: seq<ToolCall>)
    requires Ready(env, start, t)
    ensures Ready(env, start, ToolsRun(env, t, content, calls))
  {
    hide OneSwitch, Growing;
    GrowsByTurning(start, t.history, t.asked, ToolsRun(env, t, content, calls).history);
    var asking, answers := AssistantMessage(content, calls), ResultsMessage(ResultsOf(env.tools, |t.executed|, calls));
    CallsOneMore(t.history, asking);
    CallsOneMore(t.history + [asking], answers);
    assert t.history + [asking, answers] == t.history + [asking] + [answers];
    PairAppended(t.history, asking, answers);
    assert CallsIn(t.history + [asking] + [answers]) == CallsIn(t.history) + calls;
    assert CallsIn(start) + (t.executed + calls) == CallsIn(start) + t.executed + calls;
  }

  lemma PairAppended(messages: seq<Message>, asking: Message, answers: Message)
    requires Paired(messages) && asking.toolCalls.Some? && answers.toolCalls.None? && answers.toolResults.Some?
    requires Answers(answers.toolResults.value, asking.toolCalls.value)
    ensures Paired(messages + [asking] + [answers])
  {
    var all := messages + [asking] + [answers];
    forall i | 0 <= i < |all| && all[i].toolCalls.Some?
      ensures i + 1 < |all| && all[i + 1].toolResults.Some? && Answers(all[i + 1].toolResults.value, all[i].toolCalls.value)
    {
      if i < |messages| { assert all[i] == messages[i] && all[i + 1] == messages[i + 1]; }
    }
  }

  lemma ToolsCutKeeps(env: Env, start: seq<Message>, t: Turn, content: string, calls: seq<ToolCall>, ran: nat)
    requires Ready(env, start, t) && ran <= |calls|
    ensures Sound(env, start, ToolsCut(t, content, calls, ran))
  {
    hide OneSwitch, Paired, Growing;
    GrowsByTurning(start, t.history, t.asked, ToolsCut(t, content, calls, ran).history);
    CallsOneMore(t.history, AssistantMessage(content, calls));
    assert CallsIn(start) + (t.executed + calls[..ran]) + calls[ran..] == CallsIn(t.history) + calls;
  }

  lemma {:induction false} RunIsSound(env: Env, start: seq<Message>, t: Turn, rounds: nat)
    requires Ready(env, start, t)
    ensures var r := RunFrom(env, t, rounds);
      && Sound(env, start, r.turn) && |t.asked| < |r.turn.asked| <= |t.asked| + rounds + 1
      && Paired(r.turn.history) && CallsIn(r.turn.history) == CallsIn(start) + r.turn.executed
    decreases rounds
  {
    hide ChatVia, Paired, OneSwitch, Growing, ToolsRun, WantsTools, CallsIn, RunFrom;
    RunStep(env, t, rounds);
    if rounds == 0 { ExhaustedKeeps(env, start, t); }
    var before := if rounds == 0 then t.(history := t.history + [ExhaustedMessage(env)]) else t;
    var tools := if rounds == 0 then [] else env.prompt.tools;
    var request := RequestFor(env, before.history, tools);
    var (outcome, provider) := ChatVia(env.chat, env.models, t.provider, request);
    ChatFollows(env.chat, env.models, t.provider, request);
    AskingKeeps(env, start, before, tools, provider);
    if rounds > 0 && outcome.Answer? && WantsTools(outcome.response.stopReason, outcome.response.toolCalls) {
      var answered := Reported(Asked(t, request, provider), outcome.response.usage);
      SomeCalls(outcome.response.stopReason, outcome.response.toolCalls);
      ToolsKeep(env, start, answered, outcome.response.content, outcome.response.toolCalls.value);
      ToolsAskNothing(env, answered, outcome.response.content, outcome.response.toolCalls.value);
      RunIsSound(env, start, ToolsRun(env, answered, outcome.response.content, outcome.response.toolCalls.value), rounds - 1);
    }
  }

  lemma SomeCalls(stopReason: Option<string>, calls: Option<seq<ToolCall>>)
    ensures WantsTools(stopReason, calls) ==> calls.Some? && calls.value != []
  {
  }

  lemma ToolsAskNothing(env: Env, t: Turn, content: string, calls: seq<ToolCall>)
    ensures ToolsRun(env, t, content, calls).asked == t.asked
  {
  }

  lemma {:induction false} StreamIsSound(env: Env, start: seq<Message>, t: Turn, yielded: nat, rounds: nat, enableTools: bool, closeAt: CloseAt)
    requires Ready(env, start, t)
    ensures var s := StreamFrom(env, t, yielded, rounds, enableTools, closeAt);
      Sound(env, start, s.turn) && |t.asked| < |s.turn.asked| <= |t.asked| + rounds + 1
    decreases rounds
  {
    hide Ready, Sound, OneRound, LastRound;
    if rounds == 0 {
      LastRoundIsSound(env, start, t, yielded, closeAt);
    } else {
      RoundIsSound(env, start, t, yielded, enableTools, closeAt);
      var step := OneRound(env, t, yielded, enableTools, closeAt);
      if step.Next? { StreamIsSound(env, start, step.turn, step.yielded, rounds - 1, enableTools, closeAt); }
    }
  }

  lemma RoundIsSound(env: Env, start: seq<Message>, t: Turn, yielded: nat, enableTools: bool, closeAt: CloseAt)
    requires Ready(env, start, t)
    ensures match OneRound(env, t, yielded, enableTools, closeAt)
      case Next(turn, _) => Ready(env, start, turn) && |turn.asked| == |t.asked| + 1
      case Over(s) => Sound(env, start, s.turn) && |s.turn.asked| == |t.asked| + 1
  {
    hide StreamVia, Take, Paired, OneSwitch, ToolsRun, ToolsCut, CallsIn, WantsTools, Growing;
    var request := RequestFor(env, t.history, env.prompt.tools);
    var (stream, provider) := StreamVia(env.stream, env.models, t.provider, request);
    StreamFollows(env.stream, env.models, t.provider, request);
    AskingKeeps(env, start, t, env.prompt.tools, provider);
    var taken := Take(stream.events, closeAt, Nothing(yielded));
    var stop := LastStop(taken.stops);
    var asked := Asked(t, request, provider);
    var answered := asked.(reported := asked.reported + UsageOf(stop));
    SomeCalls(stop.stopReason, stop.toolCalls);
    if WantsTools(stop.stopReason, stop.toolCalls) {
      var calls := stop.toolCalls.value;
      ToolsKeep(env, start, answered, taken.text, calls);
      ToolsAskNothing(env, answered, taken.text, calls);
      ToolsCutKeeps(env, start, answered, taken.text, calls, RunBeforeClose(|calls|, taken.yielded, closeAt));
      CutAsksNothing(answered, taken.text, calls, RunBeforeClose(|calls|, taken.yielded, closeAt));
    }
  }

  lemma CutAsksNothing(t: Turn, content: string, calls: seq<ToolCall>, ran: nat)
    requires ran <= |calls|
    ensures ToolsCut(t, content, calls, ran).asked == t.asked
  {
  }

  lemma LastRoundIsSound(env: Env, start: seq<Message>, t: Turn, yielded: nat, closeAt: CloseAt)
    requires Ready(env, start, t)
    ensures var s := LastRound(env, t, yielded, closeAt);
      Sound(env, start, s.turn) && |s.turn.asked| == |t.asked| + 1
  {
    hide StreamVia, Take, Paired, OneSwitch, CallsIn, Growing;
    ExhaustedKeeps(env, start, t);
    var before := t.(history := t.history + [ExhaustedMessage(env)]);
    var request := RequestFor(env, before.history, []);
    StreamFollows(env.stream, env.models, t.provider, request);
    AskingKeeps(env, start, before, [], StreamVia(env.stream, env.models, t.provider, request).1);
  }

  lemma BegunIsReady(env: Env, start: seq<Message>)
    requires Paired(start)
    ensures Ready(env, start, Begun(start))
  {
    UnusedHasNotSwitched(env.models);
    assert CallsIn(start) + [] == CallsIn(start);
  }

  /** From request `first` on: the turn's model, system prompt and context in all, its
      tools in all but the request after the budget of `rounds`, which offers none. */
  predicate Offers(env: Env, asked: seq<Request>, first: nat, rounds: nat) {
    forall i :: first <= i < |asked| ==>
      && asked[i].tools == (if i == first + rounds then [] else env.prompt.tools)
      && asked[i].system == env.prompt.system && asked[i].systemContext == env.prompt.systemContext
      && asked[i].model == env.models.primary
  }

  lemma {:induction false} RunOffers(env: Env, t: Turn, rounds: nat)
    ensures t.asked <= RunFrom(env, t, rounds).turn.asked
    ensures Offers(env, RunFrom(env, t, rounds).turn.asked, |t.asked|, rounds)
    decreases rounds
  {
    hide ChatVia, ToolsRun, WantsTools, RunFrom;
    RunStep(env, t, rounds);
    var request := RequestFor(env, t.history, env.prompt.tools);
    var (outcome, provider) := ChatVia(env.chat, env.models, t.provider, request);
    if rounds > 0 && outcome.Answer? && WantsTools(outcome.response.stopReason, outcome.response.toolCalls) {
      var answered := Reported(Asked(t, request, provider), outcome.response.usage);
      SomeCalls(outcome.response.stopReason, outcome.response.toolCalls);
      ToolsAskNothing(env, answered, outcome.response.content, outcome.response.toolCalls.value);
      RunOffers(env, ToolsRun(env, answered, outcome.response.content, outcome.response.toolCalls.value), rounds - 1);
    }
  }

  /** The streamed turn offers the same, wherever the client leaves. */
  lemma {:induction false} StreamOffers(env: Env, t: Turn, yielded: nat, rounds: nat, enableTools: bool, closeAt: CloseAt)
    ensures t.asked <= StreamFrom(env, t, yielded, rounds, enableTools, closeAt).turn.asked
    ensures Offers(env, StreamFrom(env, t, yielded, rounds, enableTools, closeAt).turn.asked, |t.asked|, rounds)
    decreases rounds
  {
    hide OneRound, LastRound;
    if rounds == 0 {
      LastRoundAsks(env, t, yielded, closeAt);
    } else {
      RoundAsks(env, t, yielded, enableTools, closeAt);
      var step := OneRound(env, t, yielded, enableTools, closeAt);
      if step.Next? { StreamOffers(env, step.turn, step.yielded, rounds - 1, enableTools, closeAt); }
    }
  }

  lemma LastRoundAsks(env: Env, t: Turn, yielded: nat, closeAt: CloseAt)
    ensures exists r :: LastRound(env, t, yielded, closeAt).turn.asked == t.asked + [r] && Offers(env, [r], 0, 0)
  {
    hide Take, StreamVia;
    var request := RequestFor(env, t.history + [ExhaustedMessage(env)], []);
    assert LastRound(env, t, yielded, closeAt).turn.asked == t.asked + [request];
  }

  lemma RoundAsks(env: Env, t: Turn, yielded: nat, enableTools: bool, closeAt: CloseAt)
    ensures var step := OneRound(env, t, yielded, enableTools, closeAt);
      exists r :: (if step.Next? then step.turn else step.streamed.turn).asked == t.asked + [r] && Offers(env, [r], 0, 1)
  {
    hide Take, StreamVia, WantsTools;
    var request := RequestFor(env, t.history, env.prompt.tools);
    var (stream, _) := StreamVia(env.stream, env.models, t.provider, request);
    var stop := LastStop(Take(stream.events, closeAt, Nothing(yielded)).stops);
    SomeCalls(stop.stopReason, stop.toolCalls);
    var step := OneRound(env, t, yielded, enableTools, closeAt);
    assert (if step.Next? then step.turn else step.streamed.turn).asked == t.asked + [request];
  }

  /** One round of the blocking loop, message by message: it asks what the history holds,
      stops unless the answer ends in "tool_use" with at least one call, and otherwise goes
      on with the answer and the results the tools gave, call by call. */
  lemma RoundGoesOnIff(env: Env, t: Turn, rounds: nat)
    requires rounds > 0
    ensures
      var request := Request(t.history, env.models.primary, env.prompt.system, env.prompt.systemContext, env.prompt.tools);
      var (outcome, provider) := ChatVia(env.chat, env.models, t.provider, request);
      var whole := RunFrom(env, t, rounds);
      if outcome.Answer? && outcome.response.stopReason == Some("tool_use")
         && outcome.response.toolCalls.Some? && |outcome.response.toolCalls.value| > 0
      then
        var r := outcome.response;
        exists next :: whole == RunFrom(env, next, rounds - 1) && FollowsToolRound(env, t, next, r.content, r.toolCalls.value)
          && next.asked == t.asked + [request] && next.reported == t.reported + [r.usage] && next.provider == provider
      else whole.turn.asked == t.asked + [request] && whole.turn.history == t.history && whole.turn.executed == t.executed
  {
    hide ChatVia, RunFrom;
    RunStep(env, t, rounds);
    var request := RequestFor(env, t.history, env.prompt.tools);
    var (outcome, provider) := ChatVia(env.chat, env.models, t.provider, request);
    if outcome.Answer? && WantsTools(outcome.response.stopReason, outcome.response.toolCalls) {
      var answered := Reported(Asked(t, request, provider), outcome.response.usage);
      var next := ToolsRun(env, answered, outcome.response.content, outcome.response.toolCalls.value);
      assert FollowsToolRound(env, t, next, outcome.response.content, outcome.response.toolCalls.value);
    }
  }

  /** When the budget has run out: the history, the note that says so, and no tools. */
  lemma LastCallAsks(env: Env, t: Turn)
    ensures var history := t.history + [Message(User, env.prompt.exhausted, None, None)];
      var request := Request(history, env.models.primary, env.prompt.system, env.prompt.systemContext, []);
      var (outcome, provider) := ChatVia(env.chat, env.models, t.provider, request);
      var last := RunFrom(env, t, 0).turn;
      && last.history == history && last.asked == t.asked + [request] && last.executed == t.executed
      && last.reported == (if outcome.Answer? then t.reported + [outcome.response.usage] else t.reported)
  {
    hide ChatVia, RunFrom;
    RunStep(env, t, 0);
    var request := RequestFor(env, t.history + [ExhaustedMessage(env)], []);
    var (outcome, provider) := ChatVia(env.chat, env.models, t.provider, request);
    if outcome.Failure? { assert RunFrom(env, t, 0).turn.reported == t.reported; }
  }

  /** `next` continues `t` after an answer with tool calls: the calls in one assistant
      message, their results in one user message, each with its call's id, the text its
      tool gave and whether that was an error. */
  predicate FollowsToolRound(env: Env, t: Turn, next: Turn, content: string, calls: seq<ToolCall>) {
    && next.executed == t.executed + calls
    && |next.history| == |t.history| + 2 && t.history <= next.history
    && next.history[|t.history|] == Message(Assistant, content, Some(calls), None)
    && var answers := next.history[|t.history| + 1];
    && answers.role == User && answers.content == "" && answers.toolCalls == None && answers.toolResults.Some?
    && |answers.toolResults.value| == |calls|
    && forall i :: 0 <= i < |calls| ==>
         var given := env.tools(|t.executed| + i, calls[i]);
         answers.toolResults.value[i] == ToolResult(calls[i].id, given.0, given.1)
  }

  /** Whatever the provider answers, whatever a persona asks for and wherever a client
      leaves: at most sixteen requests and seventeen calls, the primary model first and
      the fallback for good after one switch, every request an extension of the last with
      its tool results in place, and no tool run that the model did not call. */
  lemma TurnsAreBoundedAndSound(env: Env, history: seq<Message>, ownRounds: Option<int>, enableTools: bool, closeAt: CloseAt)
    requires Paired(history)
    ensures var bound := Rounds(ResolveMaxToolRounds(ownRounds));
      var blocking := RunFrom(env, Begun(history), bound).turn;
      var streamed := StreamFrom(env, Begun(history), OPENING, bound, enableTools, closeAt).turn;
      && 1 <= |blocking.asked| <= bound + 1 <= MAX_TOOL_ROUNDS_CEILING + 1
      && 1 <= |streamed.asked| <= bound + 1
      && |blocking.provider.sent| <= |blocking.asked| + 1 && |streamed.provider.sent| <= |streamed.asked| + 1
      && Sound(env, history, blocking) && Sound(env, history, streamed)
  {
    hide RunFrom, StreamFrom, Paired;
    var bound := Rounds(ResolveMaxToolRounds(ownRounds));
    BegunIsReady(env, history);
    RunIsSound(env, history, Begun(history), bound);
    StreamIsSound(env, history, Begun(history), OPENING, bound, enableTools, closeAt);
  }

  // ----------------------------------------------------------------- what is charged

  /** The row a blocking turn writes: none when a call raises. */
  function BlockingRows(env: Env, history: seq<Message>, bound: int): seq<UsageRow> {
    var r := RunFrom(env, Begun(history), Rounds(bound));
    if r.response.None? then [] else [UsageRow(ModelInUse(env.models, r.turn.provider), Sum(r.turn.reported))]
  }

  /** What the environment answered to the last call the turn made of it. */
  predicate LastCallFailed(chat: ChatModel, p: Progress) {
    p.sent != [] && chat(|p.sent| - 1, p.sent[|p.sent| - 1]).Failure?
  }

  lemma OutcomeIsLastCall(chat: ChatModel, m: Models, p: Progress, r: Request)
    ensures ChatVia(chat, m, p, r).0.Failure? <==> LastCallFailed(chat, ChatVia(chat, m, p, r).1)
  {
  }

  /** A blocking turn raises exactly when the model failed its last call: a failure is
      passed on at once unless the one fallback call after it answers. */
  lemma {:induction false} RaisesIffLastCallFailed(env: Env, t: Turn, rounds: nat)
    ensures RunFrom(env, t, rounds).response.None? <==> LastCallFailed(env.chat, RunFrom(env, t, rounds).turn.provider)
    decreases rounds
  {
    hide ChatVia, RunFrom, WantsTools, LastCallFailed, ToolsRun;
    RunStep(env, t, rounds);
    var history := if rounds == 0 then t.history + [ExhaustedMessage(env)] else t.history;
    var request := RequestFor(env, history, if rounds == 0 then [] else env.prompt.tools);
    var (outcome, provider) := ChatVia(env.chat, env.models, t.provider, request);
    OutcomeIsLastCall(env.chat, env.models, t.provider, request);
    if rounds > 0 && outcome.Answer? && WantsTools(outcome.response.stopReason, outcome.response.toolCalls) {
      var answered := Reported(Asked(t, request, provider), outcome.response.usage);
      SomeCalls(outcome.response.stopReason, outcome.response.toolCalls);
      RaisesIffLastCallFailed(env, ToolsRun(env, answered, outcome.response.content, outcome.response.toolCalls.value), rounds - 1);
    }
  }

  /** Both loops charge the same exactly when the model did not fail the turn's last
      call; a turn whose last call failed is charged only if it was streamed. */
  lemma RowsAgreeIff(env: Env, history: seq<Message>, bound: int)
    requires SameProvider(env.chat, env.stream)
    ensures BlockingRows(env, history, bound) == RowsOf(env, history, bound, true, None)
      <==> !LastCallFailed(env.chat, RunFrom(env, Begun(history), Rounds(bound)).turn.provider)
    ensures |RowsOf(env, history, bound, true, None)| == 1
  {
    hide RunFrom, StreamFrom, LastCallFailed;
    LoopsAgree(env, Begun(history), OPENING, Rounds(bound));
    RaisesIffLastCallFailed(env, Begun(history), Rounds(bound));
  }

  /** Every completed stream reports its usage once, as Anthropic streams do. */
  ghost predicate Reports(stream: StreamModel) {
    forall n, r :: ReportsOnce(stream(n, r))
  }

  predicate ReportsOnce(s: Stream) {
    && |Stops(s.events)| <= 1
    && (forall i :: 0 <= i < |Stops(s.events)| ==> Stops(s.events)[i].usage.Some?)
    && (s.failure.None? ==> |Stops(s.events)| == 1)
  }

  lemma ReportsThroughFallback(env: Env, p: Progress, r: Request)
    requires Reports(env.stream)
    ensures ReportsOnce(StreamVia(env.stream, env.models, p, r).0)
  {
    hide ReportsOnce;
  }

  /** A streamed turn that reached the provider writes one row, and that row covers
      every round but the one that was cut off. */
  lemma {:induction false} EveryRoundIsReported(env: Env, t: Turn, yielded: nat, rounds: nat, enableTools: bool, closeAt: CloseAt)
    requires Reports(env.stream) && |t.reported| == |t.asked|
    ensures var s := StreamFrom(env, t, yielded, rounds, enableTools, closeAt);
      && t.reported <= s.turn.reported
      && |s.turn.asked| - 1 <= |s.turn.reported| <= |s.turn.asked|
      && (!s.ending.CutDuring? ==> |s.turn.reported| == |s.turn.asked|)
    decreases rounds
  {
    hide OneRound, LastRound, Reports;
    if rounds == 0 {
      LastRoundIsReported(env, t, yielded, closeAt);
    } else {
      RoundIsReported(env, t, yielded, enableTools, closeAt);
      var step := OneRound(env, t, yielded, enableTools, closeAt);
      if step.Next? { EveryRoundIsReported(env, step.turn, step.yielded, rounds - 1, enableTools, closeAt); }
    }
  }

  lemma RoundIsReported(env: Env, t: Turn, yielded: nat, enableTools: bool, closeAt: CloseAt)
    requires Reports(env.stream) && |t.reported| == |t.asked|
    ensures match OneRound(env, t, yielded, enableTools, closeAt)
      case Next(turn, _) => t.reported <= turn.reported && |turn.reported| == |turn.asked| == |t.asked| + 1
      case Over(s) =>
        && t.reported <= s.turn.reported && |s.turn.asked| == |t.asked| + 1
        && |s.turn.reported| == |s.turn.asked| - (if s.ending.CutDuring? then 1 else 0)
  {
    hide StreamVia, Take, ToolsRun, ToolsCut, WantsTools, Reports;
    var request := RequestFor(env, t.history, env.prompt.tools);
    var (stream, provider) := StreamVia(env.stream, env.models, t.provider, request);
    ReportsThroughFallback(env, t.provider, request);
    var taken := Take(stream.events, closeAt, Nothing(yielded));
    var stop := LastStop(taken.stops);
    var asked := Asked(t, request, provider);
    var answered := asked.(reported := asked.reported + UsageOf(stop));
    if !CutOff(taken, stream) {
      TakesAll(stream.events, closeAt, Nothing(yielded));
      assert taken.stops == Stops(stream.events);
    }
    SomeCalls(stop.stopReason, stop.toolCalls);
    if WantsTools(stop.stopReason, stop.toolCalls) {
      var calls := stop.toolCalls.value;
      ToolsAskNothing(env, answered, taken.text, calls);
      ToolsReportNothing(env, answered, taken.text, calls, RunBeforeClose(|calls|, taken.yielded, closeAt));
      CutAsksNothing(answered, taken.text, calls, RunBeforeClose(|calls|, taken.yielded, closeAt));
    }
  }

  lemma ToolsReportNothing(env: Env, t: Turn, content: string, calls: seq<ToolCall>, ran: nat)
    requires ran <= |calls|
    ensures ToolsRun(env, t, content, calls).reported == t.reported == ToolsCut(t, content, calls, ran).reported
  {
  }

  lemma LastRoundIsReported(env: Env, t: Turn, yielded: nat, closeAt: CloseAt)
    requires Reports(env.stream) && |t.reported| == |t.asked|
    ensures var s := LastRound(env, t, yielded, closeAt);
      && t.reported <= s.turn.reported && |s.turn.asked| == |t.asked| + 1
      && |s.turn.asked| - 1 <= |s.turn.reported| <= |s.turn.asked|
      && (!s.ending.CutDuring? ==> |s.turn.reported| == |s.turn.asked|)
  {
    hide StreamVia, Take, Reports;
    var request := RequestFor(env, t.history + [ExhaustedMessage(env)], []);
    var (stream, provider) := StreamVia(env.stream, env.models, t.provider, request);
    ReportsThroughFallback(env, t.provider, request);
    TakesNoMoreStops(stream.events, closeAt, Nothing(yielded));
    var taken := Take(stream.events, closeAt, Nothing(yielded));
    assert [] + Stops(stream.events) == Stops(stream.events);
    FewUsages(taken.stops);
    if !CutOff(taken, stream) {
      TakesAll(stream.events, closeAt, Nothing(yielded));
      assert taken.stops == Stops(stream.events);
    }
  }

  lemma FewUsages(stops: seq<Stop>)
    requires |stops| <= 1
    ensures |UsagesOf(stops)| <= |stops|
    ensures |stops| == 1 ==> UsagesOf(stops) == UsageOf(stops[0])
  {
    if |stops| == 1 {
      assert stops[..0] == [] && UsagesOf(stops[..0]) == [];
      assert [] + UsageOf(stops[0]) == UsageOf(stops[0]);
    }
  }

  lemma ChargeCoversReports(env: Env, s: Streamed)
    ensures Charged(env, s).Total() >= Sum(s.turn.reported).Total()
    ensures s.ending.CutDuring? && s.ending.text != "" ==> Charged(env, s).Total() > Sum(s.turn.reported).Total()
    ensures !s.ending.CutDuring? ==> Charged(env, s) == Sum(s.turn.reported)
  {
  }

  /** A streamed turn that reached the provider writes exactly one row, wherever it is
      cut; the row covers every round that was not cut off, and a round that was cut off
      after showing text is never free. */
  lemma StreamedTurnIsCharged(env: Env, history: seq<Message>, bound: int, enableTools: bool, closeAt: CloseAt)
    requires Reports(env.stream)
    ensures var rows := RowsOf(env, history, bound, enableTools, closeAt);
      var s := StreamFrom(env, Begun(history), OPENING, Rounds(bound), enableTools, closeAt);
      && |rows| == (if ClosedAtOpening(closeAt) then 0 else 1)
      && |s.turn.reported| >= |s.turn.asked| - (if s.ending.CutDuring? then 1 else 0)
      && (rows != [] ==>
           && rows[0].usage.Total() >= Sum(s.turn.reported).Total()
           && (s.ending.CutDuring? && s.ending.text != "" ==> rows[0].usage.Total() > Sum(s.turn.reported).Total())
           && (s.ending.Completed? ==> rows[0].usage == Sum(s.turn.reported)))
  {
    hide StreamFrom, Charged;
    EveryRoundIsReported(env, Begun(history), OPENING, Rounds(bound), enableTools, closeAt);
    ChargeCoversReports(env, StreamFrom(env, Begun(history), OPENING, Rounds(bound), enableTools, closeAt));
  }

  /** A turn that was cut off in a round is charged, beyond what was reported, the prompt
      of the last reported round, or a quarter of the characters sent, and a quarter of the
      characters shown; any other turn is charged what was reported. */
  lemma CutOffRoundIsEstimated(env: Env, s: Streamed)
    ensures var charged, known, t := Charged(env, s), Sum(s.turn.reported), s.turn;
      && charged.cacheCreation == known.cacheCreation && charged.cacheRead == known.cacheRead
      && (!s.ending.CutDuring? ==> charged.input == known.input && charged.output == known.output)
      && (s.ending.CutDuring? ==> charged.output == known.output + (if |s.ending.text| == 0 then 0 else |s.ending.text| / 4 + 1))
      && (s.ending.CutDuring? && |t.reported| > 0 ==>
            var last := t.reported[|t.reported| - 1];
            charged.input == known.input + last.input + last.cacheCreation + last.cacheRead)
      && (s.ending.CutDuring? && |t.reported| == 0 ==>
            var sent := |env.prompt.system.GetOr("")| + |env.prompt.systemContext.GetOr("")| + Characters(t.history);
            charged.input == known.input + (if sent == 0 then 0 else sent / 4 + 1))
  {
    ContentsHold(s.turn.history);
  }

  function Characters(history: seq<Message>): nat {
    if history == [] then 0 else |history[0].content| + Characters(history[1..])
  }

  lemma {:induction false} ContentsHold(history: seq<Message>)
    ensures |Contents(history)| == Characters(history)
  {
    if history != [] { ContentsHold(history[1..]); }
  }

  lemma ModelInUseWasLastSent(m: Models, p: Progress, asked: nat)
    requires OneSwitch(m, p, asked) && asked > 0
    ensures p.sent != [] && ModelInUse(m, p) == p.sent[|p.sent| - 1].model
  {
  }

  /** The row of a turn, blocking or streamed, names the model of the last request that
      was sent for it. */
  lemma RowsNameTheLastModel(env: Env, history: seq<Message>, bound: int, enableTools: bool, closeAt: CloseAt)
    requires Paired(history)
    ensures var rows := BlockingRows(env, history, bound);
      var sent := RunFrom(env, Begun(history), Rounds(bound)).turn.provider.sent;
      sent != [] && (rows != [] ==> rows[0].model == sent[|sent| - 1].model)
    ensures var rows := RowsOf(env, history, bound, enableTools, closeAt);
      var sent := StreamFrom(env, Begun(history), OPENING, Rounds(bound), enableTools, closeAt).turn.provider.sent;
      sent != [] && (rows != [] ==> rows[0].model == sent[|sent| - 1].model)
  {
    hide RunFrom, StreamFrom, OneSwitch, ModelInUse, Paired, Charged;
    BegunIsReady(env, history);
    RunIsSound(env, history, Begun(history), Rounds(bound));
    StreamIsSound(env, history, Begun(history), OPENING, Rounds(bound), enableTools, closeAt);
    var r := RunFrom(env, Begun(history), Rounds(bound)).turn;
    var s := StreamFrom(env, Begun(history), OPENING, Rounds(bound), enableTools, closeAt).turn;
    ModelInUseWasLastSent(env.models, r.provider, |r.asked|);
    ModelInUseWasLastSent(env.models, s.provider, |s.asked|);
  }
}
