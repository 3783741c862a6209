/** What a chat turn exchanges with a model and with its tools
    (backend/src/ai/schemas.py). */
module AiMessages {
  import opened Prelude

  datatype Usage = Usage(input: nat, output: nat, cacheCreation: nat, cacheRead: nat) {
    function Plus(other: Usage): Usage {
      Usage(input + other.input, output + other.output, cacheCreation + other.cacheCreation, cacheRead + other.cacheRead)
    }

    /** Every prompt token, cached or not. */
    function Prompt(): nat {
      input + cacheCreation + cacheRead
    }

    /** The total_tokens of a usage row. */
    function Total(): nat {
      Prompt() + output
    }
  }

  const NO_USAGE := Usage(0, 0, 0, 0)

  function Sum(reported: seq<Usage>): Usage {
    if reported == [] then NO_USAGE else Sum(reported[..|reported| - 1]).Plus(reported[|reported| - 1])
  }

  lemma SumOneMore(reported: seq<Usage>, usage: Usage)
    ensures Sum(reported + [usage]) == Sum(reported).Plus(usage)
  {
    assert (reported + [usage])[..|reported|] == reported;
  }

  function Column(reported: seq<Usage>, pick: Usage -> nat): nat {
    if reported == [] then 0 else pick(reported[0]) + Column(reported[1..], pick)
  }

  lemma {:induction false} ColumnGrows(reported: seq<Usage>, last: Usage, pick: Usage -> nat)
    ensures Column(reported + [last], pick) == Column(reported, pick) + pick(last)
  {
    if reported == [] {
      assert reported + [last] == [last];
    } else {
      assert (reported + [last])[1..] == reported[1..] + [last];
      ColumnGrows(reported[1..], last, pick);
    }
  }

  /** The totals are the sums of the four counters, and a row's total_tokens adds them up. */
  lemma {:induction false} SumAddsEachCounter(reported: seq<Usage>)
    ensures Sum(reported).input == Column(reported, (u: Usage) => u.input)
    ensures Sum(reported).output == Column(reported, (u: Usage) => u.output)
    ensures Sum(reported).cacheCreation == Column(reported, (u: Usage) => u.cacheCreation)
    ensures Sum(reported).cacheRead == Column(reported, (u: Usage) => u.cacheRead)
    ensures var total := Sum(reported);
      total.Total() == total.input + total.cacheCreation + total.cacheRead + total.output
  {
    if reported != [] {
      var front, last := reported[..|reported| - 1], reported[|reported| - 1];
      assert reported == front + [last];
      SumAddsEachCounter(front);
      ColumnGrows(front, last, (u: Usage) => u.input);
      ColumnGrows(front, last, (u: Usage) => u.output);
      ColumnGrows(front, last, (u: Usage) => u.cacheCreation);
      ColumnGrows(front, last, (u: Usage) => u.cacheRead);
    }
  }

  datatype ToolCall = ToolCall(id: string, name: string, input: string)

  datatype ToolResult = ToolResult(toolCallId: string, content: string, isError: bool)

  datatype Role = User | Assistant

  datatype Message = Message(
    role: Role, content: string, toolCalls: Option<seq<ToolCall>>, toolResults: Option<seq<ToolResult>>)

  datatype Request = Request(
    messages: seq<Message>, model: string, system: Option<string>, systemContext: Option<string>, tools: seq<string>)

  datatype Response = Response(
    content: string, stopReason: Option<string>, usage: Usage, toolCalls: Option<seq<ToolCall>>)

  /** What `chat` of the inner provider does: answers, or raises an error another
      model may or may not get round. */
  datatype Outcome = Answer(response: Response) | Failure(retryable: bool)

  /** What a message_stop event reports. */
  datatype Stop = Stop(usage: Option<Usage>, toolCalls: Option<seq<ToolCall>>, stopReason: Option<string>)

  datatype StreamEvent = TextDelta(text: string) | MessageStop(stop: Stop)

  /** What `stream_chat` of the inner provider does: yields events, then ends or raises. */
  datatype Stream = Stream(events: seq<StreamEvent>, failure: Option<bool>)

  /** The environment answers the n-th call as it likes. */
  type ChatModel = (nat, Request) -> Outcome
  type StreamModel = (nat, Request) -> Stream

  function Text(events: seq<StreamEvent>): string {
    if events == [] then ""
    else (if events[0].TextDelta? then events[0].text else "") + Text(events[1..])
  }

  function Stops(events: seq<StreamEvent>): seq<Stop> {
    if events == [] then []
    else (if events[0].MessageStop? then [events[0].stop] else []) + Stops(events[1..])
  }

  /** The stream is the chat outcome cut into pieces: the same text in any number of
      deltas, and one message_stop that reports what the response reports. */
  predicate Renders(stream: Stream, outcome: Outcome) {
    match outcome
    case Answer(r) =>
      && stream.failure.None? && Text(stream.events) == r.content
      && Stops(stream.events) == [Stop(Some(r.usage), r.toolCalls, r.stopReason)]
    case Failure(retryable) => stream == Stream([], Some(retryable))
  }

  ghost predicate SameProvider(chat: ChatModel, stream: StreamModel) {
    forall n, r {:trigger chat(n, r)} {:trigger stream(n, r)} :: Renders(stream(n, r), chat(n, r))
  }
}
