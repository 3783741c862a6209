/** FallbackProvider of backend/src/ai/routing.py: one switch to the fallback model,
    for good, and only before anything was said. */
module FallbackProviders {
  import opened Prelude
  import opened AiMessages

  datatype Models = Models(primary: string, fallback: Option<string>)

  /** `fellBack`, and every request the inner provider was sent. */
  datatype Progress = Progress(fellBack: bool, sent: seq<Request>)

  const UNUSED := Progress(false, [])

  predicate HasFallback(m: Models) {
    m.fallback.Some? && m.fallback.value != ""
  }

  function Switched(m: Models, fellBack: bool, r: Request): Request {
    if fellBack && m.fallback.Some? then r.(model := m.fallback.value) else r
  }

  function ModelInUse(m: Models, p: Progress): string {
    if p.fellBack then m.fallback.GetOr("") else m.primary
  }

  function Sent(m: Models, p: Progress, r: Request): Progress {
    p.(sent := p.sent + [Switched(m, p.fellBack, r)])
  }

  function ChatVia(chat: ChatModel, m: Models, p: Progress, r: Request): (Outcome, Progress) {
    var first, once := chat(|p.sent|, Switched(m, p.fellBack, r)), Sent(m, p, r);
    if first.Answer? || p.fellBack || !HasFallback(m) || !first.retryable then (first, once)
    else
      var switched := once.(fellBack := true);
      (chat(|switched.sent|, Switched(m, true, r)), Sent(m, switched, r))
  }

  function StreamVia(stream: StreamModel, m: Models, p: Progress, r: Request): (Stream, Progress) {
    var first, once := stream(|p.sent|, Switched(m, p.fellBack, r)), Sent(m, p, r);
    if first.failure.None? || first.events != [] || p.fellBack || !HasFallback(m) || !first.failure.value then (first, once)
    else
      var switched := once.(fellBack := true);
      (stream(|switched.sent|, Switched(m, true, r)), Sent(m, switched, r))
  }

  class FallbackProvider {
    const chat: ChatModel
    const stream: StreamModel
    const models: Models
    var fellBack: bool
    /** The requests the inner provider has seen: the environment's side of the calls. */
    var sent: seq<Request>

    constructor (chat: ChatModel, stream: StreamModel, models: Models)
      ensures this.chat == chat && this.stream == stream && this.models == models
      ensures Now() == UNUSED
    {
      this.chat, this.stream, this.models := chat, stream, models;
      fellBack, sent := false, [];
    }

    function Now(): Progress
      reads this
    {
      Progress(fellBack, sent)
    }

    function ModelUsed(): string
      reads this
    {
      ModelInUse(models, Now())
    }

    method InnerChat(request: Request) returns (outcome: Outcome)
      modifies this`sent
      ensures sent == old(sent) + [request] && outcome == chat(old(|sent|), request)
    {
      outcome := chat(|sent|, request);
      sent := sent + [request];
    }

    method InnerStream(request: Request) returns (events: Stream)
      modifies this`sent
      ensures sent == old(sent) + [request] && events == stream(old(|sent|), request)
    {
      events := stream(|sent|, request);
      sent := sent + [request];
    }

    method Chat(request: Request) returns (outcome: Outcome)
      modifies this
      ensures (outcome, Now()) == ChatVia(chat, models, old(Now()), request)
    {
      outcome := InnerChat(Switched(models, fellBack, request));
      if outcome.Failure? {
        if fellBack || !HasFallback(models) || !outcome.retryable { return; }
        fellBack := true;
        outcome := InnerChat(Switched(models, fellBack, request));
      }
    }

    method StreamChat(request: Request) returns (events: Stream)
      modifies this
      ensures (events, Now()) == StreamVia(stream, models, old(Now()), request)
    {
      events := InnerStream(Switched(models, fellBack, request));
      var started := events.events != [];
      if events.failure.Some? {
        if started || fellBack || !HasFallback(models) || !events.failure.value { return; }
        fellBack := true;
        events := InnerStream(Switched(models, fellBack, request));
      }
    }
  }

  // ------------------------------------------------------------------ properties

  lemma RendersThroughFallback(chat: ChatModel, stream: StreamModel, m: Models, p: Progress, r: Request)
    requires SameProvider(chat, stream)
    ensures Renders(StreamVia(stream, m, p, r).0, ChatVia(chat, m, p, r).0)
    ensures StreamVia(stream, m, p, r).1 == ChatVia(chat, m, p, r).1
  {
    var first := Switched(m, p.fellBack, r);
    assert Renders(stream(|p.sent|, first), chat(|p.sent|, first));
    if chat(|p.sent|, first).Answer? { HasEvents(stream(|p.sent|, first).events); }
  }

  lemma HasEvents(events: seq<StreamEvent>)
    ensures Stops(events) != [] ==> events != []
  {
  }

  /** A call falls back exactly when it has not before, there is a model to fall back to,
      and the first try failed in a way another model may get round; what it then answers
      is what that model answers to the same request. */
  lemma FallsBackExactly(chat: ChatModel, m: Models, p: Progress, r: Request)
    ensures var (outcome, after) := ChatVia(chat, m, p, r);
      var sentModel := if p.fellBack && m.fallback.Some? then m.fallback.value else r.model;
      var first := chat(|p.sent|, r.(model := sentModel));
      var falls := !p.fellBack && first == Failure(true) && m.fallback.Some? && m.fallback.value != "";
      if falls then
        && after == Progress(true, p.sent + [r, r.(model := m.fallback.value)])
        && outcome == chat(|p.sent| + 1, r.(model := m.fallback.value))
      else after == Progress(p.fellBack, p.sent + [r.(model := sentModel)]) && outcome == first
  {
    assert r.(model := r.model) == r;
    assert |p.sent + [r]| == |p.sent| + 1;
    if m.fallback.Some? { assert p.sent + [r] + [r.(model := m.fallback.value)] == p.sent + [r, r.(model := m.fallback.value)]; }
  }

  /** A stream does the same, but only while it has yielded nothing. */
  lemma StreamFallsBackExactly(stream: StreamModel, m: Models, p: Progress, r: Request)
    ensures var (events, after) := StreamVia(stream, m, p, r);
      var sentModel := if p.fellBack && m.fallback.Some? then m.fallback.value else r.model;
      var first := stream(|p.sent|, r.(model := sentModel));
      var falls := !p.fellBack && first == Stream([], Some(true)) && m.fallback.Some? && m.fallback.value != "";
      if falls then
        && after == Progress(true, p.sent + [r, r.(model := m.fallback.value)])
        && events == stream(|p.sent| + 1, r.(model := m.fallback.value))
      else after == Progress(p.fellBack, p.sent + [r.(model := sentModel)]) && events == first
  {
    assert r.(model := r.model) == r;
    assert |p.sent + [r]| == |p.sent| + 1;
    if m.fallback.Some? { assert p.sent + [r] + [r.(model := m.fallback.value)] == p.sent + [r, r.(model := m.fallback.value)]; }
  }

  /** After `asked` requests for the primary model: the models that were tried are
      the primary's for a while and then the fallback's for good, with one extra
      call for the one switch. */
  ghost predicate OneSwitch(m: Models, p: Progress, asked: nat) {
    exists k: nat :: SwitchedAt(m, p, asked, k)
  }

  ghost predicate SwitchedAt(m: Models, p: Progress, asked: nat, k: nat) {
    && k <= |p.sent| == asked + (if p.fellBack then 1 else 0)
    && (p.fellBack ==> HasFallback(m) && k < |p.sent|)
    && (!p.fellBack ==> k == |p.sent|)
    && (forall i :: 0 <= i < k ==> p.sent[i].model == m.primary)
    && (forall i :: k <= i < |p.sent| ==> p.sent[i].model == m.fallback.GetOr(""))
  }

  /** What one call of either kind does to the progress. */
  predicate Follows(m: Models, p: Progress, r: Request, after: Progress) {
    || after == Sent(m, p, r)
    || (!p.fellBack && HasFallback(m) && after == Sent(m, Sent(m, p, r).(fellBack := true), r))
  }

  lemma ChatFollows(chat: ChatModel, m: Models, p: Progress, r: Request)
    ensures Follows(m, p, r, ChatVia(chat, m, p, r).1)
  {
  }

  lemma StreamFollows(stream: StreamModel, m: Models, p: Progress, r: Request)
    ensures Follows(m, p, r, StreamVia(stream, m, p, r).1)
  {
  }

  lemma SwitchesOnce(m: Models, p: Progress, asked: nat, r: Request, after: Progress)
    requires OneSwitch(m, p, asked) && r.model == m.primary && Follows(m, p, r, after)
    ensures OneSwitch(m, after, asked + 1)
  {
    var k: nat :| SwitchedAt(m, p, asked, k);
    assert SwitchedAt(m, after, asked + 1, if p.fellBack then k else |p.sent| + 1);
  }

  lemma UnusedHasNotSwitched(m: Models)
    ensures OneSwitch(m, UNUSED, 0)
  {
    assert SwitchedAt(m, UNUSED, 0, 0);
  }
}
