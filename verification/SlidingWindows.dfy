/** backend/src/core/rate_limit.py: one sliding window, three ways to keep it.
    Times are reals; a hit is young while less than `window` has passed. */
module SlidingWindows {
  import opened Prelude

  type Hits = seq<real>

  datatype Answer = Accepted | Refused(retryAfter: real)

  predicate Young(t: real, now: real, window: real) { now - t < window }

  function AtLeastZero(x: real): real { if x > 0.0 then x else 0.0 }

  ghost predicate Sorted(log: Hits) {
    forall i, j :: 0 <= i <= j < |log| ==> log[i] <= log[j]
  }

  /** No hit lies after `now`. */
  predicate Past(log: Hits, now: real) {
    forall i :: 0 <= i < |log| ==> log[i] <= now
  }

  // ------------------------------------------------ the meaning: a full log

  function YoungHits(log: Hits, now: real, window: real): (young: Hits)
    ensures forall i :: 0 <= i < |young| ==> Young(young[i], now, window)
  {
    if log == [] then []
    else if Young(log[0], now, window) then [log[0]] + YoungHits(log[1..], now, window)
    else YoungHits(log[1..], now, window)
  }

  /** Count the accepted hits younger than the window; when they fill the limit,
      wait for the first of them to age out. */
  function LogAnswer(log: Hits, limit: nat, now: real, window: real): Answer
    requires limit >= 1
  {
    var young := YoungHits(log, now, window);
    if |young| >= limit then Refused(AtLeastZero(window - (now - young[0]))) else Accepted
  }

  function LogAfter(log: Hits, limit: nat, now: real, window: real): Hits
    requires limit >= 1
  {
    if LogAnswer(log, limit, now, window).Accepted? then log + [now] else log
  }

  /** The places of the hits less than a window old. */
  ghost function YoungPlaces(log: Hits, now: real, window: real): set<nat> {
    set i: nat | i < |log| && now - log[i] < window
  }

  lemma {:induction false} YoungAppended(log: Hits, hit: real, now: real, window: real)
    ensures YoungHits(log + [hit], now, window) == YoungHits(log, now, window) + (if now - hit < window then [hit] else [])
  {
    if log == [] {
      assert log + [hit] == [hit];
    } else {
      assert (log + [hit])[1..] == log[1..] + [hit];
      YoungAppended(log[1..], hit, now, window);
    }
  }

  lemma {:induction false} YoungHitsAreCounted(log: Hits, now: real, window: real)
    ensures |YoungHits(log, now, window)| == |YoungPlaces(log, now, window)|
  {
    if log == [] {
      assert YoungPlaces(log, now, window) == {};
    } else {
      var n := |log| - 1;
      assert log == log[..n] + [log[n]];
      YoungHitsAreCounted(log[..n], now, window);
      YoungAppended(log[..n], log[n], now, window);
      assert YoungPlaces(log, now, window) == YoungPlaces(log[..n], now, window) + if now - log[n] < window then {n} else {};
    }
  }

  /** A check is accepted exactly while fewer than `limit` accepted hits are less than a
      window old. */
  lemma AcceptedIffRoom(log: Hits, limit: nat, now: real, window: real)
    requires limit >= 1
    ensures LogAnswer(log, limit, now, window) == Accepted <==> |YoungPlaces(log, now, window)| < limit
    ensures LogAfter(log, limit, now, window) == if |YoungPlaces(log, now, window)| < limit then log + [now] else log
  {
    YoungHitsAreCounted(log, now, window);
  }

  // ------------------------------------------------------- the pruned deque

  function Pruned(hits: Hits, now: real, window: real): Hits {
    if hits == [] || Young(hits[0], now, window) then hits else Pruned(hits[1..], now, window)
  }

  function DequeAnswer(hits: Hits, limit: nat, now: real, window: real): Answer
    requires limit >= 1
  {
    var kept := Pruned(hits, now, window);
    if |kept| >= limit then Refused(AtLeastZero(window - (now - kept[0]))) else Accepted
  }

  function DequeAfter(hits: Hits, limit: nat, now: real, window: real): Hits
    requires limit >= 1
  {
    var kept := Pruned(hits, now, window);
    if |kept| >= limit then kept else kept + [now]
  }

  /** The sweep drops a key that is empty or idle for longer than `span`. */
  function SweptHits(hits: Hits, now: real, span: real): Hits {
    if hits == [] || now - hits[|hits| - 1] > span then [] else hits
  }

  // ------------------------------------------------------- the Redis script

  /** A sorted set of scores, and when PEXPIRE will drop its key. */
  datatype Stored = Stored(scores: Hits, expiresAt: Option<real>)

  const ABSENT: Stored := Stored([], None)

  function Living(s: Stored, now: real): Stored {
    if s.expiresAt.Some? && s.expiresAt.value <= now then ABSENT else s
  }

  /** ZREMRANGEBYSCORE key lo hi. */
  function WithoutRange(scores: Hits, lo: real, hi: real): Hits {
    if scores == [] then []
    else if lo <= scores[0] <= hi then WithoutRange(scores[1..], lo, hi)
    else [scores[0]] + WithoutRange(scores[1..], lo, hi)
  }

  /** ZADD: the set stays in score order. */
  function WithScore(scores: Hits, score: real): Hits {
    if scores != [] && scores[0] <= score then [scores[0]] + WithScore(scores[1..], score) else [score] + scores
  }

  /** math.ceil(window * 1000) milliseconds, in seconds. */
  function ExpirySeconds(window: real): (seconds: real)
    ensures window <= seconds < window + 0.001
  {
    var ms := window * 1000.0;
    var floor := ms.Floor;
    (if floor as real == ms then floor else floor + 1) as real / 1000.0
  }

  function ScriptAnswer(s: Stored, limit: nat, now: real, window: real): Answer
    requires limit >= 1
  {
    var scores := WithoutRange(Living(s, now).scores, 0.0, now - window);
    if |scores| >= limit then Refused(AtLeastZero(window - (now - scores[0]))) else Accepted
  }

  function ScriptAfter(s: Stored, limit: nat, now: real, window: real): Stored
    requires limit >= 1
  {
    var living := Living(s, now);
    var scores := WithoutRange(living.scores, 0.0, now - window);
    if |scores| >= limit then living.(scores := scores)
    else Stored(WithScore(scores, now), Some(now + ExpirySeconds(window)))
  }

  // ------------------------------------------------------------ facts of each

  lemma {:induction false} PrunedIsYoung(log: Hits, now: real, window: real)
    requires Sorted(log)
    ensures YoungHits(log, now, window) == Pruned(log, now, window)
  {
    if log != [] {
      PrunedIsYoung(log[1..], now, window);
      if Young(log[0], now, window) { AllYoung(log, now, window); }
    }
  }

  lemma {:induction false} AllYoung(log: Hits, now: real, window: real)
    requires forall i :: 0 <= i < |log| ==> Young(log[i], now, window)
    ensures YoungHits(log, now, window) == log
  {
    if log != [] { AllYoung(log[1..], now, window); }
  }

  /** Pruning early loses nothing that a later pruning would keep. */
  lemma {:induction false} PruneTwice(hits: Hits, early: real, late: real, window: real)
    requires early <= late
    ensures Pruned(Pruned(hits, early, window), late, window) == Pruned(hits, late, window)
  {
    if hits != [] && !Young(hits[0], early, window) { PruneTwice(hits[1..], early, late, window); }
  }

  lemma {:induction false} PruneAppended(hits: Hits, hit: real, now: real, window: real)
    ensures Pruned(hits + [hit], now, window)
         == if Pruned(hits, now, window) == [] then Pruned([hit], now, window) else Pruned(hits, now, window) + [hit]
  {
    if hits == [] {
      assert hits + [hit] == [hit];
    } else {
      assert (hits + [hit])[1..] == hits[1..] + [hit];
      PruneAppended(hits[1..], hit, now, window);
    }
  }

  lemma {:induction false} AllAged(hits: Hits, now: real, window: real)
    requires forall i :: 0 <= i < |hits| ==> !Young(hits[i], now, window)
    ensures Pruned(hits, now, window) == []
  {
    if hits != [] { AllAged(hits[1..], now, window); }
  }

  lemma {:induction false} RangeIsPrune(scores: Hits, now: real, window: real)
    requires Sorted(scores) && forall i :: 0 <= i < |scores| ==> scores[i] >= 0.0
    ensures WithoutRange(scores, 0.0, now - window) == Pruned(scores, now, window)
  {
    if scores != [] {
      if Young(scores[0], now, window) { NothingInRange(scores, now - window); }
      else { RangeIsPrune(scores[1..], now, window); }
    }
  }

  lemma {:induction false} NothingInRange(scores: Hits, hi: real)
    requires forall i :: 0 <= i < |scores| ==> scores[i] > hi
    ensures WithoutRange(scores, 0.0, hi) == scores
  {
    if scores != [] { NothingInRange(scores[1..], hi); }
  }

  lemma {:induction false} NewestGoesLast(scores: Hits, score: real)
    requires Past(scores, score)
    ensures WithScore(scores, score) == scores + [score]
  {
    if scores != [] { NewestGoesLast(scores[1..], score); }
  }

  lemma {:induction false} PrunedIsSuffix(hits: Hits, now: real, window: real)
    ensures |Pruned(hits, now, window)| <= |hits|
    ensures Pruned(hits, now, window) == hits[|hits| - |Pruned(hits, now, window)|..]
    ensures Pruned(hits, now, window) != [] ==> Young(Pruned(hits, now, window)[0], now, window)
    ensures forall i :: 0 <= i < |hits| - |Pruned(hits, now, window)| ==> !Young(hits[i], now, window)
  {
    if hits != [] && !Young(hits[0], now, window) {
      var rest := hits[1..];
      PrunedIsSuffix(rest, now, window);
      var k := |Pruned(rest, now, window)|;
      assert rest[|rest| - k..] == hits[|hits| - k..];
      assert forall i :: 1 <= i < |hits| ==> hits[i] == rest[i - 1];
    }
  }

  // ----------------------------------------------------------- whole histories

  datatype Event = Check(at: real) | Sweep(at: real)

  ghost predicate InOrder(events: seq<Event>, start: real) {
    events != [] ==> start <= events[0].at && InOrder(events[1..], events[0].at)
  }

  function LogRun(log: Hits, limit: nat, window: real, events: seq<Event>): seq<Answer>
    requires limit >= 1
    decreases |events|
  {
    if events == [] then []
    else match events[0]
      case Sweep(_) => LogRun(log, limit, window, events[1..])
      case Check(now) => [LogAnswer(log, limit, now, window)] + LogRun(LogAfter(log, limit, now, window), limit, window, events[1..])
  }

  function DequeRun(hits: Hits, limit: nat, window: real, span: real, events: seq<Event>): seq<Answer>
    requires limit >= 1
    decreases |events|
  {
    if events == [] then []
    else match events[0]
      case Sweep(now) => DequeRun(SweptHits(hits, now, span), limit, window, span, events[1..])
      case Check(now) => [DequeAnswer(hits, limit, now, window)] + DequeRun(DequeAfter(hits, limit, now, window), limit, window, span, events[1..])
  }

  function ScriptRun(s: Stored, limit: nat, window: real, events: seq<Event>): seq<Answer>
    requires limit >= 1
    decreases |events|
  {
    if events == [] then []
    else match events[0]
      case Sweep(_) => ScriptRun(s, limit, window, events[1..])
      case Check(now) => [ScriptAnswer(s, limit, now, window)] + ScriptRun(ScriptAfter(s, limit, now, window), limit, window, events[1..])
  }

  ghost predicate LogOk(log: Hits, at: real) {
    Sorted(log) && Past(log, at) && forall i :: 0 <= i < |log| ==> log[i] >= 0.0
  }

  /** The deque agrees with the log about everything still young. */
  ghost predicate Tracks(hits: Hits, log: Hits, at: real, window: real) {
    && Past(hits, at)
    && forall t {:trigger Pruned(hits, t, window)} :: at <= t ==> Pruned(hits, t, window) == Pruned(log, t, window)
  }

  lemma LogStepOk(log: Hits, limit: nat, at: real, now: real, window: real)
    requires LogOk(log, at) && 0.0 <= at <= now && limit >= 1
    ensures LogOk(LogAfter(log, limit, now, window), now)
  {
  }

  lemma TracksCheck(hits: Hits, log: Hits, limit: nat, at: real, now: real, window: real)
    requires limit >= 1 && at <= now && Tracks(hits, log, at, window) && LogOk(log, at)
    ensures DequeAnswer(hits, limit, now, window) == LogAnswer(log, limit, now, window)
    ensures Tracks(DequeAfter(hits, limit, now, window), LogAfter(log, limit, now, window), now, window)
  {
    PrunedIsYoung(log, now, window);
    var kept := Pruned(hits, now, window);
    PrunedIsSuffix(hits, now, window);
    forall t | now <= t
      ensures Pruned(DequeAfter(hits, limit, now, window), t, window) == Pruned(LogAfter(log, limit, now, window), t, window)
    {
      PruneTwice(hits, now, t, window);
      PruneAppended(kept, now, t, window);
      PruneAppended(log, now, t, window);
    }
  }

  lemma TracksSweep(hits: Hits, log: Hits, at: real, now: real, window: real, span: real)
    requires at <= now && window <= span && Tracks(hits, log, at, window) && Sorted(hits)
    ensures Tracks(SweptHits(hits, now, span), log, now, window)
  {
    if SweptHits(hits, now, span) != hits {
      forall t | now <= t ensures Pruned([], t, window) == Pruned(log, t, window) {
        AllAged(hits, t, window);
      }
    }
  }

  /** The stored set tracks the log, and its expiry comes only after everything
      in it has aged out. */
  ghost predicate StoreOk(s: Stored, log: Hits, at: real, window: real) {
    && LogOk(s.scores, at)
    && Tracks(s.scores, log, at, window)
    && (s.expiresAt.Some? ==> forall i :: 0 <= i < |s.scores| ==> s.scores[i] + window <= s.expiresAt.value)
  }

  lemma LivingTracks(s: Stored, log: Hits, at: real, now: real, window: real)
    requires 0.0 <= at <= now && StoreOk(s, log, at, window)
    ensures StoreOk(Living(s, now), log, now, window)
  {
    if Living(s, now) != s {
      forall t | now <= t ensures Pruned([], t, window) == Pruned(log, t, window) {
        AllAged(s.scores, t, window);
      }
    }
  }

  /** The script keeps what the deque keeps. */
  lemma ScriptIsDeque(living: Stored, limit: nat, now: real, window: real)
    requires limit >= 1 && LogOk(living.scores, now)
    ensures WithoutRange(living.scores, 0.0, now - window) == Pruned(living.scores, now, window)
    ensures WithScore(Pruned(living.scores, now, window), now) == Pruned(living.scores, now, window) + [now]
  {
    RangeIsPrune(living.scores, now, window);
    PrunedIsSuffix(living.scores, now, window);
    NewestGoesLast(Pruned(living.scores, now, window), now);
  }

  lemma PrunedStaysOk(hits: Hits, now: real, window: real, bound: real)
    requires LogOk(hits, now)
    ensures LogOk(Pruned(hits, now, window), now)
    ensures (forall i :: 0 <= i < |hits| ==> hits[i] <= bound)
      ==> forall i :: 0 <= i < |Pruned(hits, now, window)| ==> Pruned(hits, now, window)[i] <= bound
  {
    PrunedIsSuffix(hits, now, window);
  }

  lemma StoreCheck(s: Stored, log: Hits, limit: nat, at: real, now: real, window: real)
    requires limit >= 1 && 0.0 <= at <= now && StoreOk(s, log, at, window) && LogOk(log, at)
    ensures ScriptAnswer(s, limit, now, window) == LogAnswer(log, limit, now, window)
    ensures StoreOk(ScriptAfter(s, limit, now, window), LogAfter(log, limit, now, window), now, window)
  {
    hide Pruned, WithoutRange, WithScore, Living, LogAnswer, LogAfter, Tracks;
    var living := Living(s, now);
    LivingTracks(s, log, at, now, window);
    ScriptIsDeque(living, limit, now, window);
    TracksCheck(living.scores, log, limit, now, now, window);
    PrunedStaysOk(living.scores, now, window, living.expiresAt.GetOr(0.0) - window);
    PrunedStaysOk(living.scores, now, window, now);
  }

  lemma SortedAfterCheck(hits: Hits, limit: nat, now: real, window: real)
    requires limit >= 1 && Sorted(hits) && Past(hits, now)
    ensures Sorted(DequeAfter(hits, limit, now, window))
  {
    PrunedIsSuffix(hits, now, window);
  }

  /** Three limiters, one meaning: the pruned deque with sweeps anywhere, the
      Redis script with its key expiry, and the count over the full log give the
      same answers and the same waits. */
  lemma {:induction false} AllThreeAgree(hits: Hits, s: Stored, log: Hits, limit: nat, window: real, span: real,
                                         at: real, events: seq<Event>)
    requires limit >= 1 && window <= span && 0.0 <= at && InOrder(events, at)
    requires LogOk(log, at) && Sorted(hits) && Tracks(hits, log, at, window) && StoreOk(s, log, at, window)
    ensures DequeRun(hits, limit, window, span, events) == LogRun(log, limit, window, events)
    ensures ScriptRun(s, limit, window, events) == LogRun(log, limit, window, events)
    decreases |events|
  {
    if events != [] {
      var now := events[0].at;
      match events[0]
      case Sweep(_) =>
        TracksSweep(hits, log, at, now, window, span);
        AllThreeAgree(SweptHits(hits, now, span), s, log, limit, window, span, now, events[1..]);
      case Check(_) =>
        TracksCheck(hits, log, limit, at, now, window);
        StoreCheck(s, log, limit, at, now, window);
        LogStepOk(log, limit, at, now, window);
        SortedAfterCheck(hits, limit, now, window);
        AllThreeAgree(DequeAfter(hits, limit, now, window), ScriptAfter(s, limit, now, window),
                      LogAfter(log, limit, now, window), limit, window, span, now, events[1..]);
    }
  }

  lemma LimitersAgree(limit: nat, window: real, span: real, events: seq<Event>)
    requires limit >= 1 && window <= span && InOrder(events, 0.0)
    ensures DequeRun([], limit, window, span, events) == LogRun([], limit, window, events)
    ensures ScriptRun(ABSENT, limit, window, events) == LogRun([], limit, window, events)
  {
    AllThreeAgree([], ABSENT, [], limit, window, span, 0.0, events);
  }

  // ------------------------------------------------------------------- safety

  function AcceptedLog(log: Hits, limit: nat, window: real, events: seq<Event>): Hits
    requires limit >= 1
    decreases |events|
  {
    if events == [] then log
    else match events[0]
      case Sweep(_) => AcceptedLog(log, limit, window, events[1..])
      case Check(now) => AcceptedLog(LogAfter(log, limit, now, window), limit, window, events[1..])
  }

  /** Any hit and the one `limit` places later are at least a window apart. */
  ghost predicate Spaced(log: Hits, limit: nat, window: real) {
    forall i :: 0 <= i < |log| - limit ==> log[i + limit] - log[i] >= window
  }

  lemma SpacedAt(log: Hits, limit: nat, window: real, i: nat)
    requires Spaced(log, limit, window) && i + limit < |log|
    ensures log[i + limit] - log[i] >= window
  {
  }

  lemma AcceptanceKeepsSpacing(log: Hits, limit: nat, at: real, now: real, window: real)
    requires limit >= 1 && at <= now && LogOk(log, at) && Spaced(log, limit, window)
    ensures Spaced(LogAfter(log, limit, now, window), limit, window)
  {
    PrunedIsYoung(log, now, window);
    PrunedIsSuffix(log, now, window);
  }

  lemma {:induction false} RunIsSpaced(log: Hits, limit: nat, window: real, at: real, events: seq<Event>)
    requires limit >= 1 && 0.0 <= at && InOrder(events, at) && LogOk(log, at) && Spaced(log, limit, window)
    ensures Sorted(AcceptedLog(log, limit, window, events))
    ensures Spaced(AcceptedLog(log, limit, window, events), limit, window)
    decreases |events|
  {
    if events != [] {
      var now := events[0].at;
      match events[0]
      case Sweep(_) => RunIsSpaced(log, limit, window, now, events[1..]);
      case Check(_) =>
        LogStepOk(log, limit, at, now, window);
        AcceptanceKeepsSpacing(log, limit, at, now, window);
        RunIsSpaced(LogAfter(log, limit, now, window), limit, window, now, events[1..]);
    }
  }

  /** The accepted hits inside a half-open interval, by their place in the log. */
  ghost function HitsWithin(log: Hits, from: real, until: real): set<nat> {
    set i: nat | i < |log| && from <= log[i] < until
  }

  function Places(lo: nat, n: nat): (places: set<nat>)
    ensures |places| == n
    ensures forall i :: i in places <==> lo <= i < lo + n
  {
    if n == 0 then {} else Places(lo, n - 1) + {lo + n - 1}
  }

  lemma SubsetSize(part: set<nat>, whole: set<nat>)
    requires part <= whole
    ensures |part| <= |whole|
  {
    assert whole == part + (whole - part);
  }

  lemma WindowHoldsAtMostLimit(log: Hits, limit: nat, window: real, from: real)
    requires limit >= 1 && Sorted(log) && Spaced(log, limit, window)
    ensures |HitsWithin(log, from, from + window)| <= limit
  {
    var within := HitsWithin(log, from, from + window);
    if within != {} {
      var first := 0;
      while log[first] < from
        invariant 0 <= first < |log| && forall i: nat :: i < first ==> log[i] < from
        invariant exists i :: i in within
        decreases |log| - first
      {
        var some :| some in within;
        first := first + 1;
        assert first <= some;
      }
      assert forall i :: first + limit <= i < |log| ==> log[first + limit] <= log[i];
      SubsetSize(within, Places(first, limit));
    }
  }

  /** Over any history of a key, no interval one window long holds more than
      `limit` accepted hits. */
  lemma NeverMoreThanLimit(limit: nat, window: real, events: seq<Event>, from: real)
    requires limit >= 1 && InOrder(events, 0.0)
    ensures |HitsWithin(AcceptedLog([], limit, window, events), from, from + window)| <= limit
  {
    RunIsSpaced([], limit, window, 0.0, events);
    WindowHoldsAtMostLimit(AcceptedLog([], limit, window, events), limit, window, from);
  }

  /** Of a sorted log, the hit `limit` places from the end decides. */
  lemma RefusedWhileYoung(log: Hits, limit: nat, window: real, now: real)
    requires limit >= 1 && Sorted(log)
    ensures LogAnswer(log, limit, now, window).Refused? <==> |log| >= limit && Young(log[|log| - limit], now, window)
  {
    PrunedIsYoung(log, now, window);
    PrunedIsSuffix(log, now, window);
  }

  /** While hits are spaced a refusal waits for that same hit. */
  lemma WaitsForTheDecidingHit(log: Hits, limit: nat, window: real, now: real)
    requires limit >= 1 && Sorted(log) && Past(log, now) && Spaced(log, limit, window)
    requires LogAnswer(log, limit, now, window).Refused?
    ensures |log| >= limit
    ensures LogAnswer(log, limit, now, window).retryAfter == window - (now - log[|log| - limit])
  {
    PrunedIsYoung(log, now, window);
    PrunedIsSuffix(log, now, window);
    var kept := Pruned(log, now, window);
    if |kept| > limit { SpacedAt(log, limit, window, |log| - |kept|); }
  }

  /** A refusal's wait is exact: with no other hit accepted, a check is refused
      at every moment before it has passed and accepted from then on. */
  lemma RetryAfterIsExact(limit: nat, window: real, events: seq<Event>, now: real, later: real)
    requires limit >= 1 && InOrder(events, 0.0) && now <= later
    requires Past(AcceptedLog([], limit, window, events), now)
    requires LogAnswer(AcceptedLog([], limit, window, events), limit, now, window).Refused?
    ensures var log := AcceptedLog([], limit, window, events);
      LogAnswer(log, limit, later, window).Refused?
      <==> later < now + LogAnswer(log, limit, now, window).retryAfter
  {
    hide AcceptedLog, LogAnswer;
    var log := AcceptedLog([], limit, window, events);
    RunIsSpaced([], limit, window, 0.0, events);
    RefusedWhileYoung(log, limit, window, later);
    WaitsForTheDecidingHit(log, limit, window, now);
  }
}
