/** The limiter as it runs: a dictionary of deques popped and appended in place,
    and the Redis keys the script works on. */
module RateLimiter {
  import opened Prelude
  import opened SlidingWindows

  const SWEEP_EVERY: nat := 1000

  class MemoryLimiter {
    var windows: map<string, Hits>
    var hitsSinceSweep: nat

    /** defaultdict(deque): a missing key is an empty window. */
    function HitsOf(key: string): Hits
      reads this
    {
      if key in windows then windows[key] else []
    }

    constructor ()
      ensures windows == map[] && hitsSinceSweep == 0
    {
      windows, hitsSinceSweep := map[], 0;
    }

    /** With a limit of 0 the source reads the first hit of an empty deque. */
    method CheckMemory(key: string, limit: nat, now: real, window: real) returns (answer: Answer)
      requires limit >= 1
      modifies this`windows
      ensures answer == DequeAnswer(old(HitsOf(key)), limit, now, window)
      ensures windows == old(windows)[key := DequeAfter(old(HitsOf(key)), limit, now, window)]
    {
      var hits := HitsOf(key);
      while hits != [] && now - hits[0] >= window
        invariant Pruned(hits, now, window) == Pruned(HitsOf(key), now, window)
        invariant windows == old(windows)
        decreases |hits|
      {
        hits := hits[1..];
      }
      if |hits| >= limit {
        windows := windows[key := hits];
        return Refused(AtLeastZero(window - (now - hits[0])));
      }
      windows := windows[key := hits + [now]];
      answer := Accepted;
    }

    /** Stale keys are listed first and deleted after. */
    method Sweep(now: real, span: real)
      modifies this`windows
      ensures forall key :: HitsOf(key) == SweptHits(old(HitsOf(key)), now, span)
      ensures forall key :: key in windows <==>
        (key in old(windows) && |old(windows)[key]| > 0 && now - old(windows)[key][|old(windows)[key]| - 1] <= span)
      ensures forall key :: key in windows ==> key in old(windows) && HitsOf(key) != []
    {
      var stale: set<string> := {};
      var remaining := windows.Keys;
      while remaining != {}
        invariant remaining <= windows.Keys && windows == old(windows)
        invariant stale == set key | key in windows && key !in remaining && SweptHits(windows[key], now, span) == []
        decreases remaining
      {
        var key :| key in remaining;
        var hits := windows[key];
        if hits == [] || now - hits[|hits| - 1] > span { stale := stale + {key}; }
        remaining := remaining - {key};
      }
      windows := windows - stale;
    }

    /** A refusal by the organization's window leaves the user's untouched; a
        refusal by the user's has already spent a hit of the organization's. */
    method Enforce(orgKey: string, userKey: string, orgLimit: nat, userLimit: nat, now: real, window: real, span: real)
      returns (answer: Answer)
      requires orgLimit >= 1 && userLimit >= 1 && orgKey != userKey && window <= span
      modifies this
      ensures hitsSinceSweep == if old(hitsSinceSweep) + 1 >= SWEEP_EVERY then 0 else old(hitsSinceSweep) + 1
      ensures var sweeps := old(hitsSinceSweep) + 1 >= SWEEP_EVERY;
        var org := if sweeps then SweptHits(old(HitsOf(orgKey)), now, span) else old(HitsOf(orgKey));
        var user := if sweeps then SweptHits(old(HitsOf(userKey)), now, span) else old(HitsOf(userKey));
        var orgAnswer := DequeAnswer(org, orgLimit, now, window);
        && answer == (if orgAnswer.Refused? then orgAnswer else DequeAnswer(user, userLimit, now, window))
        && HitsOf(orgKey) == DequeAfter(org, orgLimit, now, window)
        && HitsOf(userKey) == if orgAnswer.Refused? then user else DequeAfter(user, userLimit, now, window)
    {
      hitsSinceSweep := hitsSinceSweep + 1;
      if hitsSinceSweep >= SWEEP_EVERY {
        hitsSinceSweep := 0;
        Sweep(now, span);
      }
      answer := CheckMemory(orgKey, orgLimit, now, window);
      if answer.Refused? { return; }
      answer := CheckMemory(userKey, userLimit, now, window);
    }
  }

  class RedisStore {
    var keys: map<string, Stored>

    function Key(key: string): Stored
      reads this
    {
      if key in keys then keys[key] else ABSENT
    }

    constructor ()
      ensures keys == map[]
    {
      keys := map[];
    }

    /** EVAL of the sliding-window script, on a server that drops expired keys
        before it reads them. */
    method Eval(key: string, now: real, window: real, limit: nat) returns (answer: Answer)
      requires limit >= 1
      modifies this
      ensures answer == ScriptAnswer(old(Key(key)), limit, now, window)
      ensures Key(key) == ScriptAfter(old(Key(key)), limit, now, window)
      ensures forall other :: other != key ==> Key(other) == old(Key(other))
    {
      var stored := Living(Key(key), now);
      var scores := RemoveRange(stored.scores, 0.0, now - window);
      if |scores| >= limit {
        keys := keys[key := stored.(scores := scores)];
        return Refused(AtLeastZero(window - (now - scores[0])));
      }
      keys := keys[key := Stored(WithScore(scores, now), Some(now + ExpirySeconds(window)))];
      answer := Accepted;
    }
  }

  method RemoveRange(scores: Hits, lo: real, hi: real) returns (kept: Hits)
    ensures kept == WithoutRange(scores, lo, hi)
  {
    kept := [];
    for i := |scores| downto 0
      invariant kept == WithoutRange(scores[i..], lo, hi)
    {
      assert scores[i..][1..] == scores[i + 1..];
      if !(lo <= scores[i] <= hi) { kept := [scores[i]] + kept; }
    }
  }
}
