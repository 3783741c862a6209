/** The monthly token quota of backend/src/ai/orchestrator.py: the ledger of usage rows,
    the count of turns in flight, and how far a month can overshoot. One process;
    checking and beginning is one step, and so is recording and ending. */
module QuotaLedger {
  import opened Prelude

  type Org = nat
  type TurnId = nat

  /** _INFLIGHT_TURNS. */
  class InflightTurns {
    var turns: map<Org, int>

    constructor ()
      ensures turns == map[]
    {
      turns := map[];
    }

    method BeginTurn(org: Org)
      modifies this
      ensures Inflight(turns, org) == old(Inflight(turns, org)) + 1
      ensures forall other :: other != org ==> (other in turns <==> other in old(turns)) && Inflight(turns, other) == old(Inflight(turns, other))
      ensures turns == OneMore(old(turns), org)
    {
      turns := turns[org := Inflight(turns, org) + 1];
    }

    method EndTurn(org: Org)
      modifies this
      ensures Inflight(turns, org) == if old(Inflight(turns, org)) <= 1 then 0 else old(Inflight(turns, org)) - 1
      ensures org in turns ==> turns[org] >= 1
      ensures forall other :: other != org ==> (other in turns <==> other in old(turns)) && Inflight(turns, other) == old(Inflight(turns, other))
      ensures turns == OneLess(old(turns), org)
    {
      var remaining := Inflight(turns, org) - 1;
      if remaining <= 0 {
        turns := turns - {org};
      } else {
        turns := turns[org := remaining];
      }
    }

    /** _check_usage_quota: false is QuotaExceededException. */
    method CheckUsageQuota(org: Org, totalTokens: nat, reservation: nat, limit: Option<nat>) returns (passed: bool)
      ensures var running := if org in turns then turns[org] else 0;
        passed <==> limit.None? || totalTokens + running * reservation < limit.value
      ensures passed == Admits(totalTokens, Inflight(turns, org), reservation, limit)
    {
      if limit.None? { return true; }
      var reserved := Inflight(turns, org) * reservation;
      passed := !(totalTokens + reserved >= limit.value);
    }
  }

  function Inflight(turns: map<Org, int>, org: Org): int {
    if org in turns then turns[org] else 0
  }

  function OneMore(turns: map<Org, int>, org: Org): map<Org, int> {
    turns[org := Inflight(turns, org) + 1]
  }

  function OneLess(turns: map<Org, int>, org: Org): map<Org, int> {
    if Inflight(turns, org) <= 1 then turns - {org} else turns[org := Inflight(turns, org) - 1]
  }

  predicate Admits(total: nat, inflight: int, reservation: nat, limit: Option<nat>) {
    limit.Some? ==> total + inflight * reservation < limit.value
  }

  // ---------------------------------------------------------------- the month

  /** The month's tokens per organization, the counter, and the turns really running. */
  datatype Ledger = Ledger(used: map<Org, nat>, inflight: map<Org, int>, running: map<TurnId, Org>)

  datatype Plan = Plan(reservation: nat, limits: map<Org, nat>)

  datatype Action =
    | Begin(turn: TurnId, org: Org)
    | End(turn: TurnId, cost: nat)

  function Used(l: Ledger, org: Org): nat {
    if org in l.used then l.used[org] else 0
  }

  function LimitOf(p: Plan, org: Org): Option<nat> {
    if org in p.limits then Some(p.limits[org]) else None
  }

  function RunningFor(l: Ledger, org: Org): set<TurnId> {
    set turn | turn in l.running && l.running[turn] == org
  }

  predicate MayBegin(p: Plan, l: Ledger, turn: TurnId, org: Org) {
    turn !in l.running && Admits(Used(l, org), Inflight(l.inflight, org), p.reservation, LimitOf(p, org))
  }

  function Apply(p: Plan, l: Ledger, a: Action): Ledger {
    match a
    case Begin(turn, org) =>
      if !MayBegin(p, l, turn, org) then l
      else Ledger(l.used, OneMore(l.inflight, org), l.running[turn := org])
    case End(turn, cost) =>
      if turn !in l.running then l
      else
        var org := l.running[turn];
        Ledger(l.used[org := Used(l, org) + cost], OneLess(l.inflight, org), l.running - {turn})
  }

  function Play(p: Plan, l: Ledger, actions: seq<Action>): Ledger
    decreases |actions|
  {
    if actions == [] then l else Play(p, Apply(p, l, actions[0]), actions[1..])
  }

  predicate CostsAtMost(actions: seq<Action>, most: nat) {
    forall i :: 0 <= i < |actions| && actions[i].End? ==> actions[i].cost <= most
  }

  predicate CountsFor(l: Ledger, org: Org) {
    Inflight(l.inflight, org) == |RunningFor(l, org)| && (org in l.inflight ==> l.inflight[org] > 0)
  }

  /** The counter counts: it is the number of turns begun and not ended, and an
      organization with none is not in it. */
  ghost predicate Counts(l: Ledger) {
    forall org :: CountsFor(l, org)
  }

  lemma BeginKeepsCounts(l: Ledger, turn: TurnId, started: Org, org: Org)
    requires turn !in l.running && CountsFor(l, org)
    ensures CountsFor(Ledger(l.used, OneMore(l.inflight, started), l.running[turn := started]), org)
  {
    var after := Ledger(l.used, OneMore(l.inflight, started), l.running[turn := started]);
    if org == started {
      assert RunningFor(after, org) == RunningFor(l, org) + {turn};
    } else {
      assert RunningFor(after, org) == RunningFor(l, org);
    }
  }

  lemma EndKeepsCounts(l: Ledger, turn: TurnId, used: map<Org, nat>, org: Org)
    requires turn in l.running && CountsFor(l, org)
    ensures CountsFor(Ledger(used, OneLess(l.inflight, l.running[turn]), l.running - {turn}), org)
  {
    var after := Ledger(used, OneLess(l.inflight, l.running[turn]), l.running - {turn});
    if org == l.running[turn] {
      assert turn in RunningFor(l, org);
      assert RunningFor(after, org) == RunningFor(l, org) - {turn};
    } else {
      assert RunningFor(after, org) == RunningFor(l, org);
    }
  }

  lemma ApplyKeepsCounts(p: Plan, l: Ledger, a: Action)
    requires Counts(l)
    ensures Counts(Apply(p, l, a))
  {
    forall org ensures CountsFor(Apply(p, l, a), org) {
      assert CountsFor(l, org);
      hide CountsFor;
      if a.Begin? && MayBegin(p, l, a.turn, a.org) { BeginKeepsCounts(l, a.turn, a.org, org); }
      if a.End? && a.turn in l.running {
        EndKeepsCounts(l, a.turn, l.used[l.running[a.turn] := Used(l, l.running[a.turn]) + a.cost], org);
      }
    }
  }

  lemma {:induction false} PlayKeepsCounts(p: Plan, l: Ledger, actions: seq<Action>)
    requires Counts(l)
    ensures Counts(Play(p, l, actions))
    decreases |actions|
  {
    if actions != [] {
      ApplyKeepsCounts(p, l, actions[0]);
      PlayKeepsCounts(p, Apply(p, l, actions[0]), actions[1..]);
    }
  }

  // ---------------------------------------------------------------- the overshoot

  /** Tokens spent and tokens reserved stay within `most`. */
  predicate Within(p: Plan, l: Ledger, org: Org, most: nat) {
    Used(l, org) + Inflight(l.inflight, org) * p.reservation <= most
  }

  function Worst(p: Plan, start: Ledger, org: Org): nat
    requires org in p.limits
  {
    var most := p.limits[org] + p.reservation;
    if Used(start, org) >= most then Used(start, org) else most - 1
  }

  lemma Times(n: int, r: nat)
    ensures (n + 1) * r == n * r + r && (n - 1) * r == n * r - r
  {
  }

  lemma ApplyKeepsWithin(p: Plan, l: Ledger, a: Action, org: Org, most: nat)
    requires Counts(l) && org in p.limits && Within(p, l, org, most) && p.limits[org] + p.reservation <= most + 1
    requires a.End? ==> a.cost <= p.reservation
    ensures Within(p, Apply(p, l, a), org, most)
  {
    var n := Inflight(l.inflight, org);
    assert CountsFor(l, org);
    Times(n, p.reservation);
    if a.End? && a.turn in l.running && l.running[a.turn] == org {
      assert a.turn in RunningFor(l, org);
      assert n >= 1;
      assert Inflight(OneLess(l.inflight, org), org) == n - 1;
    }
  }

  lemma {:induction false} PlayKeepsWithin(p: Plan, l: Ledger, actions: seq<Action>, org: Org, most: nat)
    requires Counts(l) && org in p.limits && Within(p, l, org, most) && p.limits[org] + p.reservation <= most + 1
    requires CostsAtMost(actions, p.reservation)
    ensures Within(p, Play(p, l, actions), org, most) && Counts(Play(p, l, actions))
    decreases |actions|
  {
    if actions != [] {
      ApplyKeepsCounts(p, l, actions[0]);
      ApplyKeepsWithin(p, l, actions[0], org, most);
      PlayKeepsWithin(p, Apply(p, l, actions[0]), actions[1..], org, most);
    }
  }

  /** Whatever turns begin and end in whatever order, if each costs at most the
      reservation a month never reaches limit + reservation (unless it had already). */
  lemma OvershootIsBounded(p: Plan, used: map<Org, nat>, actions: seq<Action>, org: Org)
    requires org in p.limits && CostsAtMost(actions, p.reservation)
    ensures var start := Ledger(used, map[], map[]);
      Used(Play(p, start, actions), org) <= Worst(p, start, org)
  {
    var start := Ledger(used, map[], map[]);
    forall o ensures CountsFor(start, o) { assert RunningFor(start, o) == {}; }
    PlayKeepsWithin(p, start, actions, org, Worst(p, start, org));
    var end := Play(p, start, actions);
    assert CountsFor(end, org);
    assert Inflight(end.inflight, org) * p.reservation >= 0;
  }

  /** The reservation is what bounds it: below the limit by one token, no run of turns
      costing at most `most` reaches limit + reservation exactly when `most` is at
      most the reservation. */
  lemma BoundedIffReservationCovers(p: Plan, org: Org, most: nat)
    requires org in p.limits && p.limits[org] >= 1
    ensures var start := Ledger(map[org := p.limits[org] - 1], map[], map[]);
      (forall actions :: CostsAtMost(actions, most) ==> Used(Play(p, start, actions), org) < p.limits[org] + p.reservation)
      <==> most <= p.reservation
  {
    var start := Ledger(map[org := p.limits[org] - 1], map[], map[]);
    if most <= p.reservation {
      forall actions | CostsAtMost(actions, most) ensures Used(Play(p, start, actions), org) < p.limits[org] + p.reservation {
        assert CostsAtMost(actions, p.reservation);
        OvershootIsBounded(p, start.used, actions, org);
      }
    } else {
      var actions := [Begin(0, org), End(0, most)];
      var begun := Apply(p, start, actions[0]);
      assert actions[1..] == [End(0, most)] && actions[1..][1..] == [];
      assert MayBegin(p, start, 0, org) && 0 in begun.running;
      assert Play(p, start, actions) == Play(p, begun, actions[1..]) == Play(p, Apply(p, begun, End(0, most)), []);
      assert CostsAtMost(actions, most);
      assert Used(Play(p, start, actions), org) == p.limits[org] - 1 + most;
    }
  }

  // ------------------------------------------------- a check in two readings

  /** Beginning on a total that was read a moment earlier, as the check does when it
      awaits the database between the total and the count in flight. */
  function BeginOnTotal(p: Plan, l: Ledger, turn: TurnId, org: Org, total: nat): Ledger {
    if turn in l.running || !Admits(total, Inflight(l.inflight, org), p.reservation, LimitOf(p, org)) then l
    else Ledger(l.used, OneMore(l.inflight, org), l.running[turn := org])
  }

  /** Spent and reserved together are still below limit + reservation. */
  predicate Bounded(p: Plan, l: Ledger, org: Org)
    requires org in p.limits
  {
    Used(l, org) + Inflight(l.inflight, org) * p.reservation < p.limits[org] + p.reservation
  }

  /** A stale total does no harm where it refuses, or where the total of this moment
      would have admitted the turn too. */
  predicate Harmless(p: Plan, l: Ledger, turn: TurnId, org: Org, total: nat) {
    var inflight, limit := Inflight(l.inflight, org), LimitOf(p, org);
    turn in l.running || !Admits(total, inflight, p.reservation, limit) || Admits(Used(l, org), inflight, p.reservation, limit)
  }

  lemma StaleTotalKeepsBoundIff(p: Plan, l: Ledger, turn: TurnId, org: Org, total: nat)
    requires org in p.limits && Counts(l) && Bounded(p, l, org)
    ensures Counts(BeginOnTotal(p, l, turn, org, total))
    ensures Bounded(p, BeginOnTotal(p, l, turn, org, total), org) <==> Harmless(p, l, turn, org, total)
  {
    Times(Inflight(l.inflight, org), p.reservation);
    assert CountsFor(l, org);
    var after := BeginOnTotal(p, l, turn, org, total);
    if after != l {
      forall o ensures CountsFor(after, o) {
        assert CountsFor(l, o);
        BeginKeepsCounts(l, turn, org, o);
      }
      assert Inflight(after.inflight, org) == Inflight(l.inflight, org) + 1;
    }
  }

  /** Ending every turn of an organization, each at the cost of a reservation. */
  ghost function Drained(p: Plan, l: Ledger, org: Org): (actions: seq<Action>)
    ensures CostsAtMost(actions, p.reservation)
    decreases l.running
  {
    if RunningFor(l, org) == {} then []
    else
      var turn :| turn in RunningFor(l, org);
      assert (l.running - {turn}).Keys < l.running.Keys;
      [End(turn, p.reservation)] + Drained(p, Apply(p, l, End(turn, p.reservation)), org)
  }

  lemma {:induction false} DrainingSpendsReserved(p: Plan, l: Ledger, org: Org)
    requires Counts(l)
    ensures Used(Play(p, l, Drained(p, l, org)), org) == Used(l, org) + Inflight(l.inflight, org) * p.reservation
    decreases l.running
  {
    assert CountsFor(l, org);
    if RunningFor(l, org) != {} {
      var first := Drained(p, l, org)[0];
      var next := Apply(p, l, first);
      assert first.turn in RunningFor(l, org);
      assert Drained(p, l, org)[1..] == Drained(p, next, org);
      ApplyKeepsCounts(p, l, first);
      DrainingSpendsReserved(p, next, org);
      Times(Inflight(l.inflight, org), p.reservation);
      assert Inflight(next.inflight, org) == Inflight(l.inflight, org) - 1;
    }
  }

  /** Whatever turns cost at most the reservation from then on, a month stays below
      limit + reservation after a check whose readings lie apart exactly when the total
      of the later moment would have admitted the turn, or the earlier one refused it. */
  lemma SplitCheckIsSafeIff(p: Plan, l: Ledger, turn: TurnId, org: Org, total: nat)
    requires org in p.limits && Counts(l) && Bounded(p, l, org)
    ensures (forall actions :: CostsAtMost(actions, p.reservation) ==>
              Used(Play(p, BeginOnTotal(p, l, turn, org, total), actions), org) < p.limits[org] + p.reservation)
      <==> Harmless(p, l, turn, org, total)
  {
    var after := BeginOnTotal(p, l, turn, org, total);
    StaleTotalKeepsBoundIff(p, l, turn, org, total);
    if Harmless(p, l, turn, org, total) {
      forall actions | CostsAtMost(actions, p.reservation)
        ensures Used(Play(p, after, actions), org) < p.limits[org] + p.reservation
      {
        PlayKeepsWithin(p, after, actions, org, p.limits[org] + p.reservation - 1);
        var end := Play(p, after, actions);
        assert CountsFor(end, org);
        assert Inflight(end.inflight, org) * p.reservation >= 0;
      }
    } else {
      DrainingSpendsReserved(p, after, org);
      assert CostsAtMost(Drained(p, after, org), p.reservation);
    }
  }

  /** The harm is reachable under any limit: a turn that records and ends between the
      two readings is counted by neither. */
  lemma StaleTotalOvershoots(p: Plan, org: Org)
    requires org in p.limits && p.limits[org] >= 1 && p.reservation >= 1
    ensures var start := Ledger(map[org := p.limits[org] - 1], map[], map[]);
      var first := Apply(p, start, Begin(0, org));
      var recorded := Apply(p, first, End(0, p.reservation));
      var second := Apply(p, BeginOnTotal(p, recorded, 1, org, Used(first, org)), End(1, p.reservation));
      && !MayBegin(p, recorded, 1, org)
      && Used(second, org) >= p.limits[org] + p.reservation
  {
  }
}
