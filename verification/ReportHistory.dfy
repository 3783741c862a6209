/** How one row may change over a run, who may hold it, and how often a logical
    run can change status at all. */
module ReportHistory {
  import opened Prelude
  import opened ReportEnums
  import opened StateMachine
  import opened Executions
  import opened ReportProtocol
  import opened ReportRuns

  // ------------------------------------------------------------- row history

  /** What may become of row `e` however long the system runs. */
  predicate Evolves(e: Execution, f: Execution) {
    && SameIdentity(e, f)
    && Rank(f.status) <= Rank(e.status)
    && (!e.Live() ==> f == e || (f == Retired(e) && e.CanRetry()))
    && (e.status in {Succeeded, Cancelled, Retrying} ==> f == e)
    && (e.workerId.Some? ==> f.workerId == e.workerId && f.assignedAt == e.assignedAt)
  }

  /** One action either keeps a row's status or takes an edge of the table other
      than Assigned to Queued. */
  predicate StepsTo(e: Execution, f: Execution) {
    && Evolves(e, f)
    && (f.status == e.status
        || (CanTransition(e.status, f.status) && (e.status, f.status) != (Assigned, Queued)))
  }

  lemma RowCallSteps(cfg: Settings, e: Execution, a: Action, now: int)
    requires IsRowCall(a) && RowOk(cfg, e, now) && RowCall(cfg, e, a, now).Ok?
    ensures StepsTo(e, RowCall(cfg, e, a, now).value)
  {
  }

  /** The ways one action can rewrite one existing row. */
  lemma RowAfter(cfg: Settings, db: Db, a: Action, id: Id)
    requires id in db.rows
    ensures id in Apply(cfg, db, a).rows
    ensures var e, f := db.rows[id], Apply(cfg, db, a).rows[id];
      || f == e
      || (a == ClaimLocked(id) && MayClaim(db, id) && f == Claimed(cfg, e, db.locks[id].worker, db.locks[id].takenAt))
      || (a.CreateRetry? && a.id == id && MayRetry(db, id, a.child) && f == Retired(e))
      || (IsRowCall(a) && a.id == id && Unlocked(db, id) && RowCall(cfg, e, a, db.now) == Ok(f))
  {
  }

  lemma ClaimSteps(cfg: Settings, e: Execution, worker: Worker, now: int, at: int)
    requires RowOk(cfg, e, now) && e.status == Queued
    ensures StepsTo(e, Claimed(cfg, e, worker, at))
  {
  }

  lemma RetireSteps(cfg: Settings, e: Execution, now: int)
    requires RowOk(cfg, e, now) && e.CanRetry() && e.status in {Failed, TimedOut}
    ensures StepsTo(e, Retired(e))
  {
  }

  lemma ApplySteps(cfg: Settings, db: Db, a: Action, id: Id)
    requires Inv(cfg, db) && id in db.rows
    ensures id in Apply(cfg, db, a).rows && StepsTo(db.rows[id], Apply(cfg, db, a).rows[id])
  {
    assert RowOk(cfg, db.rows[id], db.now);
    RowAfter(cfg, db, a, id);
    if a == ClaimLocked(id) && MayClaim(db, id) {
      ClaimSteps(cfg, db.rows[id], db.locks[id].worker, db.now, db.locks[id].takenAt);
    } else if a.CreateRetry? && MayRetry(db, id, a.child) {
      SpawnMeans(db.rows, id, a.child);
      RetireSteps(cfg, db.rows[id], db.now);
    } else if IsRowCall(a) && RowCall(cfg, db.rows[id], a, db.now).Ok? {
      RowCallSteps(cfg, db.rows[id], a, db.now);
    }
  }

  /** Finished rows are final except for retirement, a claimed row keeps its
      worker, and the columns that name the run are never rewritten. */
  lemma {:induction false} RowsEvolve(cfg: Settings, db: Db, actions: seq<Action>, id: Id)
    requires Inv(cfg, db) && id in db.rows
    ensures id in Play(cfg, db, actions).rows && Evolves(db.rows[id], Play(cfg, db, actions).rows[id])
    decreases |actions|
  {
    if actions != [] {
      ApplySteps(cfg, db, actions[0], id);
      ApplyKeepsInv(cfg, db, actions[0]);
      RowsEvolve(cfg, Apply(cfg, db, actions[0]), actions[1..], id);
    }
  }

  /** No logical run ever succeeds twice, not even at different times. */
  lemma OneSuccessEver(cfg: Settings, db: Db, actions: seq<Action>, a: Id, b: Id)
    requires Inv(cfg, db) && a in db.rows && b in Play(cfg, db, actions).rows
    requires db.rows[a].run.correlationId == Play(cfg, db, actions).rows[b].run.correlationId
    requires db.rows[a].status == Succeeded && Play(cfg, db, actions).rows[b].status == Succeeded
    ensures a == b
  {
    RowsEvolve(cfg, db, actions, a);
    PlayKeepsInv(cfg, db, actions);
    OneTail(cfg, Play(cfg, db, actions), a, b);
  }

  // ------------------------------------------------------------------ claims

  /** Some earlier action let `worker` lock row `id`, and it was then the first
      in line among the unlocked rows this worker may run. */
  ghost predicate Granted(cfg: Settings, actions: seq<Action>, id: Id, worker: Worker, at: int) {
    exists k: nat | k < |actions| ::
      && actions[k] == LockNext(worker, id)
      && MayLock(StateAt(cfg, actions, k), worker, id)
      && StateAt(cfg, actions, k).now == at
  }

  ghost predicate RightfullyHeld(cfg: Settings, actions: seq<Action>, id: Id, e: Execution) {
    e.workerId.Some? ==>
      e.assignedAt.Some?
      && exists worker: Worker :: worker.id == e.workerId.value && Granted(cfg, actions, id, worker, e.assignedAt.value)
  }

  lemma GrantSurvives(cfg: Settings, actions: seq<Action>, a: Action, id: Id, worker: Worker, at: int)
    requires Granted(cfg, actions, id, worker, at)
    ensures Granted(cfg, actions + [a], id, worker, at)
  {
    var k: nat :| k < |actions| && actions[k] == LockNext(worker, id)
      && MayLock(StateAt(cfg, actions, k), worker, id) && StateAt(cfg, actions, k).now == at;
    assert (actions + [a])[..k] == actions[..k] && (actions + [a])[k] == actions[k];
  }

  lemma LockedAfterStep(cfg: Settings, past: seq<Action>, a: Action, id: Id)
    requires var before := Play(cfg, EMPTY, past);
      && id in Apply(cfg, before, a).locks
      && (id in before.locks ==> Granted(cfg, past, id, before.locks[id].worker, before.locks[id].takenAt))
    ensures var lock := Apply(cfg, Play(cfg, EMPTY, past), a).locks[id];
      Granted(cfg, past + [a], id, lock.worker, lock.takenAt)
  {
    var before := Play(cfg, EMPTY, past);
    var lock := Apply(cfg, before, a).locks[id];
    if id in before.locks && before.locks[id] == lock {
      GrantSurvives(cfg, past, a, id, lock.worker, lock.takenAt);
    } else {
      assert a == LockNext(lock.worker, id);
      assert (past + [a])[..|past|] == past && (past + [a])[|past|] == a;
      assert StateAt(cfg, past + [a], |past|) == before;
    }
  }

  /** Every row that carries a worker was handed to it by an eligible, fair and
      unlocked grant, and the grant is when the row says it was assigned. */
  lemma {:induction false} HoldersWereGranted(cfg: Settings, actions: seq<Action>)
    ensures var db := Play(cfg, EMPTY, actions);
      && (forall id :: id in db.locks ==> Granted(cfg, actions, id, db.locks[id].worker, db.locks[id].takenAt))
      && (forall id :: id in db.rows ==> RightfullyHeld(cfg, actions, id, db.rows[id]))
    decreases |actions|
  {
    if actions != [] {
      var n := |actions| - 1;
      var past, a := actions[..n], actions[n];
      assert actions == past + [a];
      HoldersWereGranted(cfg, past);
      LastStep(cfg, past, a);
      PlayKeepsInv(cfg, EMPTY, past);
      var db := Play(cfg, EMPTY, actions);
      forall id | id in db.locks ensures Granted(cfg, actions, id, db.locks[id].worker, db.locks[id].takenAt) {
        LockedAfterStep(cfg, past, a, id);
      }
      forall id | id in db.rows ensures RightfullyHeld(cfg, actions, id, db.rows[id]) {
        HeldAfterStep(cfg, past, a, id);
      }
    }
  }

  lemma LastStep(cfg: Settings, past: seq<Action>, a: Action)
    ensures Play(cfg, EMPTY, past + [a]) == Apply(cfg, Play(cfg, EMPTY, past), a)
  {
    PlayAppends(cfg, EMPTY, past, [a]);
    assert Play(cfg, Play(cfg, EMPTY, past), [a]) == Apply(cfg, Play(cfg, EMPTY, past), a);
  }

  lemma HeldAfterStep(cfg: Settings, past: seq<Action>, a: Action, id: Id)
    requires var before := Play(cfg, EMPTY, past);
      && Inv(cfg, before)
      && id in Apply(cfg, before, a).rows
      && (id in before.locks ==> Granted(cfg, past, id, before.locks[id].worker, before.locks[id].takenAt))
      && (id in before.rows ==> RightfullyHeld(cfg, past, id, before.rows[id]))
    ensures RightfullyHeld(cfg, past + [a], id, Apply(cfg, Play(cfg, EMPTY, past), a).rows[id])
  {
    var before := Play(cfg, EMPTY, past);
    var f := Apply(cfg, before, a).rows[id];
    if id in before.rows && f.workerId.Some? {
      ApplySteps(cfg, before, a, id);
      if before.rows[id].workerId.Some? {
        var worker: Worker :| worker.id == f.workerId.value && Granted(cfg, past, id, worker, f.assignedAt.value);
        GrantSurvives(cfg, past, a, id, worker, f.assignedAt.value);
      } else {
        assert RowOk(cfg, before.rows[id], before.now);
        NewHolderHadLock(cfg, before, a, id);
        GrantSurvives(cfg, past, a, id, before.locks[id].worker, before.locks[id].takenAt);
      }
    }
  }

  lemma NewHolderHadLock(cfg: Settings, before: Db, a: Action, id: Id)
    requires Inv(cfg, before) && id in before.rows && before.rows[id].workerId.None?
    requires Apply(cfg, before, a).rows[id].workerId.Some?
    ensures a == ClaimLocked(id) && id in before.locks
    ensures var f := Apply(cfg, before, a).rows[id];
      f.workerId == Some(before.locks[id].worker.id) && f.assignedAt == Some(before.locks[id].takenAt)
  {
    RowAfter(cfg, before, a, id);
    if IsRowCall(a) { RowCallKeepsHolder(cfg, before.rows[id], a, before.now); }
  }

  lemma RowCallKeepsHolder(cfg: Settings, e: Execution, a: Action, now: int)
    requires IsRowCall(a)
    ensures RowCall(cfg, e, a, now).Ok? ==> RowCall(cfg, e, a, now).value.workerId == e.workerId
  {
  }

  /** Whatever the interleaving of locks and writes, a row is claimed once. */
  lemma ClaimedOnce(cfg: Settings, actions: seq<Action>, i: nat, j: nat, id: Id)
    requires i < j < |actions| && actions[i] == ClaimLocked(id) && MayClaim(StateAt(cfg, actions, i), id)
    ensures !MayClaim(StateAt(cfg, actions, j), id)
    ensures forall worker :: !MayLock(StateAt(cfg, actions, j), worker, id)
  {
    ReachableInv(cfg, actions, i);
    ReachableInv(cfg, actions, i + 1);
    ReachableInv(cfg, actions, j);
    StateAtFollows(cfg, actions, i);
    var middle := actions[i + 1..j];
    assert actions[..j] == actions[..i + 1] + middle;
    PlayAppends(cfg, EMPTY, actions[..i + 1], middle);
    RowsEvolve(cfg, StateAt(cfg, actions, i + 1), middle, id);
    assert RowOk(cfg, StateAt(cfg, actions, j).rows[id], StateAt(cfg, actions, j).now);
  }

  // ------------------------------------------------------- bounded histories

  ghost predicate Moved(before: Rows, after: Rows, correlationId: Id, id: Id) {
    InRun(before, correlationId, id) && id in after && before[id].status != after[id].status
  }

  ghost predicate RunMoved(before: Rows, after: Rows, correlationId: Id) {
    exists id :: Moved(before, after, correlationId, id)
  }

  /** Status changes of one logical run over a whole history. */
  ghost function StatusChanges(cfg: Settings, db: Db, actions: seq<Action>, correlationId: Id): nat
    decreases |actions|
  {
    if actions == [] then 0
    else
      var after := Apply(cfg, db, actions[0]);
      (if RunMoved(db.rows, after.rows, correlationId) then 1 else 0)
      + StatusChanges(cfg, after, actions[1..], correlationId)
  }

  /** Counting steps counts status changes: no action moves two rows. */
  lemma OneMovePerStep(cfg: Settings, db: Db, a: Action, correlationId: Id, i: Id, j: Id)
    requires Moved(db.rows, Apply(cfg, db, a).rows, correlationId, i)
    requires Moved(db.rows, Apply(cfg, db, a).rows, correlationId, j)
    ensures i == j
  {
    hide Apply, RowCall, Claimed, Retired, MayRetry;
    RowAfter(cfg, db, a, i);
    RowAfter(cfg, db, a, j);
  }

  /** Four moves for every attempt still to come, then those of the current one. */
  function Budget(e: Execution): int {
    4 * (e.run.maxAttempts - e.attempt) + Rank(e.status)
  }

  ghost function TailOf(rows: Rows, correlationId: Id): (tail: Option<Id>)
    ensures tail.Some? ==> IsTail(rows, correlationId, tail.value)
    ensures tail.None? ==> forall id :: !IsTail(rows, correlationId, id)
  {
    if exists id :: IsTail(rows, correlationId, id) then
      var tail :| IsTail(rows, correlationId, tail); Some(tail)
    else None
  }

  ghost function MovesLeft(cfg: Settings, rows: Rows, correlationId: Id): int {
    var tail := TailOf(rows, correlationId);
    if tail.Some? then Budget(rows[tail.value]) else 4 * cfg.maxAttempts
  }

  lemma MovesLeftAt(cfg: Settings, db: Db, correlationId: Id, tail: Id)
    requires Inv(cfg, db) && IsTail(db.rows, correlationId, tail)
    ensures MovesLeft(cfg, db.rows, correlationId) == Budget(db.rows[tail])
  {
    OneTail(cfg, db, TailOf(db.rows, correlationId).value, tail);
  }

  lemma OnlyTailMoves(cfg: Settings, db: Db, a: Action, correlationId: Id, tail: Id)
    requires Inv(cfg, db) && IsTail(db.rows, correlationId, tail)
    requires RunMoved(db.rows, Apply(cfg, db, a).rows, correlationId)
    ensures Apply(cfg, db, a).rows[tail].status != db.rows[tail].status
  {
    var id :| Moved(db.rows, Apply(cfg, db, a).rows, correlationId, id);
    ApplySteps(cfg, db, a, id);
    OneTail(cfg, db, id, tail);
  }

  lemma TailPays(cfg: Settings, db: Db, a: Action, correlationId: Id, tail: Id)
    requires Inv(cfg, db) && IsTail(db.rows, correlationId, tail)
    ensures var after := Apply(cfg, db, a);
      && MovesLeft(cfg, after.rows, correlationId) <= Budget(db.rows[tail])
      && (after.rows[tail].status != db.rows[tail].status ==>
            MovesLeft(cfg, after.rows, correlationId) < Budget(db.rows[tail]))
  {
    hide Inv, RowOk, Apply, RetryOutcomeOf, MovesLeft;
    var after := Apply(cfg, db, a);
    ApplyKeepsInv(cfg, db, a);
    ApplySteps(cfg, db, a, tail);
    if after.rows[tail].status != db.rows[tail].status {
      RankFalls(db.rows[tail].status, after.rows[tail].status);
    }
    if after.rows[tail].status == Retrying {
      RetiresOnlyByRetry(cfg, db, a, tail);
      RetryHandsOver(cfg, db, tail, a.child);
      MovesLeftAt(cfg, after, correlationId, a.child);
    } else {
      MovesLeftAt(cfg, after, correlationId, tail);
    }
  }

  lemma RetryHandsOver(cfg: Settings, db: Db, id: Id, child: Id)
    requires MayRetry(db, id, child)
    ensures var after := Apply(cfg, db, CreateRetry(id, child)).rows;
      && IsTail(after, db.rows[id].run.correlationId, child)
      && Budget(after[child]) < Budget(db.rows[id])
  {
    SpawnMeans(db.rows, id, child);
  }

  lemma RetiresOnlyByRetry(cfg: Settings, db: Db, a: Action, id: Id)
    requires id in db.rows && db.rows[id].status != Retrying
    requires id in Apply(cfg, db, a).rows && Apply(cfg, db, a).rows[id].status == Retrying
    ensures a.CreateRetry? && a.id == id && MayRetry(db, id, a.child)
  {
    RowAfter(cfg, db, a, id);
  }

  lemma MoveCostsOne(cfg: Settings, db: Db, a: Action, correlationId: Id)
    requires Inv(cfg, db)
    ensures var after := Apply(cfg, db, a);
      MovesLeft(cfg, after.rows, correlationId) + (if RunMoved(db.rows, after.rows, correlationId) then 1 else 0)
      <= MovesLeft(cfg, db.rows, correlationId)
  {
    var tail := TailOf(db.rows, correlationId);
    if tail.Some? {
      TailPays(cfg, db, a, correlationId, tail.value);
      if RunMoved(db.rows, Apply(cfg, db, a).rows, correlationId) {
        OnlyTailMoves(cfg, db, a, correlationId, tail.value);
      }
    } else {
      NoRowsBefore(cfg, db, correlationId);
      FirstRowStartsBudget(cfg, db, a, correlationId);
    }
  }

  lemma FirstRowStartsBudget(cfg: Settings, db: Db, a: Action, correlationId: Id)
    requires Inv(cfg, db) && !CorrelationUsed(db.rows, correlationId)
    ensures MovesLeft(cfg, Apply(cfg, db, a).rows, correlationId) == 4 * cfg.maxAttempts
  {
    var after := Apply(cfg, db, a);
    var tail := TailOf(after.rows, correlationId);
    if tail.Some? {
      if tail.value in db.rows {
        RowAfter(cfg, db, a, tail.value);
        ApplySteps(cfg, db, a, tail.value);
        assert InRun(db.rows, correlationId, tail.value);
      } else if a.CreateRetry? {
        assert InRun(db.rows, correlationId, a.id);
      }
      assert a.Insert? && a.id == tail.value;
    }
  }

  lemma NoRowsBefore(cfg: Settings, db: Db, correlationId: Id)
    requires Inv(cfg, db) && !exists tail :: IsTail(db.rows, correlationId, tail)
    ensures !CorrelationUsed(db.rows, correlationId)
  {
    if id :| InRun(db.rows, correlationId, id) {
      var tail := FindTail(cfg, db.rows, db.now, id);
    }
  }

  lemma {:induction false} ChangesWithinBudget(cfg: Settings, db: Db, actions: seq<Action>, correlationId: Id)
    requires Inv(cfg, db)
    ensures 0 <= MovesLeft(cfg, Play(cfg, db, actions).rows, correlationId)
    ensures StatusChanges(cfg, db, actions, correlationId) + MovesLeft(cfg, Play(cfg, db, actions).rows, correlationId)
         <= MovesLeft(cfg, db.rows, correlationId)
    decreases |actions|
  {
    if actions == [] {
      if tail :| IsTail(db.rows, correlationId, tail) {
        assert RowOk(cfg, db.rows[tail], db.now);
        MovesLeftAt(cfg, db, correlationId, tail);
      }
    } else {
      ApplyKeepsInv(cfg, db, actions[0]);
      MoveCostsOne(cfg, db, actions[0], correlationId);
      ChangesWithinBudget(cfg, Apply(cfg, db, actions[0]), actions[1..], correlationId);
    }
  }

  /** Every logical run finishes: it changes status at most 4 * max_attempts
      times, whatever the workers, the API and the reaper do. */
  lemma RunsFinish(cfg: Settings, actions: seq<Action>, correlationId: Id)
    ensures StatusChanges(cfg, EMPTY, actions, correlationId) <= 4 * cfg.maxAttempts
  {
    ChangesWithinBudget(cfg, EMPTY, actions, correlationId);
    assert MovesLeft(cfg, EMPTY.rows, correlationId) == 4 * cfg.maxAttempts;
  }
}
