/** The calls of the execution protocol column by column: what each answers, who may
    move a row, what a claim asks, which failures are retried, and how long a lease
    stands. */
module ReportCalls {
  import opened Prelude
  import opened ReportEnums
  import opened ReportErrors
  import opened Executions
  import opened ReportProtocol
  import opened ReportRuns
  import opened ReportHistory

  // -------------------------------------------------------- what a call answers

  /** mark_started, by the columns: the worker of the row, while it is assigned. */
  lemma StartAnswers(cfg: Settings, e: Execution, w: Worker, now: int)
    ensures var reply, mine := Started(cfg, e, w, now), e.workerId == Some(w.id) && e.run.organizationId == w.organizationId;
      && (reply == NotFound <==> !mine)
      && (reply.Ok? <==> mine && e.status == Assigned)
      && (reply.Ok? ==> reply.value == e.(status := Running, startedAt := Some(now), leaseExpiresAt := Some(now + cfg.lease)))
  {
  }

  /** extend_lease: the worker of the row, while it is leased and its own timeout,
      counted from its start or else its assignment, has not passed. */
  lemma ExtendAnswers(cfg: Settings, e: Execution, w: Worker, now: int)
    ensures var reply, mine := Extends(cfg, e, w, now), e.workerId == Some(w.id) && e.run.organizationId == w.organizationId;
      var inTime := match e.startedAt
        case Some(t) => now <= t + e.run.timeoutSeconds
        case None => e.assignedAt.Some? ==> now <= e.assignedAt.value + e.run.timeoutSeconds;
      && (reply == NotFound <==> !mine)
      && (reply.Ok? <==> mine && e.status in {Assigned, Running} && inTime)
      && (reply.Ok? ==> reply.value == e.(leaseExpiresAt := Some(now + cfg.lease)))
      && (TimesOut(e, w, now).Ok? <==> mine && e.status in {Assigned, Running} && !inTime)
  {
  }

  /** succeed: the worker of the row, while it is running. */
  lemma SucceedAnswers(e: Execution, w: Worker, now: int)
    ensures var reply, mine := Succeeds(e, w, now), e.workerId == Some(w.id) && e.run.organizationId == w.organizationId;
      && (reply == NotFound <==> !mine)
      && (reply.Ok? <==> mine && e.status == Running)
      && (reply.Ok? ==> reply.value == e.(status := Succeeded, completedAt := Some(now), leaseExpiresAt := None))
  {
  }

  /** fail: the service itself or the worker of the row; a queued row can only time out. */
  lemma FailAnswers(e: Execution, failer: Option<Worker>, code: ErrorCode, target: FailureStatus, now: int)
    ensures var reply := Fails(e, failer, code, target, now);
      var mine := failer.None? || (e.workerId == Some(failer.value.id) && e.run.organizationId == failer.value.organizationId);
      && (reply == NotFound <==> !mine)
      && (reply.Ok? <==> mine && (e.status in {Assigned, Running} || (e.status == Queued && target == TimedOut)))
      && code in RETRY_CLASSES
      && var failed := e.(status := target, errorCode := Some(code), retryClass := Some(RETRY_CLASSES[code]),
                          completedAt := Some(now), leaseExpiresAt := None);
      (reply.Ok? ==> reply.value == failed)
  {
    EveryCodeIsClassed(code);
  }

  lemma EveryCodeIsClassed(code: ErrorCode)
    ensures code in RETRY_CLASSES
  {
  }

  /** cancel: anything that has not finished. */
  lemma CancelAnswers(e: Execution, now: int)
    ensures var reply := Cancels(e, now);
      && (reply.Ok? <==> e.status in {Queued, Assigned, Running})
      && (!reply.Ok? ==> reply == Conflict)
      && var cancelled := e.(status := Cancelled, errorCode := Some(CancelledByUser), retryClass := Some(NonRetryable),
                             completedAt := Some(now), leaseExpiresAt := None);
      (reply.Ok? ==> reply.value == cancelled)
  {
  }

  // ----------------------------------------------------------- what a claim asks

  /** A row may be handed to a worker exactly when, by the columns: the worker can drive
      Excel and PAfE; the row is queued, due, unlocked and of its organization; the report
      is pinned to nobody or to it and asks only for formats it has proved; and no other
      such row became available earlier, or as early and was queued earlier. */
  lemma MayLockIff(db: Db, worker: Worker, id: Id)
    ensures MayLock(db, worker, id) <==>
      && Excel in worker.capabilities && PafeAutomation in worker.capabilities
      && InLine(db, worker, id)
      && forall other :: InLine(db, worker, other) ==>
           || db.rows[id].availableAt < db.rows[other].availableAt
           || (db.rows[id].availableAt == db.rows[other].availableAt && db.rows[id].queuedAt <= db.rows[other].queuedAt)
  {
    forall other ensures InLine(db, worker, other)
      <==> Eligible(db.rows, db.reports, worker, other, db.now) && other !in db.locks
    {
      if other in db.rows && db.rows[other].run.reportId in db.reports {
        FormatsSupported(worker, db.reports[db.rows[other].run.reportId].outputFormats);
      }
    }
  }

  predicate InLine(db: Db, worker: Worker, id: Id) {
    && id in db.rows && id !in db.locks
    && db.rows[id].status == Queued && db.rows[id].availableAt <= db.now
    && db.rows[id].run.organizationId == worker.organizationId
    && db.rows[id].run.reportId in db.reports
    && var report := db.reports[db.rows[id].run.reportId];
    && (report.pin.Some? ==> report.pin.value == worker.id)
    && (Xlsx in report.outputFormats ==> XlsxExport in worker.capabilities)
    && (Pdf in report.outputFormats ==> PdfExport in worker.capabilities)
    && (Csv in report.outputFormats ==> CsvExport in worker.capabilities)
  }

  lemma FormatsSupported(worker: Worker, formats: set<OutputFormat>)
    ensures formats <= SupportedFormats(worker) <==>
      && (Xlsx in formats ==> XlsxExport in worker.capabilities)
      && (Pdf in formats ==> PdfExport in worker.capabilities)
      && (Csv in formats ==> CsvExport in worker.capabilities)
  {
    assert forall f: OutputFormat :: f in SupportedFormats(worker) <==> f in FORMAT_CAPABILITY && FORMAT_CAPABILITY[f] in worker.capabilities;
    if && (Xlsx in formats ==> XlsxExport in worker.capabilities)
       && (Pdf in formats ==> PdfExport in worker.capabilities)
       && (Csv in formats ==> CsvExport in worker.capabilities)
    {
      forall f | f in formats ensures f in SupportedFormats(worker) {
        match f
        case Xlsx =>
        case Pdf =>
        case Csv =>
      }
    }
  }

  // ------------------------------------------------------------- who may move a row

  /** The worker a call speaks for; none for the service's own calls. */
  function Caller(a: Action): Option<Worker> {
    match a
    case Start(_, w) => Some(w)
    case Extend(_, w, _) => Some(w)
    case Succeed(_, w) => Some(w)
    case Fail(_, failer, _, _) => failer
    case _ => None
  }

  /** A worker's call changes only the row it holds, in its own organization. */
  lemma OnlyTheHolderMoves(cfg: Settings, db: Db, a: Action, id: Id)
    requires Caller(a).Some? && id in db.rows
    ensures var e, w := db.rows[id], Caller(a).value;
      && id in Apply(cfg, db, a).rows
      && (Apply(cfg, db, a).rows[id] != e ==> a.id == id && e.workerId == Some(w.id) && e.run.organizationId == w.organizationId)
      && (a.id == id && !(e.workerId == Some(w.id) && e.run.organizationId == w.organizationId) ==>
            RowCall(cfg, e, a, db.now) == NotFound)
  {
  }

  /** At step k this worker's call took the row from one status to the other. */
  predicate MovesAt(before: Db, a: Action, after: Db, id: Id, worker: Option<Id>, from: ExecutionStatus, to: ExecutionStatus) {
    && Caller(a).Some? && a.id == id && worker == Some(Caller(a).value.id)
    && id in before.rows && before.rows[id].status == from
    && id in after.rows && after.rows[id].status == to
    && before.rows[id].run.organizationId == Caller(a).value.organizationId
  }

  ghost predicate MovedAt(cfg: Settings, actions: seq<Action>, k: nat, id: Id, worker: Option<Id>,
                          from: ExecutionStatus, to: ExecutionStatus) {
    && k < |actions|
    && MovesAt(StateAt(cfg, actions, k), actions[k], StateAt(cfg, actions, k + 1), id, worker, from, to)
  }

  ghost predicate StartedBy(cfg: Settings, actions: seq<Action>, id: Id, worker: Option<Id>) {
    exists i: nat :: MovedAt(cfg, actions, i, id, worker, Assigned, Running)
  }

  ghost predicate StartedAndFinishedBy(cfg: Settings, actions: seq<Action>, id: Id, worker: Option<Id>) {
    exists i: nat, j: nat :: i < j
      && MovedAt(cfg, actions, i, id, worker, Assigned, Running) && MovedAt(cfg, actions, j, id, worker, Running, Succeeded)
  }

  lemma MoveSurvives(cfg: Settings, past: seq<Action>, a: Action, k: nat, id: Id, worker: Option<Id>,
                     from: ExecutionStatus, to: ExecutionStatus)
    requires MovedAt(cfg, past, k, id, worker, from, to)
    ensures MovedAt(cfg, past + [a], k, id, worker, from, to)
  {
    assert (past + [a])[..k] == past[..k] && (past + [a])[..k + 1] == past[..k + 1] && (past + [a])[k] == past[k];
  }

  ghost predicate RowEarned(cfg: Settings, actions: seq<Action>, id: Id, e: Execution) {
    && (e.startedAt.Some? ==> StartedBy(cfg, actions, id, e.workerId))
    && (e.status == Succeeded ==> StartedAndFinishedBy(cfg, actions, id, e.workerId))
  }

  /** What one action can have done to a row that is started or succeeded after it. */
  lemma EarningSteps(cfg: Settings, db: Db, a: Action, id: Id)
    requires Inv(cfg, db) && id in Apply(cfg, db, a).rows
    ensures var after := Apply(cfg, db, a); var f := after.rows[id];
      && (id !in db.rows ==> f.startedAt.None? && f.status == Queued)
      && (id in db.rows && f.startedAt.Some? ==>
            || (db.rows[id].startedAt.Some? && db.rows[id].workerId == f.workerId)
            || MovesAt(db, a, after, id, f.workerId, Assigned, Running))
      && (id in db.rows && f.status == Succeeded ==>
            || (db.rows[id].status == Succeeded && db.rows[id].workerId == f.workerId)
            || (db.rows[id].startedAt.Some? && db.rows[id].workerId == f.workerId && MovesAt(db, a, after, id, f.workerId, Running, Succeeded)))
  {
    hide Inv, Apply, RowCall, TableOk, MovesAt, RetryOutcomeOf;
    if id in db.rows {
      var e, f := db.rows[id], Apply(cfg, db, a).rows[id];
      assert RowOk(cfg, e, db.now) by { RowIsOk(cfg, db, id); }
      RowAfter(cfg, db, a, id);
      if IsRowCall(a) && a.id == id && RowCall(cfg, e, a, db.now) == Ok(f) {
        RowCallEarns(cfg, e, a, db.now, f);
        if Caller(a).Some? && f != e { HolderMoves(cfg, db, a, id); }
      } else if a.CreateRetry? && MayRetry(db, id, a.child) {
        SpawnMeans(db.rows, id, a.child);
      } else if a == ClaimLocked(id) && MayClaim(db, id) {
        LockedIsQueued(cfg, db, id);
      }
    } else {
      NewRowsAreQueued(cfg, db, a, id);
    }
  }

  lemma RowIsOk(cfg: Settings, db: Db, id: Id)
    requires Inv(cfg, db) && id in db.rows
    ensures RowOk(cfg, db.rows[id], db.now)
  {
  }

  lemma LockedIsQueued(cfg: Settings, db: Db, id: Id)
    requires Inv(cfg, db) && id in db.locks
    ensures id in db.rows && db.rows[id].status == Queued
  {
  }

  lemma NewRowsAreQueued(cfg: Settings, db: Db, a: Action, id: Id)
    requires id in Apply(cfg, db, a).rows && id !in db.rows
    ensures var f := Apply(cfg, db, a).rows[id]; f.startedAt.None? && f.status == Queued
  {
    hide MayInsert, RetryOutcomeOf, RowCall;
  }

  lemma HolderMoves(cfg: Settings, db: Db, a: Action, id: Id)
    requires Caller(a).Some? && a.id == id && id in db.rows && id in Apply(cfg, db, a).rows
    requires Apply(cfg, db, a).rows[id] != db.rows[id]
    ensures forall from, to ::
      MovesAt(db, a, Apply(cfg, db, a), id, db.rows[id].workerId, from, to) <==>
      (db.rows[id].status == from && Apply(cfg, db, a).rows[id].status == to)
  {
    OnlyTheHolderMoves(cfg, db, a, id);
  }

  /** A row call leaves the worker alone; a row is started only by `Start`, from ASSIGNED,
      and succeeds only by `Succeed`, from RUNNING. */
  lemma RowCallEarns(cfg: Settings, e: Execution, a: Action, now: int, f: Execution)
    requires IsRowCall(a) && RowOk(cfg, e, now) && RowCall(cfg, e, a, now) == Ok(f)
    ensures f.workerId == e.workerId
    ensures f.startedAt.Some? && e.startedAt.None? ==> a.Start? && e.status == Assigned && f.status == Running
    ensures f.status == Succeeded && e.status != Succeeded ==> a.Succeed? && e.status == Running && e.startedAt.Some?
  {
  }

  lemma EarnedAfterStep(cfg: Settings, past: seq<Action>, a: Action, id: Id)
    requires var before := Play(cfg, EMPTY, past);
      && Inv(cfg, before) && id in Apply(cfg, before, a).rows
      && (id in before.rows ==> RowEarned(cfg, past, id, before.rows[id]))
    ensures RowEarned(cfg, past + [a], id, Apply(cfg, Play(cfg, EMPTY, past), a).rows[id])
  {
    hide Inv, MovesAt;
    var before, all, n := Play(cfg, EMPTY, past), past + [a], |past|;
    var f := Apply(cfg, before, a).rows[id];
    EarningSteps(cfg, before, a, id);
    LastStep(cfg, past, a);
    assert all[..n] == past && all[..n + 1] == all && all[n] == a;
    if f.startedAt.Some? {
      if MovesAt(before, a, Apply(cfg, before, a), id, f.workerId, Assigned, Running) {
        assert MovedAt(cfg, all, n, id, f.workerId, Assigned, Running);
      } else {
        var i: nat :| MovedAt(cfg, past, i, id, f.workerId, Assigned, Running);
        MoveSurvives(cfg, past, a, i, id, f.workerId, Assigned, Running);
      }
    }
    if f.status == Succeeded {
      if before.rows[id].status == Succeeded {
        var i: nat, j: nat :| i < j && MovedAt(cfg, past, i, id, f.workerId, Assigned, Running)
          && MovedAt(cfg, past, j, id, f.workerId, Running, Succeeded);
        MoveSurvives(cfg, past, a, i, id, f.workerId, Assigned, Running);
        MoveSurvives(cfg, past, a, j, id, f.workerId, Running, Succeeded);
      } else {
        var i: nat :| MovedAt(cfg, past, i, id, f.workerId, Assigned, Running);
        MoveSurvives(cfg, past, a, i, id, f.workerId, Assigned, Running);
        assert MovedAt(cfg, all, n, id, f.workerId, Running, Succeeded);
      }
    }
  }

  /** Every row that succeeded was started, and later finished, by calls of the worker it
      was granted to. */
  lemma {:induction false} SuccessIsTheHolders(cfg: Settings, actions: seq<Action>, id: Id)
    requires id in Play(cfg, EMPTY, actions).rows
    ensures RowEarned(cfg, actions, id, Play(cfg, EMPTY, actions).rows[id])
    ensures RightfullyHeld(cfg, actions, id, Play(cfg, EMPTY, actions).rows[id])
    decreases |actions|
  {
    hide Inv, RowEarned;
    HoldersWereGranted(cfg, actions);
    if actions != [] {
      var n := |actions| - 1;
      var past, a := actions[..n], actions[n];
      assert actions == past + [a];
      PlayKeepsInv(cfg, EMPTY, past);
      LastStep(cfg, past, a);
      if id in Play(cfg, EMPTY, past).rows { SuccessIsTheHolders(cfg, past, id); }
      EarnedAfterStep(cfg, past, a, id);
    }
  }

  // ---------------------------------------------------------- what is retried

  /** A row with a child failed with a code that is classed RETRYABLE, and had an attempt
      left; a retry is spawned exactly then, once. */
  lemma RetriedIffRetryable(cfg: Settings, db: Db, id: Id, child: Id)
    requires Inv(cfg, db) && id in db.rows && child !in db.rows
    ensures var e := db.rows[id];
      && (HasChild(db.rows, id) ==> e.retryClass == Some(Retryable) && e.attempt < e.run.maxAttempts)
      && (RetryOutcomeOf(db.rows, id, child).Spawned? <==>
            e.retryClass == Some(Retryable) && e.attempt < e.run.maxAttempts && !HasChild(db.rows, id))
  {
    RetiredExactlyWithChild(cfg, db, id);
    assert RowOk(cfg, db.rows[id], db.now);
    if KeyTaken(db.rows, db.rows[id].run.organizationId, IdempotencyKeys.RetryKey(db.rows[id].idempotencyKey, db.rows[id].attempt + 1)) {
      var found := Lookup(db.rows, db.rows[id].run.organizationId, IdempotencyKeys.RetryKey(db.rows[id].idempotencyKey, db.rows[id].attempt + 1)).value;
      RetryKeyFindsOwnChild(db.rows, id, found);
    }
    if HasChild(db.rows, id) {
      var c :| c in db.rows && db.rows[c].parentId == Some(id);
      assert Linked(db.rows, db.rows[c]);
    }
  }

  /** A failure that is not retryable is final: the row never changes again and never has
      a child. */
  lemma OtherFailuresAreFinal(cfg: Settings, db: Db, id: Id, failer: Option<Worker>, code: ErrorCode, target: FailureStatus,
                              later: seq<Action>)
    requires Inv(cfg, db) && id in db.rows && id !in db.locks && Fails(db.rows[id], failer, code, target, db.now).Ok?
    requires code in RETRY_CLASSES && RETRY_CLASSES[code] != Retryable
    ensures var failed := Apply(cfg, db, Fail(id, failer, code, target)); var end := Play(cfg, failed, later);
      && id in failed.rows && failed.rows[id].status == target && failed.rows[id].errorCode == Some(code)
      && id in end.rows && end.rows[id] == failed.rows[id] && !HasChild(end.rows, id)
  {
    var failed := Apply(cfg, db, Fail(id, failer, code, target));
    FailAnswers(db.rows[id], failer, code, target, db.now);
    ApplyKeepsInv(cfg, db, Fail(id, failer, code, target));
    PlayKeepsInv(cfg, failed, later);
    RowsEvolve(cfg, failed, later, id);
    RetiredExactlyWithChild(cfg, Play(cfg, failed, later), id);
  }

  // --------------------------------------------------------------- how long a lease stands

  /** The calls that write a lease, and the clock reading they count it from. */
  ghost predicate Leases(cfg: Settings, db: Db, a: Action, id: Id, t: int) {
    || (a == ClaimLocked(id) && MayClaim(db, id) && t == db.locks[id].takenAt)
    || (a.Start? && a.id == id && Unlocked(db, id) && Started(cfg, db.rows[id], a.worker, db.now).Ok? && t == db.now)
    || (a.Extend? && a.id == id && Unlocked(db, id) && Extends(cfg, db.rows[id], a.worker, db.now).Ok? && t == db.now)
  }

  lemma LeaseIsWritten(cfg: Settings, db: Db, a: Action, id: Id, t: int)
    requires Inv(cfg, db) && Leases(cfg, db, a, id, t)
    ensures id in Apply(cfg, db, a).rows
    ensures Apply(cfg, db, a).rows[id].leaseExpiresAt == Some(t + cfg.lease)
  {
  }

  lemma StepKeepsLease(cfg: Settings, db: Db, a: Action, id: Id)
    requires Inv(cfg, db) && id in db.rows && db.rows[id].leaseExpiresAt.Some?
    ensures id in Apply(cfg, db, a).rows
    ensures var f := Apply(cfg, db, a).rows[id];
      f.leaseExpiresAt.Some? ==> f.leaseExpiresAt.value >= db.rows[id].leaseExpiresAt.value
  {
    assert RowOk(cfg, db.rows[id], db.now);
    RowAfter(cfg, db, a, id);
  }

  lemma NoSecondLease(cfg: Settings, db: Db, actions: seq<Action>, id: Id)
    requires Inv(cfg, db) && id in db.rows && db.rows[id].status != Queued && db.rows[id].leaseExpiresAt.None?
    ensures id in Play(cfg, db, actions).rows && Play(cfg, db, actions).rows[id].leaseExpiresAt.None?
  {
    assert RowOk(cfg, db.rows[id], db.now);
    RowsEvolve(cfg, db, actions, id);
  }

  /** A lease never ends earlier than it was last set to, while it stands. */
  lemma {:induction false} LeasesOnlyGrow(cfg: Settings, db: Db, actions: seq<Action>, id: Id)
    requires Inv(cfg, db) && id in db.rows && db.rows[id].leaseExpiresAt.Some?
    ensures id in Play(cfg, db, actions).rows
    ensures var f := Play(cfg, db, actions).rows[id];
      f.leaseExpiresAt.Some? ==> f.leaseExpiresAt.value >= db.rows[id].leaseExpiresAt.value
    decreases |actions|
  {
    hide RowCall;
    if actions != [] {
      var next := Apply(cfg, db, actions[0]);
      ApplyKeepsInv(cfg, db, actions[0]);
      StepKeepsLease(cfg, db, actions[0], id);
      if next.rows[id].leaseExpiresAt.Some? {
        LeasesOnlyGrow(cfg, next, actions[1..], id);
      } else {
        ApplySteps(cfg, db, actions[0], id);
        assert RowOk(cfg, db.rows[id], db.now);
        NoSecondLease(cfg, next, actions[1..], id);
      }
    }
  }

  /** A row claimed, started or extended at t keeps a lease of at least t + lease for as
      long as it keeps one at all. */
  lemma LeaseStandsItsLength(cfg: Settings, db: Db, a: Action, id: Id, t: int, later: seq<Action>)
    requires Inv(cfg, db) && Leases(cfg, db, a, id, t)
    ensures var end := Play(cfg, Apply(cfg, db, a), later);
      id in end.rows && (end.rows[id].leaseExpiresAt.Some? ==> end.rows[id].leaseExpiresAt.value >= t + cfg.lease)
  {
    hide Leases;
    LeaseIsWritten(cfg, db, a, id, t);
    ApplyKeepsInv(cfg, db, a);
    LeasesOnlyGrow(cfg, Apply(cfg, db, a), later, id);
  }
}
