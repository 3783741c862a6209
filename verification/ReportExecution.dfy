/** One execution row as an object: the lifecycle calls of
    backend/src/reports/execution_service.py assign its fields in place, and each
    is proved to do what the matching function of Executions says. */
module ReportExecutions {
  import opened Prelude
  import opened ReportEnums
  import opened ReportErrors
  import opened StateMachine
  import opened Executions
  import opened ReportProtocol

  class ReportExecution {
    const run: Run
    const triggerType: TriggerType
    const idempotencyKey: string
    const attempt: nat
    const parentId: Option<Id>
    const queuedAt: int
    const availableAt: int

    var status: ExecutionStatus
    var workerId: Option<Id>
    var assignedAt: Option<int>
    var startedAt: Option<int>
    var completedAt: Option<int>
    var leaseExpiresAt: Option<int>
    var errorCode: Option<ErrorCode>
    var retryClass: Option<RetryClass>

    function Row(): Execution
      reads this
    {
      Execution(run, triggerType, idempotencyKey, attempt, parentId, queuedAt, availableAt, status, workerId,
                assignedAt, startedAt, completedAt, leaseExpiresAt, errorCode, retryClass)
    }

    constructor (e: Execution)
      ensures Row() == e
    {
      run, triggerType, idempotencyKey := e.run, e.triggerType, e.idempotencyKey;
      attempt, parentId, queuedAt, availableAt := e.attempt, e.parentId, e.queuedAt, e.availableAt;
      status, workerId, assignedAt, startedAt := e.status, e.workerId, e.assignedAt, e.startedAt;
      completedAt, leaseExpiresAt := e.completedAt, e.leaseExpiresAt;
      errorCode, retryClass := e.errorCode, e.retryClass;
    }

    method Finalize(now: int)
      modifies this
      ensures Row() == Finalized(old(Row()), now)
    {
      completedAt := Some(now);
      leaseExpiresAt := None;
    }

    /** The columns the claim query writes. */
    method AssignTo(cfg: Settings, worker: Worker, now: int)
      modifies this
      ensures Row() == Claimed(cfg, old(Row()), worker, now)
    {
      status := Assigned;
      workerId := Some(worker.id);
      assignedAt := Some(now);
      leaseExpiresAt := Some(now + cfg.lease);
    }

    method MarkStarted(cfg: Settings, worker: Worker, now: int) returns (reply: Reply<Execution>)
      modifies this
      ensures reply == Started(cfg, old(Row()), worker, now)
      ensures Row() == if reply.Ok? then reply.value else old(Row())
    {
      if !Row().OwnedBy(worker) { return NotFound; }
      if !CanTransition(status, Running) { return Conflict; }
      status := Running;
      startedAt := Some(now);
      leaseExpiresAt := Some(now + cfg.lease);
      reply := Ok(Row());
    }

    method Succeed(worker: Worker, now: int) returns (reply: Reply<Execution>)
      modifies this
      ensures reply == Succeeds(old(Row()), worker, now)
      ensures Row() == if reply.Ok? then reply.value else old(Row())
    {
      if !Row().OwnedBy(worker) { return NotFound; }
      if !CanTransition(status, Succeeded) { return Conflict; }
      status := Succeeded;
      Finalize(now);
      reply := Ok(Row());
    }

    method Fail(worker: Option<Worker>, code: ErrorCode, target: FailureStatus, now: int)
      returns (reply: Reply<Execution>)
      modifies this
      ensures reply == Fails(old(Row()), worker, code, target, now)
      ensures Row() == if reply.Ok? then reply.value else old(Row())
    {
      if worker.Some? && !Row().OwnedBy(worker.value) { return NotFound; }
      if !CanTransition(status, target) { return Conflict; }
      status := target;
      errorCode := Some(code);
      retryClass := Some(RetryClassFor(code));
      Finalize(now);
      reply := Ok(Row());
    }

    method Cancel(now: int) returns (reply: Reply<Execution>)
      modifies this
      ensures reply == Cancels(old(Row()), now)
      ensures Row() == if reply.Ok? then reply.value else old(Row())
    {
      if !CanTransition(status, Cancelled) { return Conflict; }
      status := Cancelled;
      errorCode := Some(CancelledByUser);
      retryClass := Some(NonRetryable);
      Finalize(now);
      reply := Ok(Row());
    }

    /** extend_lease inside its transaction: an overdue run is failed first and
        the exception raised after. */
    method ExtendLease(cfg: Settings, worker: Worker, now: int) returns (reply: Reply<Execution>)
      modifies this
      ensures reply == Extends(cfg, old(Row()), worker, now)
      ensures Row() == if reply.Ok? then reply.value
                       else if TimesOut(old(Row()), worker, now).Ok? then TimesOut(old(Row()), worker, now).value
                       else old(Row())
    {
      if !Row().OwnedBy(worker) { return NotFound; }
      if status !in LEASED_STATUSES { return Conflict; }
      var began := if startedAt.Some? then startedAt else assignedAt;
      if began.Some? && now > began.value + run.timeoutSeconds {
        var failed := Fail(Some(worker), ExecutionTimeout, TimedOut, now);
        return Conflict;
      }
      leaseExpiresAt := Some(now + cfg.lease);
      reply := Ok(Row());
    }

    /** The session rolling back: the row is again what the transaction read. */
    method RollBack(e: Execution)
      requires SameIdentity(Row(), e)
      modifies this
      ensures Row() == e
    {
      status, workerId, assignedAt, startedAt := e.status, e.workerId, e.assignedAt, e.startedAt;
      completedAt, leaseExpiresAt := e.completedAt, e.leaseExpiresAt;
      errorCode, retryClass := e.errorCode, e.retryClass;
    }

    /** A progress request: `get_db` rolls the session back on any raise, so the
        time-out that an overdue heartbeat writes does not survive it. */
    method ReportProgress(cfg: Settings, worker: Worker, now: int) returns (reply: Reply<Execution>)
      modifies this
      ensures reply == Extends(cfg, old(Row()), worker, now)
      ensures Row() == if reply.Ok? then reply.value else old(Row())
    {
      var before := Row();
      reply := ExtendLease(cfg, worker, now);
      if !reply.Ok? { RollBack(before); }
    }
  }
}
