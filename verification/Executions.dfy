/** One row of `report_executions` and what each lifecycle call of
    backend/src/reports/execution_service.py does to it. Calls take the row and
    the clock reading and answer the new row or the exception they raise. */
module Executions {
  import opened Prelude
  import opened ReportEnums
  import opened ReportErrors
  import opened StateMachine
  import opened IdempotencyKeys

  type Id = nat

  /** The REPORT_* settings of backend/src/core/config.py, in seconds. Attempts
      include the first one, so at least one is configured. */
  datatype RawSettings = Settings(
    maxAttempts: nat, timeout: nat, maxTimeout: nat, lease: nat, backoff: nat, backoffMax: nat)

  type Settings = s: RawSettings | s.maxAttempts >= 1 witness Settings(3, 1200, 7200, 120, 60, 1800)

  const DEFAULT_SETTINGS: Settings := Settings(3, 1200, 7200, 120, 60, 1800)

  /** The columns a retry copies from the attempt it replaces. */
  datatype Run = Run(
    organizationId: Id, reportId: Id, workbookId: Id, triggeredBy: Option<Id>, correlationId: Id,
    scheduledFor: Option<int>, maxAttempts: nat, timeoutSeconds: nat)

  datatype Execution = Execution(
    run: Run, triggerType: TriggerType, idempotencyKey: string,
    attempt: nat, parentId: Option<Id>,
    queuedAt: int, availableAt: int,
    status: ExecutionStatus, workerId: Option<Id>,
    assignedAt: Option<int>, startedAt: Option<int>, completedAt: Option<int>, leaseExpiresAt: Option<int>,
    errorCode: Option<ErrorCode>, retryClass: Option<RetryClass>)
  {
    predicate Leased() { status in LEASED_STATUSES }

    predicate Live() { status == Queued || Leased() }

    /** `started_at or assigned_at`. */
    function Began(): Option<int> {
      if startedAt.Some? then startedAt else assignedAt
    }

    predicate Overdue(now: int) {
      Began().Some? && now > Began().value + run.timeoutSeconds
    }

    predicate OwnedBy(worker: Worker) {
      run.organizationId == worker.organizationId && workerId == Some(worker.id)
    }

    predicate CanRetry() {
      retryClass == Some(Retryable) && attempt < run.maxAttempts
    }
  }

  datatype Worker = Worker(id: Id, organizationId: Id, capabilities: set<WorkerCapability>)

  // ------------------------------------------------------------------ timeouts

  /** `requested` is the report's own timeout where it parses as an integer. */
  function TimeoutFor(cfg: Settings, requested: Option<int>): (seconds: nat)
    ensures requested.Some? && cfg.maxTimeout >= 60 ==> 60 <= seconds <= cfg.maxTimeout
    ensures requested.Some? && 60 <= requested.value <= cfg.maxTimeout ==> seconds == requested.value
    ensures requested.Some? && requested.value < 60 ==> seconds == 60
    ensures requested.None? ==> seconds == cfg.timeout
  {
    match requested
    case None => cfg.timeout
    case Some(r) =>
      var clamped := if r < cfg.maxTimeout then r else cfg.maxTimeout;
      if clamped < 60 then 60 else clamped
  }

  function Power2(n: nat): (p: nat)
    ensures p >= 1
  {
    if n == 0 then 1 else 2 * Power2(n - 1)
  }

  function BackoffSeconds(cfg: Settings, attempt: nat): nat {
    var delay := cfg.backoff * Power2(if attempt == 0 then 0 else attempt - 1);
    if delay < cfg.backoffMax then delay else cfg.backoffMax
  }

  lemma {:induction false} BackoffGrowsToItsCap(cfg: Settings, earlier: nat, later: nat)
    requires earlier <= later
    ensures BackoffSeconds(cfg, earlier) <= BackoffSeconds(cfg, later) <= cfg.backoffMax
    decreases later - earlier
  {
    if earlier < later {
      BackoffGrowsToItsCap(cfg, earlier + 1, later);
      var n := if earlier == 0 then 0 else earlier - 1;
      assert Power2(n) <= Power2(earlier);
      assert cfg.backoff * Power2(n) <= cfg.backoff * Power2(earlier);
    }
  }

  /** The first retry waits the base delay and each one after it twice as long, until
      the cap cuts either off. */
  lemma BackoffDoubles(cfg: Settings, attempt: nat)
    requires attempt >= 1
    ensures BackoffSeconds(cfg, 1) == if cfg.backoff < cfg.backoffMax then cfg.backoff else cfg.backoffMax
    ensures var twice := 2 * BackoffSeconds(cfg, attempt);
      BackoffSeconds(cfg, attempt + 1) == if twice < cfg.backoffMax then twice else cfg.backoffMax
  {
    var p := Power2(attempt - 1);
    assert Power2(attempt) == 2 * p;
    assert cfg.backoff * (2 * p) == 2 * (cfg.backoff * p);
  }

  // ---------------------------------------------------------------- new rows

  function NewExecution(run: Run, key: RootKey, trigger: TriggerType, now: int): Execution {
    Execution(run, trigger, key, 1, None, now, now, Queued, None, None, None, None, None, None, None)
  }

  function NewRetry(cfg: Settings, parentId: Id, parent: Execution, now: int): Execution {
    Execution(parent.run, Retry, RetryKey(parent.idempotencyKey, parent.attempt + 1),
              parent.attempt + 1, Some(parentId),
              now, now + BackoffSeconds(cfg, parent.attempt), Queued,
              None, None, None, None, None, None, None)
  }

  // -------------------------------------------------------------- transitions

  function Finalized(e: Execution, now: int): Execution {
    e.(completedAt := Some(now), leaseExpiresAt := None)
  }

  function Claimed(cfg: Settings, e: Execution, worker: Worker, now: int): Execution {
    e.(status := Assigned, workerId := Some(worker.id), assignedAt := Some(now),
       leaseExpiresAt := Some(now + cfg.lease))
  }

  function Started(cfg: Settings, e: Execution, worker: Worker, now: int): Reply<Execution> {
    if !e.OwnedBy(worker) then NotFound
    else if !CanTransition(e.status, Running) then Conflict
    else Ok(e.(status := Running, startedAt := Some(now), leaseExpiresAt := Some(now + cfg.lease)))
  }

  function Succeeds(e: Execution, worker: Worker, now: int): Reply<Execution> {
    if !e.OwnedBy(worker) then NotFound
    else if !CanTransition(e.status, Succeeded) then Conflict
    else Ok(Finalized(e.(status := Succeeded), now))
  }

  /** The two targets any caller uses. */
  type FailureStatus = s: ExecutionStatus | s == Failed || s == TimedOut witness Failed

  function Fails(e: Execution, worker: Option<Worker>, code: ErrorCode, target: FailureStatus, now: int)
    : Reply<Execution>
  {
    if worker.Some? && !e.OwnedBy(worker.value) then NotFound
    else if !CanTransition(e.status, target) then Conflict
    else Ok(Finalized(e.(status := target, errorCode := Some(code), retryClass := Some(RetryClassFor(code))), now))
  }

  function Cancels(e: Execution, now: int): Reply<Execution> {
    if !CanTransition(e.status, Cancelled) then Conflict
    else Ok(Finalized(e.(status := Cancelled, errorCode := Some(CancelledByUser), retryClass := Some(NonRetryable)), now))
  }

  /** A heartbeat that arrives in time. One that arrives past the run's own
      deadline raises Conflict after failing the row (see TimesOut). */
  function Extends(cfg: Settings, e: Execution, worker: Worker, now: int): Reply<Execution> {
    if !e.OwnedBy(worker) then NotFound
    else if !e.Leased() || e.Overdue(now) then Conflict
    else Ok(e.(leaseExpiresAt := Some(now + cfg.lease)))
  }

  /** What an overdue heartbeat writes before it raises; the raise then rolls
      the request's transaction back unless the caller keeps it. */
  function TimesOut(e: Execution, worker: Worker, now: int): Reply<Execution> {
    if !e.OwnedBy(worker) then NotFound
    else if !e.Leased() || !e.Overdue(now) then Conflict
    else Fails(e, Some(worker), ExecutionTimeout, TimedOut, now)
  }

  function Retired(e: Execution): Execution { e.(status := Retrying) }

  // -------------------------------------------------------------- populations

  /** find_expired_leases. */
  predicate Lapsed(e: Execution, org: Option<Id>, now: int) {
    && e.Leased() && e.leaseExpiresAt.Some? && e.leaseExpiresAt.value < now
    && (org.Some? ==> e.run.organizationId == org.value)
  }

  /** find_stale_queued. */
  predicate Stale(e: Execution, org: Option<Id>, now: int) {
    && e.status == Queued && e.queuedAt + e.run.timeoutSeconds < now
    && (org.Some? ==> e.run.organizationId == org.value)
  }
}
