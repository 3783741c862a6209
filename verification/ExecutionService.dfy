/** backend/src/reports/execution_service.py, the calls that work on the whole
    table: enqueue, create_retry, the reaper and the claim that runs it first. */
module ExecutionService {
  import opened Prelude
  import opened ReportEnums
  import opened ReportErrors
  import opened StateMachine
  import opened IdempotencyKeys
  import opened Executions
  import opened ReportProtocol
  import opened ReportRuns
  import opened ReportRetries
  import opened ReportCalls
  import opened ReportAdmission
  import opened Reaping
  import opened ReportExecutions
  import opened ExecutionRepository

  /** The table alone at one clock reading: no claim is in progress. */
  function At(rows: Rows, now: int): Db { Db(rows, map[], map[], now) }

  /** What `enqueue` answers: a refusal, or a row and whether it made it. */
  datatype Enqueued = Refused(why: Refusal) | Existing(id: Id) | Created(id: Id)

  class Service {
    const cfg: Settings
    const repository: Repository

    constructor (cfg: Settings, repository: Repository)
      ensures this.cfg == cfg && this.repository == repository
    {
      this.cfg, this.repository := cfg, repository;
    }

    method Enqueue(definition: Definition, org: Id, trigger: TriggerType, triggeredBy: Option<Id>, key: RootKey,
                   scheduledFor: Option<int>, correlationId: Id, hosts: Hosts, now: int) returns (answer: Enqueued)
      requires repository.Valid() && HostsOk(hosts)
      requires !CorrelationUsed(repository.Rows(), correlationId)
      modifies repository
      ensures repository.Valid()
      ensures !answer.Existing? && !answer.Created? ==> repository.Rows() == old(repository.Rows())
      ensures match answer
        case Refused(why) =>
          if why in {ReportNotActive, NoWorkbook} then WhyNotRunnable(definition) == Some(why)
          else
            && WhyNotRunnable(definition).None? && !KeyTaken(old(repository.Rows()), org, key)
            && (forall id :: !MayRun(definition, org, hosts, id))
            && (why == NoWorkerOnline <==> forall id :: !Considered(definition, org, hosts, id))
        case Existing(id) =>
          && WhyNotRunnable(definition).None? && repository.Rows() == old(repository.Rows())
          && Lookup(old(repository.Rows()), org, key) == Some(id)
        case Created(id) =>
          && WhyNotRunnable(definition).None? && !KeyTaken(old(repository.Rows()), org, key)
          && (exists host :: MayRun(definition, org, hosts, host))
          && id !in old(repository.Rows()) && id in repository.Rows()
          && var run := RunOf(cfg, definition, org, triggeredBy, correlationId, scheduledFor);
             At(repository.Rows(), now) == Apply(cfg, At(old(repository.Rows()), now), Insert(id, run, key, trigger))
    {
      hide MayRun, Considered, KeysUnique, RunOf, Apply, WhyNotRunnable, KeyTaken;
      var refusal := WhyNotRunnable(definition);
      RunnableMeans(definition);
      if refusal.Some? { return Refused(refusal.value); }
      var existing := repository.GetByIdempotencyKey(org, key);
      if existing.Some? { return Existing(existing.value); }
      refusal := AssertAWorkerCouldRun(definition, org, hosts);
      if refusal.Some? { return Refused(refusal.value); }
      var run := RunOf(cfg, definition, org, triggeredBy, correlationId, scheduledFor);
      RunIsOf(cfg, definition, org, triggeredBy, correlationId, scheduledFor);
      var id := Queue(run, key, trigger, now);
      answer := Created(id);
    }

    /** The insert, of a key that is free. */
    method Queue(run: Run, key: RootKey, trigger: TriggerType, now: int) returns (id: Id)
      requires repository.Valid() && run.maxAttempts == cfg.maxAttempts
      requires !KeyTaken(repository.Rows(), run.organizationId, key)
      requires !CorrelationUsed(repository.Rows(), run.correlationId)
      modifies repository
      ensures repository.Valid()
      ensures id !in old(repository.Rows()) && id in repository.Rows()
      ensures At(repository.Rows(), now) == Apply(cfg, At(old(repository.Rows()), now), Insert(id, run, key, trigger))
    {
      hide KeysUnique, KeyTaken, CorrelationUsed;
      var created := repository.Create(NewExecution(run, key, trigger, now));
      id := created.value;
    }

    /** The tail of create_retry: the replacement is inserted first, and only
        then is the failed row marked. */
    method Replace(id: Id, retry: Execution) returns (child: Id)
      requires repository.Valid() && id in repository.table
      requires !KeyTaken(repository.Rows(), retry.run.organizationId, retry.idempotencyKey)
      modifies repository, repository.table[id]
      ensures repository.Valid()
      ensures child == old(repository.nextId) && child !in old(repository.Rows())
      ensures repository.Rows() == old(repository.Rows())[child := retry][id := Retired(old(repository.Rows())[id])]
      ensures TableGrows(old(repository.table), repository.table)
      ensures forall i :: i in repository.table && i !in old(repository.table) ==> fresh(repository.table[i])
    {
      var created := repository.Create(retry);
      child := created.value;
      label inserted:
      var execution := repository.table[id];
      execution.status := Retrying;
      repository.OneRowWritten@inserted(id);
    }

    method CreateRetry(id: Id, now: int) returns (outcome: RetryOutcome)
      requires repository.Valid() && id in repository.table
      requires Inv(cfg, At(repository.Rows(), now))
      modifies repository, repository.table[id]
      ensures repository.Valid()
      ensures old(repository.nextId) !in old(repository.Rows())
      ensures outcome == RetryOutcomeOf(old(repository.Rows()), id, old(repository.nextId))
      ensures repository.Rows() == if outcome.Spawned?
        then WithRetry(cfg, old(repository.Rows()), id, old(repository.nextId), now) else old(repository.Rows())
      ensures TableGrows(old(repository.table), repository.table)
      ensures forall i :: i in repository.table && i !in old(repository.table) ==> fresh(repository.table[i])
    {
      hide Inv, RowOk;
      RetryAnswersOwnChild(cfg, At(repository.Rows(), now), id, repository.nextId);
      var e := repository.table[id].Row();
      if !e.CanRetry() { return NotWarranted; }
      var existing := repository.GetByIdempotencyKey(e.run.organizationId, RetryKey(e.idempotencyKey, e.attempt + 1));
      if existing.Some? { return Found(existing.value); }
      // assert_transition never raises here.
      assert CanTransition(e.status, Retrying);
      var child := Replace(id, NewRetry(cfg, id, e, now));
      outcome := Spawned(child);
    }

    method TimeOut(id: Id, code: ErrorCode, now: int)
      requires repository.Valid() && id in repository.table
      requires CanTransition(repository.Rows()[id].status, TimedOut)
      modifies repository.table[id]
      ensures repository.Valid() && repository.table == old(repository.table) && repository.nextId == old(repository.nextId)
      ensures repository.Rows() == old(repository.Rows())[id := TimedOutRow(old(repository.Rows())[id], code, now)]
    {
      var reply := repository.table[id].Fail(None, code, TimedOut, now);
      repository.OneRowWritten(id);
    }

    /** The reaper's first loop body: fail the row, then retry it. */
    method ReapLease(id: Id, now: int)
      requires repository.Valid() && id in repository.table && Inv(cfg, At(repository.Rows(), now))
      requires repository.Rows()[id].Leased()
      modifies repository, repository.table[id]
      ensures repository.Valid()
      ensures old(repository.nextId) !in old(repository.Rows())
      ensures repository.Rows() == LeaseReaped(cfg, old(repository.Rows()), id, old(repository.nextId), now)
      ensures TableGrows(old(repository.table), repository.table)
      ensures forall i :: i in repository.table && i !in old(repository.table) ==> fresh(repository.table[i])
    {
      LeaseReapedIsTwoActions(cfg, repository.Rows(), id, repository.nextId, now);
      TimeOut(id, WorkerLeaseExpired, now);
      var outcome := CreateRetry(id, now);
    }

    method ReapLeases(expired: seq<Id>, now: int)
      requires repository.Valid() && Inv(cfg, At(repository.Rows(), now))
      requires Distinct(expired)
      requires forall id :: id in expired ==> id in repository.Rows() && repository.Rows()[id].Leased()
      modifies repository, repository.table.Values
      ensures repository.Valid()
      ensures Sweeping(cfg, old(repository.Rows()), repository.Rows(), Members(expired), {}, now)
      ensures TableGrows(old(repository.table), repository.table)
      ensures forall i :: i in repository.table && i !in old(repository.table) ==> fresh(repository.table[i])
    {
      hide Inv, Swept, Follows, KeysUnique;
      ghost var before := repository.Rows();
      SweepBegins(cfg, before, now);
      assert Members(expired[..0]) == {};
      for i := 0 to |expired|
        invariant repository.Valid()
        invariant Sweeping(cfg, before, repository.Rows(), Members(expired[..i]), {}, now)
        invariant TableGrows(old(repository.table), repository.table)
        invariant forall k :: k in repository.table && k !in old(repository.table) ==> fresh(repository.table[k])
      {
        var id := expired[i];
        assert Members(expired[..i + 1]) == Members(expired[..i]) + {id};
        LeaseStep(cfg, before, repository.Rows(), Members(expired[..i]), id, repository.nextId, now);
        ReapLease(id, now);
      }
      assert expired[..|expired|] == expired;
    }

    method ReapQueue(stale: seq<Id>, now: int, ghost before: Rows, ghost leases: set<Id>)
      requires repository.Valid() && Distinct(stale)
      requires Sweeping(cfg, before, repository.Rows(), leases, {}, now)
      requires forall id :: id in stale ==> id in before && id !in leases && before[id].status == Queued
      modifies repository.table.Values
      ensures repository.Valid() && repository.table == old(repository.table)
      ensures Sweeping(cfg, before, repository.Rows(), leases, Members(stale), now)
    {
      hide Inv, Swept, Follows, KeysUnique;
      assert Members(stale[..0]) == {};
      for i := 0 to |stale|
        invariant repository.Valid() && repository.table == old(repository.table)
        invariant Sweeping(cfg, before, repository.Rows(), leases, Members(stale[..i]), now)
      {
        var id := stale[i];
        assert Members(stale[..i + 1]) == Members(stale[..i]) + {id};
        QueueStep(cfg, before, repository.Rows(), leases, Members(stale[..i]), id, now);
        TimeOut(id, WorkerOffline, now);
      }
      assert stale[..|stale|] == stale;
    }

    method ReapStaleExecutions(org: Option<Id>, now: int) returns (reaped: nat)
      requires repository.Valid() && Inv(cfg, At(repository.Rows(), now))
      modifies repository, repository.table.Values
      ensures repository.Valid()
      ensures exists leases, queue :: ReapedPages(cfg, old(repository.Rows()), repository.Rows(), leases, queue, org, now, reaped)
      ensures TableGrows(old(repository.table), repository.table)
      ensures forall i :: i in repository.table && i !in old(repository.table) ==> fresh(repository.table[i])
    {
      hide Inv, Swept, Follows, KeysUnique, Sweeping, IsPage, Distinct, Members, LapsedIds, StaleIds, ReapedPages;
      ghost var before := repository.Rows();
      var expired := repository.FindExpiredLeases(org, now);
      PageIsLeased(before, expired, org, now);
      ReapLeases(expired, now);
      QueueUntouched(cfg, before, repository.Rows(), expired, org, now);
      var stale := repository.FindStaleQueued(org, now);
      PageIsQueued(before, expired, stale, org, now);
      ReapQueue(stale, now, before, Members(expired));
      reaped := |expired| + |stale|;
      ReapDone(cfg, before, repository.Rows(), expired, stale, org, now);
    }

    /** A poll reaps the worker's own organization first, then claims. */
    method ClaimNext(worker: Worker, reports: map<Id, Report>, now: int) returns (claimed: Option<Id>)
      requires repository.Valid() && Inv(cfg, At(repository.Rows(), now))
      modifies repository, repository.table.Values
      ensures repository.Valid()
      ensures exists swept, leases, queue, reaped ::
        && ReapedPages(cfg, old(repository.Rows()), swept, leases, queue, Some(worker.organizationId), now, reaped)
        && ClaimsFrom(cfg, swept, repository.Rows(), worker, reports, now, claimed)
    {
      hide Inv, Swept, Follows, KeysUnique, ReapedPages, MayLock, Eligible;
      var reaped := ReapStaleExecutions(Some(worker.organizationId), now);
      ghost var swept := repository.Rows();
      claimed := None;
      if CanRunReports(worker) {
        claimed := repository.ClaimNext(cfg, worker, reports, now);
      }
      assert ClaimsFrom(cfg, swept, repository.Rows(), worker, reports, now, claimed);
    }
  }

  /** What a poll does to a table already swept: the fair claim or nothing. */
  ghost predicate ClaimsFrom(cfg: Settings, swept: Rows, after: Rows, worker: Worker, reports: map<Id, Report>,
                             now: int, claimed: Option<Id>) {
    match claimed
    case Some(id) =>
      && MayLock(Db(swept, reports, map[], now), worker, id)
      && after == swept[id := Claimed(cfg, swept[id], worker, now)]
    case None =>
      && after == swept
      && (CanRunReports(worker) ==> forall id :: !Eligible(swept, reports, worker, id, now))
  }

  lemma SweepBegins(cfg: Settings, before: Rows, now: int)
    requires Inv(cfg, At(before, now))
    ensures Sweeping(cfg, before, before, {}, {}, now)
  {
    StartsAnywhere(cfg, At(before, now));
  }

  lemma {:induction false} DistinctCount(ids: seq<Id>)
    requires Distinct(ids)
    ensures |Members(ids)| == |ids|
  {
    if ids != [] {
      var front, last := ids[..|ids| - 1], ids[|ids| - 1];
      DistinctCount(front);
      assert Members(ids) == Members(front) + {last};
    }
  }

  /** Part of a reap has been done: the table was reached by actions of the
      transition system, keeps its invariant, and exactly these rows are swept. */
  ghost predicate Sweeping(cfg: Settings, before: Rows, rows: Rows, leases: set<Id>, queue: set<Id>, now: int) {
    && Follows(cfg, At(before, now), At(rows, now))
    && Inv(cfg, At(rows, now))
    && Swept(cfg, before, rows, leases, queue, now)
  }

  /** Some run of the transition system leads from one state to the other. */
  ghost predicate Follows(cfg: Settings, start: Db, end: Db) {
    exists trail :: Play(cfg, start, trail) == end
  }

  lemma StartsAnywhere(cfg: Settings, start: Db)
    ensures Follows(cfg, start, start)
  {
    assert Play(cfg, start, []) == start;
  }

  lemma FollowsOne(cfg: Settings, start: Db, end: Db, a: Action)
    requires Follows(cfg, start, end)
    ensures Follows(cfg, start, Apply(cfg, end, a))
  {
    var trail :| Play(cfg, start, trail) == end;
    PlayAppends(cfg, start, trail, [a]);
    assert Play(cfg, end, [a]) == Apply(cfg, end, a);
    assert Play(cfg, start, trail + [a]) == Apply(cfg, end, a);
  }

  ghost predicate ReapedPages(cfg: Settings, before: Rows, after: Rows, leases: set<Id>, queue: set<Id>,
                              org: Option<Id>, now: int, reaped: nat) {
    && Sweeping(cfg, before, after, leases, queue, now)
    && IsPage(leases, LapsedIds(before, org, now)) && IsPage(queue, StaleIds(before, org, now))
    && reaped == |leases| + |queue|
  }

  /** The first sweep neither adds to nor takes from the overdue queue. */
  lemma QueueUntouched(cfg: Settings, before: Rows, after: Rows, expired: seq<Id>, org: Option<Id>, now: int)
    requires Sweeping(cfg, before, after, Members(expired), {}, now)
    requires IsPage(Members(expired), LapsedIds(before, org, now))
    ensures StaleIds(after, org, now) == StaleIds(before, org, now)
  {
    hide Inv, Follows, Swept;
    var leases := Members(expired);
    forall id | id in StaleIds(before, org, now) || id in StaleIds(after, org, now)
      ensures id in StaleIds(before, org, now) && id in StaleIds(after, org, now)
    {
      QueuedRowUntouched(cfg, before, after, leases, org, now, id);
    }
  }

  lemma QueuedRowUntouched(cfg: Settings, before: Rows, after: Rows, leases: set<Id>, org: Option<Id>, now: int, id: Id)
    requires Swept(cfg, before, after, leases, {}, now)
    requires forall l :: l in leases ==> l in before && before[l].Leased()
    ensures id in StaleIds(after, org, now) <==> id in StaleIds(before, org, now)
  {
    if id in before {
      assert after[id] == SweptRow(before[id], id, leases, {}, now);
    } else if id in after {
      SpawnIsNotDue(cfg, before, after, leases, {}, org, now, id);
    }
  }

  lemma PageIsLeased(rows: Rows, expired: seq<Id>, org: Option<Id>, now: int)
    requires IsPage(Members(expired), LapsedIds(rows, org, now))
    ensures forall id :: id in expired ==> id in rows && rows[id].Leased()
  {
    forall id | id in expired ensures id in LapsedIds(rows, org, now) { assert id in Members(expired); }
  }

  lemma PageIsQueued(rows: Rows, expired: seq<Id>, stale: seq<Id>, org: Option<Id>, now: int)
    requires IsPage(Members(expired), LapsedIds(rows, org, now)) && IsPage(Members(stale), StaleIds(rows, org, now))
    ensures forall id :: id in stale ==> id in rows && id !in Members(expired) && rows[id].status == Queued
  {
    forall id | id in stale ensures id in StaleIds(rows, org, now) && id !in Members(expired) {
      assert id in Members(stale);
    }
  }

  lemma ReapDone(cfg: Settings, before: Rows, after: Rows, expired: seq<Id>, stale: seq<Id>, org: Option<Id>, now: int)
    requires Sweeping(cfg, before, after, Members(expired), Members(stale), now)
    requires Distinct(expired) && IsPage(Members(expired), LapsedIds(before, org, now))
    requires Distinct(stale) && IsPage(Members(stale), StaleIds(before, org, now))
    ensures ReapedPages(cfg, before, after, Members(expired), Members(stale), org, now, |expired| + |stale|)
  {
    DistinctCount(expired);
    DistinctCount(stale);
  }

  /** When each population fits one page, a reap clears both completely: every
      lapsed lease with an attempt left has exactly one child, still queued, and
      no overdue queued row has any. */
  lemma FullReapClears(cfg: Settings, before: Rows, after: Rows, leases: set<Id>, queue: set<Id>,
                       org: Option<Id>, now: int, reaped: nat)
    requires ReapedPages(cfg, before, after, leases, queue, org, now, reaped)
    requires |LapsedIds(before, org, now)| <= PAGE && |StaleIds(before, org, now)| <= PAGE
    ensures LapsedIds(after, org, now) == {} && StaleIds(after, org, now) == {}
    ensures reaped == |LapsedIds(before, org, now)| + |StaleIds(before, org, now)|
    ensures forall id :: id in LapsedIds(before, org, now) && before[id].attempt < before[id].run.maxAttempts ==>
      exists child :: OnlyChild(after, id, child) && after[child].status == Queued
    ensures forall id :: id in StaleIds(before, org, now) ==> id in after && after[id].status == TimedOut && !HasChild(after, id)
  {
    hide Inv, Follows, RowsSwept, SpawnsMatch, HasChild;
    assert leases == LapsedIds(before, org, now) && queue == StaleIds(before, org, now);
    forall id | id in after && (Lapsed(after[id], org, now) || Stale(after[id], org, now)) ensures false {
      NothingNewIsDue(cfg, before, after, leases, queue, org, now, id);
    }
    forall id | id in leases && before[id].attempt < before[id].run.maxAttempts
      ensures exists child :: OnlyChild(after, id, child) && after[child].status == Queued
    {
      LeaseGetsOneChild(cfg, before, after, leases, queue, now, id);
    }
    forall id | id in queue ensures id in after && after[id].status == TimedOut && !HasChild(after, id) {
      QueuedGetsNoChild(cfg, before, after, leases, queue, now, id);
    }
  }

  // ------------------------------------------------------- what a reap touches

  /** What a reap writes to a lapsed lease: timed out, and retired if an attempt is left. */
  function LeaseExpiredRow(e: Execution, now: int): Execution {
    e.(status := if e.attempt < e.run.maxAttempts then Retrying else TimedOut,
       errorCode := Some(WorkerLeaseExpired), retryClass := Some(Retryable), completedAt := Some(now), leaseExpiresAt := None)
  }

  function NeverClaimedRow(e: Execution, now: int): Execution {
    e.(status := TimedOut, errorCode := Some(WorkerOffline), retryClass := Some(Retryable),
       completedAt := Some(now), leaseExpiresAt := None)
  }

  /** By the columns: a reap changes a row only if it is leased and its lease ended before
      now, or queued and past its timeout, and is of the organization asked for. */
  lemma ReapInColumns(cfg: Settings, before: Rows, after: Rows, leases: set<Id>, queue: set<Id>,
                      org: Option<Id>, now: int, reaped: nat, id: Id)
    requires ReapedPages(cfg, before, after, leases, queue, org, now, reaped) && id in before
    ensures id in after
    ensures var e := before[id];
      var lapsed := e.status in {Assigned, Running} && e.leaseExpiresAt.Some? && e.leaseExpiresAt.value < now;
      var overdue := e.status == Queued && e.queuedAt + e.run.timeoutSeconds < now;
      && (id in leases ==> lapsed && (org.Some? ==> org.value == e.run.organizationId) && after[id] == LeaseExpiredRow(e, now))
      && (id in queue ==> overdue && (org.Some? ==> org.value == e.run.organizationId) && after[id] == NeverClaimedRow(e, now))
      && (id !in leases && id !in queue ==> after[id] == e)
  {
    hide Inv, Follows, SpawnsMatch, SweptRow, IsPage, LapsedIds, StaleIds, KeysUnique;
    assert after[id] == SweptRow(before[id], id, leases, queue, now);
    SweptColumns(before[id], id, leases, queue, now);
    PagesAreDue(before, leases, queue, org, now, id);
  }

  lemma SweptColumns(e: Execution, id: Id, leases: set<Id>, queue: set<Id>, now: int)
    ensures SweptRow(e, id, leases, queue, now) ==
      if id in leases then LeaseExpiredRow(e, now) else if id in queue then NeverClaimedRow(e, now) else e
  {
  }

  lemma PagesAreDue(before: Rows, leases: set<Id>, queue: set<Id>, org: Option<Id>, now: int, id: Id)
    requires IsPage(leases, LapsedIds(before, org, now)) && IsPage(queue, StaleIds(before, org, now)) && id in before
    ensures var e := before[id];
      var here := org.Some? ==> org.value == e.run.organizationId;
      && (id in leases ==> here && e.status in {Assigned, Running} && e.leaseExpiresAt.Some? && e.leaseExpiresAt.value < now)
      && (id in queue ==> here && e.status == Queued && e.queuedAt + e.run.timeoutSeconds < now)
      && !(id in leases && id in queue)
  {
    assert id in leases ==> id in LapsedIds(before, org, now);
    assert id in queue ==> id in StaleIds(before, org, now);
  }

  /** A lease that has not run out is left alone by every reap. */
  lemma LiveLeaseIsLeftAlone(cfg: Settings, before: Rows, after: Rows, leases: set<Id>, queue: set<Id>,
                             org: Option<Id>, now: int, reaped: nat, id: Id)
    requires ReapedPages(cfg, before, after, leases, queue, org, now, reaped) && id in before
    requires before[id].status in {Assigned, Running} && before[id].leaseExpiresAt.Some? && before[id].leaseExpiresAt.value >= now
    ensures id in after && after[id] == before[id]
  {
    hide ReapedPages;
    ReapInColumns(cfg, before, after, leases, queue, org, now, reaped, id);
  }

  /** A row claimed, started or extended at t is swept as a lease by no reap up to
      t + lease, whatever happens in between: while its worker holds it, it is untouched. */
  lemma LeaseIsHonoured(cfg: Settings, db: Db, a: Action, id: Id, t: int, later: seq<Action>,
                        after: Rows, leases: set<Id>, queue: set<Id>, org: Option<Id>, now: int, reaped: nat)
    requires Inv(cfg, db) && Leases(cfg, db, a, id, t) && now <= t + cfg.lease
    requires ReapedPages(cfg, Play(cfg, Apply(cfg, db, a), later).rows, after, leases, queue, org, now, reaped)
    ensures id !in leases
    ensures var rows := Play(cfg, Apply(cfg, db, a), later).rows;
      id in rows && (rows[id].status in {Assigned, Running} ==> id in after && after[id] == rows[id])
  {
    hide ReapedPages, Leases, Apply, Play;
    LeaseStandsItsLength(cfg, db, a, id, t, later);
    ReapInColumns(cfg, Play(cfg, Apply(cfg, db, a), later).rows, after, leases, queue, org, now, reaped, id);
  }

  // ------------------------------------------------- what a poll can be given

  /** A queued row reaches the claim of a poll at `now`: the sweep has left it queued
      and its time has come. */
  predicate Offered(swept: Rows, id: Id, now: int) {
    id in swept && swept[id].status == Queued && swept[id].availableAt <= now
  }

  /** A sweep leaves a queued row alone unless it was overdue and on the page. */
  lemma QueuedAfterSweep(cfg: Settings, before: Rows, swept: Rows, leases: set<Id>, queue: set<Id>,
                         org: Id, now: int, reaped: nat, id: Id)
    requires ReapedPages(cfg, before, swept, leases, queue, Some(org), now, reaped)
    requires id in before && before[id].status == Queued && before[id].run.organizationId == org
    ensures id in swept && (swept[id].status == Queued <==> id !in queue)
    ensures id !in queue ==> swept[id] == before[id]
    ensures id in queue ==> Stale(before[id], None, now)
  {
    hide Inv, Follows, SpawnsMatch;
    assert swept[id] == SweptRow(before[id], id, leases, queue, now);
    assert id in leases ==> id in LapsedIds(before, Some(org), now);
    assert id in queue ==> id in StaleIds(before, Some(org), now);
  }

  /** A poll is offered a queued row exactly in its claim window, or after it if the row
      is overdue and missed the page. */
  lemma OfferedIff(cfg: Settings, before: Rows, swept: Rows, leases: set<Id>, queue: set<Id>,
                   org: Id, now: int, reaped: nat, id: Id)
    requires ReapedPages(cfg, before, swept, leases, queue, Some(org), now, reaped)
    requires id in before && before[id].status == Queued && before[id].run.organizationId == org
    ensures Offered(swept, id, now) <==>
      || ClaimableAt(before[id], now)
      || (before[id].availableAt <= now && id in StaleIds(before, Some(org), now) && id !in queue)
  {
    hide ReapedPages;
    QueuedAfterSweep(cfg, before, swept, leases, queue, org, now, reaped, id);
  }

  /** With at most a page of overdue rows: exactly in its claim window. */
  lemma OfferedExactlyInItsWindow(cfg: Settings, before: Rows, swept: Rows, leases: set<Id>, queue: set<Id>,
                                  org: Id, now: int, reaped: nat, id: Id)
    requires ReapedPages(cfg, before, swept, leases, queue, Some(org), now, reaped)
    requires |StaleIds(before, Some(org), now)| <= PAGE
    requires id in before && before[id].status == Queued && before[id].run.organizationId == org
    ensures Offered(swept, id, now) <==> ClaimableAt(before[id], now)
  {
    hide Sweeping;
    OfferedIff(cfg, before, swept, leases, queue, org, now, reaped, id);
  }

  /** A retry nobody has touched is offered from the end of its backoff to the end of its
      timeout, both counted from its creation: never, when the backoff is longer. */
  lemma RetryOfferedIff(cfg: Settings, before: Rows, swept: Rows, leases: set<Id>, queue: set<Id>, now: int, reaped: nat,
                        id: Id, parentId: Id, parent: Execution, made: int)
    requires ReapedPages(cfg, before, swept, leases, queue, Some(parent.run.organizationId), now, reaped)
    requires |StaleIds(before, Some(parent.run.organizationId), now)| <= PAGE
    requires id in before && before[id] == NewRetry(cfg, parentId, parent, made)
    ensures Offered(swept, id, now) <==>
      made + BackoffSeconds(cfg, parent.attempt) <= now <= made + parent.run.timeoutSeconds
  {
    hide ReapedPages;
    OfferedExactlyInItsWindow(cfg, before, swept, leases, queue, parent.run.organizationId, now, reaped, id);
  }

  /** A first attempt nobody has touched is offered for its whole timeout. */
  lemma RootOfferedIff(cfg: Settings, before: Rows, swept: Rows, leases: set<Id>, queue: set<Id>, now: int, reaped: nat,
                       id: Id, run: Run, key: RootKey, trigger: TriggerType, made: int)
    requires ReapedPages(cfg, before, swept, leases, queue, Some(run.organizationId), now, reaped)
    requires |StaleIds(before, Some(run.organizationId), now)| <= PAGE
    requires id in before && before[id] == NewExecution(run, key, trigger, made)
    ensures Offered(swept, id, now) <==> made <= now <= made + run.timeoutSeconds
  {
    hide ReapedPages;
    OfferedExactlyInItsWindow(cfg, before, swept, leases, queue, run.organizationId, now, reaped, id);
  }

  /** The row a poll claims is in its claim window exactly when it is not an overdue row
      that missed the page. */
  lemma ClaimedInItsWindowIff(cfg: Settings, before: Rows, swept: Rows, after: Rows, leases: set<Id>, queue: set<Id>,
                              worker: Worker, reports: map<Id, Report>, now: int, reaped: nat, id: Id)
    requires ReapedPages(cfg, before, swept, leases, queue, Some(worker.organizationId), now, reaped)
    requires ClaimsFrom(cfg, swept, after, worker, reports, now, Some(id))
    ensures id in swept
    ensures ClaimableAt(swept[id], now) <==> id !in StaleIds(before, Some(worker.organizationId), now) - queue
  {
    hide ReapedPages, Eligible, MayLock;
    ClaimIsOffered(cfg, swept, after, worker, reports, now, id);
    hide ClaimsFrom;
    SweptAndQueued(cfg, before, swept, leases, queue, worker.organizationId, now, reaped, id);
  }

  lemma ClaimIsOffered(cfg: Settings, swept: Rows, after: Rows, worker: Worker, reports: map<Id, Report>, now: int, id: Id)
    requires ClaimsFrom(cfg, swept, after, worker, reports, now, Some(id))
    ensures Offered(swept, id, now) && swept[id].run.organizationId == worker.organizationId
  {
    assert Eligible(swept, reports, worker, id, now);
  }

  /** A row that is queued after a sweep was untouched by it or made by it. */
  lemma SweptAndQueued(cfg: Settings, before: Rows, swept: Rows, leases: set<Id>, queue: set<Id>,
                       org: Id, now: int, reaped: nat, id: Id)
    requires ReapedPages(cfg, before, swept, leases, queue, Some(org), now, reaped)
    requires id in swept && swept[id].status == Queued && swept[id].run.organizationId == org
    ensures Stale(swept[id], None, now) <==> id in StaleIds(before, Some(org), now) - queue
  {
    hide Inv, Follows, SpawnsMatch, Lapsed;
    if id in before {
      assert swept[id] == SweptRow(before[id], id, leases, queue, now);
    } else {
      SpawnIsNotDue(cfg, before, swept, leases, queue, None, now, id);
    }
  }

  /** With at most a page of overdue rows a poll claims nothing outside its window. */
  lemma ClaimedInItsWindow(cfg: Settings, before: Rows, swept: Rows, after: Rows, leases: set<Id>, queue: set<Id>,
                           worker: Worker, reports: map<Id, Report>, now: int, reaped: nat, id: Id)
    requires ReapedPages(cfg, before, swept, leases, queue, Some(worker.organizationId), now, reaped)
    requires |StaleIds(before, Some(worker.organizationId), now)| <= PAGE
    requires ClaimsFrom(cfg, swept, after, worker, reports, now, Some(id))
    ensures id in swept && ClaimableAt(swept[id], now)
  {
    hide Sweeping, ClaimsFrom;
    ClaimedInItsWindowIff(cfg, before, swept, after, leases, queue, worker, reports, now, reaped, id);
  }

  // ---------------------------------------------------------- reaper steps

  lemma TimeOutIsAnAction(cfg: Settings, rows: Rows, id: Id, code: ErrorCode, now: int)
    requires id in rows && CanTransition(rows[id].status, TimedOut)
    ensures Apply(cfg, At(rows, now), Fail(id, None, code, TimedOut)) == At(rows[id := TimedOutRow(rows[id], code, now)], now)
  {
  }

  function LeaseReaped(cfg: Settings, rows: Rows, id: Id, child: Id, now: int): Rows
    requires id in rows
  {
    var timedOut := rows[id := TimedOutRow(rows[id], WorkerLeaseExpired, now)];
    if rows[id].attempt < rows[id].run.maxAttempts then WithRetry(cfg, timedOut, id, child, now) else timedOut
  }

  /** A leased row has no child yet, so the retry that follows its time-out is
      made exactly when an attempt is left, and neither step raises. */
  lemma LeaseReapedIsTwoActions(cfg: Settings, rows: Rows, id: Id, child: Id, now: int)
    requires Inv(cfg, At(rows, now)) && id in rows && rows[id].Leased() && child !in rows
    ensures var timedOut := Apply(cfg, At(rows, now), Fail(id, None, WorkerLeaseExpired, TimedOut));
      && timedOut == At(rows[id := TimedOutRow(rows[id], WorkerLeaseExpired, now)], now)
      && Inv(cfg, timedOut)
      && RetryOutcomeOf(timedOut.rows, id, child)
         == (if rows[id].attempt < rows[id].run.maxAttempts then Spawned(child) else NotWarranted)
      && Apply(cfg, timedOut, ReportProtocol.CreateRetry(id, child)) == At(LeaseReaped(cfg, rows, id, child, now), now)
  {
    hide Inv, HasChild, KeyTaken;
    TimeOutIsAnAction(cfg, rows, id, WorkerLeaseExpired, now);
    var timedOut := At(rows[id := TimedOutRow(rows[id], WorkerLeaseExpired, now)], now);
    ApplyKeepsInv(cfg, At(rows, now), Fail(id, None, WorkerLeaseExpired, TimedOut));
    RetryAnswersOwnChild(cfg, timedOut, id, child);
    RetiredExactlyWithChild(cfg, timedOut, id);
  }

  lemma LeaseStep(cfg: Settings, before: Rows, rows: Rows, leases: set<Id>, id: Id, child: Id, now: int)
    requires Sweeping(cfg, before, rows, leases, {}, now)
    requires id in before && id !in leases && before[id].Leased() && child !in rows
    ensures id in rows && rows[id] == before[id]
    ensures Sweeping(cfg, before, LeaseReaped(cfg, rows, id, child, now), leases + {id}, {}, now)
  {
    assert rows[id] == before[id];
    LeaseReapedIsTwoActions(cfg, rows, id, child, now);
    var fail, retry := Fail(id, None, WorkerLeaseExpired, TimedOut), ReportProtocol.CreateRetry(id, child);
    var timedOut := Apply(cfg, At(rows, now), fail);
    FollowsOne(cfg, At(before, now), At(rows, now), fail);
    FollowsOne(cfg, At(before, now), timedOut, retry);
    ApplyKeepsInv(cfg, timedOut, retry);
    if rows[id].attempt < rows[id].run.maxAttempts {
      SweepLease(cfg, before, rows, leases, id, child, now);
    } else {
      SweepLastLease(cfg, before, rows, leases, id, now);
    }
  }

  lemma QueueStep(cfg: Settings, before: Rows, rows: Rows, leases: set<Id>, queue: set<Id>, id: Id, now: int)
    requires Sweeping(cfg, before, rows, leases, queue, now)
    requires id in before && id !in leases && id !in queue && before[id].status == Queued
    ensures id in rows && rows[id] == before[id]
    ensures Sweeping(cfg, before, rows[id := TimedOutRow(rows[id], WorkerOffline, now)], leases, queue + {id}, now)
  {
    assert rows[id] == before[id];
    var fail := Fail(id, None, WorkerOffline, TimedOut);
    TimeOutIsAnAction(cfg, rows, id, WorkerOffline, now);
    FollowsOne(cfg, At(before, now), At(rows, now), fail);
    ApplyKeepsInv(cfg, At(rows, now), fail);
    SweepQueued(cfg, before, rows, leases, queue, id, now);
  }

  predicate TableGrows(before: map<Id, ReportExecution>, after: map<Id, ReportExecution>) {
    before.Keys <= after.Keys && forall i :: i in before ==> after[i] == before[i]
  }
}
