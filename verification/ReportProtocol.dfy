/** The execution table as a transition system. An action is one committed
    service call, except that a claim is split into taking the row lock and
    writing the row, so that claims interleave. A raised exception leaves the
    table as it was. Every action names the fresh ids it uses. */
module ReportProtocol {
  import opened Prelude
  import opened ReportEnums
  import opened ReportErrors
  import opened StateMachine
  import opened IdempotencyKeys
  import opened Executions

  type Rows = map<Id, Execution>

  /** The claim-time half of a report definition. */
  datatype Report = Report(pin: Option<Id>, outputFormats: set<OutputFormat>)

  /** A row lock held by a claim that has not written its row yet. */
  datatype Lock = Lock(worker: Worker, takenAt: int)

  datatype Db = Db(rows: Rows, reports: map<Id, Report>, locks: map<Id, Lock>, now: int)

  const EMPTY: Db := Db(map[], map[], map[], 0)

  datatype Action =
    | Tick(elapsed: nat)
    | EditReport(reportId: Id, report: Report)
    | Insert(id: Id, run: Run, key: RootKey, trigger: TriggerType)
    | LockNext(worker: Worker, id: Id)
    | ClaimLocked(id: Id)
    | Start(id: Id, worker: Worker)
    | Extend(id: Id, worker: Worker, kept: bool)
    | Succeed(id: Id, worker: Worker)
    | Fail(id: Id, failer: Option<Worker>, code: ErrorCode, target: FailureStatus)
    | Cancel(id: Id)
    | CreateRetry(id: Id, child: Id)

  // ------------------------------------------------------------------ lookups

  ghost predicate KeyTaken(rows: Rows, org: Id, key: string) {
    exists id :: id in rows && rows[id].run.organizationId == org && rows[id].idempotencyKey == key
  }

  /** get_by_idempotency_key. */
  ghost function Lookup(rows: Rows, org: Id, key: string): (found: Option<Id>)
    ensures found.None? <==> !KeyTaken(rows, org, key)
    ensures found.Some? ==>
      && found.value in rows
      && rows[found.value].run.organizationId == org && rows[found.value].idempotencyKey == key
  {
    if KeyTaken(rows, org, key) then
      var id :| id in rows && rows[id].run.organizationId == org && rows[id].idempotencyKey == key;
      Some(id)
    else None
  }

  predicate InRun(rows: Rows, correlationId: Id, id: Id) {
    id in rows && rows[id].run.correlationId == correlationId
  }

  ghost predicate CorrelationUsed(rows: Rows, correlationId: Id) {
    exists id :: InRun(rows, correlationId, id)
  }

  // ------------------------------------------------------------------- claims

  function SupportedFormats(worker: Worker): set<OutputFormat> {
    set f | f in FORMAT_CAPABILITY && FORMAT_CAPABILITY[f] in worker.capabilities
  }

  predicate CanRunReports(worker: Worker) {
    {Excel, PafeAutomation} <= worker.capabilities
  }

  predicate Eligible(rows: Rows, reports: map<Id, Report>, worker: Worker, id: Id, now: int) {
    && id in rows
    && rows[id].run.organizationId == worker.organizationId
    && rows[id].status == Queued
    && rows[id].availableAt <= now
    && rows[id].run.reportId in reports
    && var report := reports[rows[id].run.reportId];
    && (report.pin.None? || report.pin == Some(worker.id))
    && report.outputFormats <= SupportedFormats(worker)
  }

  /** ORDER BY available_at, queued_at. */
  predicate NotAfter(a: Execution, b: Execution) {
    a.availableAt < b.availableAt || (a.availableAt == b.availableAt && a.queuedAt <= b.queuedAt)
  }

  /** The row `SELECT ... LIMIT 1 FOR UPDATE SKIP LOCKED` may hand out. */
  ghost predicate MayLock(db: Db, worker: Worker, id: Id) {
    && CanRunReports(worker)
    && Eligible(db.rows, db.reports, worker, id, db.now) && id !in db.locks
    && forall other :: Eligible(db.rows, db.reports, worker, other, db.now) && other !in db.locks
         ==> NotAfter(db.rows[id], db.rows[other])
  }

  // ------------------------------------------------------------------ retries

  datatype RetryOutcome = NotWarranted | Found(id: Id) | Spawned(id: Id) | Raised

  ghost function RetryOutcomeOf(rows: Rows, id: Id, child: Id): RetryOutcome
    requires id in rows
  {
    var e := rows[id];
    var existing := Lookup(rows, e.run.organizationId, RetryKey(e.idempotencyKey, e.attempt + 1));
    if !e.CanRetry() then NotWarranted
    else if existing.Some? then Found(existing.value)
    else if !CanTransition(e.status, Retrying) then Raised
    else Spawned(child)
  }

  function WithRetry(cfg: Settings, rows: Rows, id: Id, child: Id, now: int): Rows
    requires id in rows
  {
    rows[child := NewRetry(cfg, id, rows[id], now)][id := Retired(rows[id])]
  }

  // --------------------------------------------------------------- transitions

  function Put(db: Db, id: Id, reply: Reply<Execution>): Db {
    if reply.Ok? then db.(rows := db.rows[id := reply.value]) else db
  }

  /** Actions that rewrite one existing row and nothing else. */
  predicate IsRowCall(a: Action) { a.Start? || a.Extend? || a.Succeed? || a.Fail? || a.Cancel? }

  function RowCall(cfg: Settings, e: Execution, a: Action, now: int): Reply<Execution>
    requires IsRowCall(a)
  {
    match a
    case Start(_, worker) => Started(cfg, e, worker, now)
    case Extend(_, worker, kept) =>
      if kept && TimesOut(e, worker, now).Ok? then TimesOut(e, worker, now) else Extends(cfg, e, worker, now)
    case Succeed(_, worker) => Succeeds(e, worker, now)
    case Fail(_, failer, code, target) => Fails(e, failer, code, target, now)
    case Cancel(_) => Cancels(e, now)
  }

  predicate MayClaim(db: Db, id: Id) { id in db.locks && id in db.rows }

  /** A call on a row that a claim has locked waits until the claim commits. */
  predicate Unlocked(db: Db, id: Id) { id in db.rows && id !in db.locks }

  ghost predicate MayInsert(cfg: Settings, db: Db, id: Id, run: Run, key: string) {
    && id !in db.rows && run.maxAttempts == cfg.maxAttempts
    && !KeyTaken(db.rows, run.organizationId, key) && !CorrelationUsed(db.rows, run.correlationId)
  }

  ghost predicate MayRetry(db: Db, id: Id, child: Id) {
    Unlocked(db, id) && child !in db.rows && RetryOutcomeOf(db.rows, id, child).Spawned?
  }

  ghost function Apply(cfg: Settings, db: Db, a: Action): Db {
    match a
    case Tick(elapsed) => db.(now := db.now + elapsed)
    case EditReport(reportId, report) => db.(reports := db.reports[reportId := report])
    case Insert(id, run, key, trigger) =>
      if MayInsert(cfg, db, id, run, key)
      then db.(rows := db.rows[id := NewExecution(run, key, trigger, db.now)]) else db
    case LockNext(worker, id) =>
      if MayLock(db, worker, id) then db.(locks := db.locks[id := Lock(worker, db.now)]) else db
    case ClaimLocked(id) =>
      if MayClaim(db, id) then
        var lock := db.locks[id];
        db.(rows := db.rows[id := Claimed(cfg, db.rows[id], lock.worker, lock.takenAt)], locks := db.locks - {id})
      else db
    case CreateRetry(id, child) =>
      if MayRetry(db, id, child) then db.(rows := WithRetry(cfg, db.rows, id, child, db.now)) else db
    case _ =>
      if Unlocked(db, a.id) then Put(db, a.id, RowCall(cfg, db.rows[a.id], a, db.now)) else db
  }

  ghost function Play(cfg: Settings, db: Db, actions: seq<Action>): Db
    decreases |actions|
  {
    if actions == [] then db else Play(cfg, Apply(cfg, db, actions[0]), actions[1..])
  }

  // ---------------------------------------------------------------- invariant

  predicate RowOk(cfg: Settings, e: Execution, now: int) {
    && 1 <= e.attempt <= e.run.maxAttempts
    && e.queuedAt <= now && e.queuedAt <= e.availableAt
    && (e.leaseExpiresAt.Some? <==> e.Leased())
    && (e.completedAt.Some? <==> !e.Live())
    && (e.workerId.Some? <==> e.assignedAt.Some?)
    && (e.status == Queued ==> e.workerId.None?)
    && (e.Leased() ==> e.workerId.Some?)
    && (e.startedAt.Some? ==> e.assignedAt.Some?)
    && (e.status == Running ==> e.startedAt.Some?)
    && (e.status == Succeeded ==> e.startedAt.Some?)
    && (e.status in {Queued, Assigned} ==> e.startedAt.None?)
    && (e.retryClass.Some? <==> !e.Live() && e.status != Succeeded)
    && (e.retryClass == Some(Retryable) ==> e.status in {Failed, TimedOut, Retrying})
    && (e.status == Retrying ==> e.CanRetry())
    && LeaseBounded(cfg, e, now)
  }

  /** However often it is extended, a lease ends within the run's own timeout
      and one lease length of the moment the worker began. */
  predicate LeaseBounded(cfg: Settings, e: Execution, now: int) {
    && (e.Began().Some? ==> e.Began().value <= now)
    && (e.leaseExpiresAt.Some? ==>
          && e.Began().Some?
          && e.leaseExpiresAt.value <= now + cfg.lease
          && e.leaseExpiresAt.value <= e.Began().value + e.run.timeoutSeconds + cfg.lease)
  }

  predicate SameSlot(e: Execution, f: Execution) {
    e.run.organizationId == f.run.organizationId && e.idempotencyKey == f.idempotencyKey
  }

  predicate SameRoot(e: Execution, f: Execution) {
    e.parentId.None? && f.parentId.None? && e.run.correlationId == f.run.correlationId
  }

  /** The unique index on (organization_id, idempotency_key). */
  ghost predicate KeysUnique(rows: Rows) {
    forall i, j {:trigger SameSlot(rows[i], rows[j])} :: i in rows && j in rows && SameSlot(rows[i], rows[j]) ==> i == j
  }

  ghost predicate RootsUnique(rows: Rows) {
    forall i, j {:trigger SameRoot(rows[i], rows[j])} :: i in rows && j in rows && SameRoot(rows[i], rows[j]) ==> i == j
  }

  /** `parent` is retired and `e` is the attempt that replaces it. */
  predicate Replaces(e: Execution, parent: Execution) {
    && parent.status == Retrying
    && e.attempt == parent.attempt + 1
    && e.run == parent.run
    && e.idempotencyKey == RetryKey(parent.idempotencyKey, e.attempt)
  }

  /** A row is the root of its run, or the next attempt after its parent. */
  predicate Linked(rows: Rows, e: Execution) {
    match e.parentId
    case None => e.attempt == 1 && IsRootKey(e.idempotencyKey)
    case Some(p) => p in rows && Replaces(e, rows[p])
  }

  ghost predicate HasChild(rows: Rows, id: Id) {
    exists child :: child in rows && rows[child].parentId == Some(id)
  }

  ghost predicate AllLinked(rows: Rows) {
    forall id {:trigger Linked(rows, rows[id])} :: id in rows ==> Linked(rows, rows[id])
  }

  ghost predicate RetiredHaveChildren(rows: Rows) {
    forall id {:trigger HasChild(rows, id)} :: id in rows && rows[id].status == Retrying ==> HasChild(rows, id)
  }

  ghost predicate TableOk(rows: Rows) {
    KeysUnique(rows) && RootsUnique(rows) && AllLinked(rows) && RetiredHaveChildren(rows)
  }

  ghost predicate LocksOk(db: Db) {
    forall id :: id in db.locks ==>
      && id in db.rows && db.rows[id].status == Queued
      && db.rows[id].availableAt <= db.locks[id].takenAt <= db.now
  }

  ghost predicate RowsOk(cfg: Settings, rows: Rows, now: int) {
    forall id {:trigger RowOk(cfg, rows[id], now)} :: id in rows ==> RowOk(cfg, rows[id], now)
  }

  ghost predicate Inv(cfg: Settings, db: Db) {
    TableOk(db.rows) && LocksOk(db) && RowsOk(cfg, db.rows, db.now)
  }

  // ---------------------------------------------------------- one row's calls

  /** What no call on an existing row ever rewrites. */
  predicate SameIdentity(e: Execution, f: Execution) {
    && f.run == e.run && f.triggerType == e.triggerType && f.idempotencyKey == e.idempotencyKey
    && f.attempt == e.attempt && f.parentId == e.parentId
    && f.queuedAt == e.queuedAt && f.availableAt == e.availableAt
  }

  lemma LeaseCallKeepsRow(cfg: Settings, e: Execution, a: Action, now: int)
    requires (a.Start? || a.Extend?) && RowOk(cfg, e, now) && RowCall(cfg, e, a, now).Ok?
    ensures var f := RowCall(cfg, e, a, now).value;
      SameIdentity(e, f) && RowOk(cfg, f, now) && e.status != Retrying && f.status != Retrying
  {
    hide RetryClassFor;
  }

  lemma FinishKeepsRow(cfg: Settings, e: Execution, a: Action, now: int)
    requires (a.Succeed? || a.Fail? || a.Cancel?) && RowOk(cfg, e, now) && RowCall(cfg, e, a, now).Ok?
    ensures var f := RowCall(cfg, e, a, now).value;
      SameIdentity(e, f) && RowOk(cfg, f, now) && e.status != Retrying && f.status != Retrying
  {
    hide RetryClassFor;
  }

  lemma RowCallKeepsRow(cfg: Settings, e: Execution, a: Action, now: int)
    requires IsRowCall(a) && RowOk(cfg, e, now) && RowCall(cfg, e, a, now).Ok?
    ensures var f := RowCall(cfg, e, a, now).value;
      SameIdentity(e, f) && RowOk(cfg, f, now) && e.status != Retrying && f.status != Retrying
  {
    hide RowCall, RowOk;
    if a.Start? || a.Extend? { LeaseCallKeepsRow(cfg, e, a, now); } else { FinishKeepsRow(cfg, e, a, now); }
  }

  // ------------------------------------------------------------- the table

  ghost predicate Rewrites(rows: Rows, after: Rows) {
    && rows.Keys <= after.Keys
    && forall i :: i in rows ==>
         && SameIdentity(rows[i], after[i])
         && (rows[i].status == Retrying ==> after[i].status == Retrying)
  }

  lemma LinkSurvives(rows: Rows, after: Rows, i: Id)
    requires Rewrites(rows, after) && i in rows && Linked(rows, rows[i])
    ensures Linked(after, after[i])
  {
  }

  lemma ChildSurvives(rows: Rows, after: Rows, i: Id)
    requires Rewrites(rows, after) && HasChild(rows, i)
    ensures HasChild(after, i)
  {
    var child :| child in rows && rows[child].parentId == Some(i);
    assert SameIdentity(rows[child], after[child]);
  }

  lemma RewriteKeepsTable(rows: Rows, id: Id, f: Execution)
    requires TableOk(rows) && id in rows && SameIdentity(rows[id], f)
    requires rows[id].status != Retrying && f.status != Retrying
    ensures TableOk(rows[id := f])
  {
    var after := rows[id := f];
    assert Rewrites(rows, after);
    RewriteKeepsKeys(rows, after);
    forall i | i in after ensures Linked(after, after[i]) { LinkSurvives(rows, after, i); }
    forall i | i in after && after[i].status == Retrying ensures HasChild(after, i) {
      ChildSurvives(rows, after, i);
    }
  }

  lemma RewriteKeepsKeys(rows: Rows, after: Rows)
    requires KeysUnique(rows) && RootsUnique(rows) && Rewrites(rows, after) && after.Keys == rows.Keys
    ensures KeysUnique(after) && RootsUnique(after)
  {
    forall i, j | i in after && j in after && SameSlot(after[i], after[j]) ensures i == j {
      assert SameSlot(rows[i], rows[j]);
    }
    forall i, j | i in after && j in after && SameRoot(after[i], after[j]) ensures i == j {
      assert SameRoot(rows[i], rows[j]);
    }
  }

  lemma AddKeepsKeys(rows: Rows, after: Rows, id: Id, e: Execution)
    requires KeysUnique(rows) && RootsUnique(rows) && Rewrites(rows, after)
    requires id !in rows && after.Keys == rows.Keys + {id} && after[id] == e
    requires !KeyTaken(rows, e.run.organizationId, e.idempotencyKey)
    requires e.parentId.None? ==> !CorrelationUsed(rows, e.run.correlationId)
    ensures KeysUnique(after) && RootsUnique(after)
  {
    forall i | i in rows ensures !SameSlot(after[i], e) && !SameRoot(after[i], e) {
      assert SameIdentity(rows[i], after[i]);
      assert InRun(rows, rows[i].run.correlationId, i);
    }
    forall i, j | i in after && j in after && SameSlot(after[i], after[j]) ensures i == j {
      if i != id && j != id { assert SameSlot(rows[i], rows[j]); }
    }
    forall i, j | i in after && j in after && SameRoot(after[i], after[j]) ensures i == j {
      if i != id && j != id { assert SameRoot(rows[i], rows[j]); }
    }
  }

  lemma InsertKeepsTable(rows: Rows, id: Id, run: Run, key: RootKey, trigger: TriggerType, now: int)
    requires TableOk(rows) && id !in rows
    requires !KeyTaken(rows, run.organizationId, key) && !CorrelationUsed(rows, run.correlationId)
    ensures TableOk(rows[id := NewExecution(run, key, trigger, now)])
  {
    var e := NewExecution(run, key, trigger, now);
    var after := rows[id := e];
    assert Rewrites(rows, after);
    AddKeepsKeys(rows, after, id, e);
    forall i | i in after ensures Linked(after, after[i]) {
      if i != id { LinkSurvives(rows, after, i); }
    }
    forall i | i in after && after[i].status == Retrying ensures HasChild(after, i) {
      ChildSurvives(rows, after, i);
    }
  }

  /** The lookup under a retry key finds this row's own child and nothing else. */
  lemma RetryKeyFindsOwnChild(rows: Rows, id: Id, found: Id)
    requires TableOk(rows) && id in rows && found in rows
    requires rows[found].run.organizationId == rows[id].run.organizationId
    requires rows[found].idempotencyKey == RetryKey(rows[id].idempotencyKey, rows[id].attempt + 1)
    ensures rows[found].parentId == Some(id) && rows[found].attempt == rows[id].attempt + 1
    ensures rows[id].status == Retrying
  {
    RetryKeyIsNotRoot(rows[id].idempotencyKey, rows[id].attempt + 1);
    assert Linked(rows, rows[found]);
    var parent := rows[found].parentId.value;
    RetryKeyInjective(rows[parent].idempotencyKey, rows[found].attempt, rows[id].idempotencyKey, rows[id].attempt + 1);
    assert SameSlot(rows[parent], rows[id]);
  }

  lemma RetryKeepsTable(cfg: Settings, rows: Rows, id: Id, child: Id, now: int)
    requires TableOk(rows) && id in rows && child !in rows
    requires !KeyTaken(rows, rows[id].run.organizationId, RetryKey(rows[id].idempotencyKey, rows[id].attempt + 1))
    requires rows[id].status != Retrying
    ensures TableOk(WithRetry(cfg, rows, id, child, now))
  {
    var after := WithRetry(cfg, rows, id, child, now);
    assert Rewrites(rows, after);
    AddKeepsKeys(rows, after, child, after[child]);
    forall i | i in after ensures Linked(after, after[i]) {
      if i != child { LinkSurvives(rows, after, i); }
    }
    forall i | i in after && after[i].status == Retrying ensures HasChild(after, i) {
      if i == id {
        assert after[child].parentId == Some(id);
      } else {
        ChildSurvives(rows, after, i);
      }
    }
  }

  // --------------------------------------------------------------- the steps

  lemma ClaimKeepsRow(cfg: Settings, db: Db, id: Id)
    requires Inv(cfg, db) && MayClaim(db, id)
    ensures var f := Claimed(cfg, db.rows[id], db.locks[id].worker, db.locks[id].takenAt);
      RowOk(cfg, f, db.now) && SameIdentity(db.rows[id], f)
  {
    assert RowOk(cfg, db.rows[id], db.now);
  }

  lemma ClaimKeepsInv(cfg: Settings, db: Db, id: Id)
    requires Inv(cfg, db) && MayClaim(db, id)
    ensures Inv(cfg, Apply(cfg, db, ClaimLocked(id)))
  {
    ClaimKeepsRow(cfg, db, id);
    RewriteKeepsTable(db.rows, id, Claimed(cfg, db.rows[id], db.locks[id].worker, db.locks[id].takenAt));
  }

  lemma SpawnMeans(rows: Rows, id: Id, child: Id)
    requires id in rows && RetryOutcomeOf(rows, id, child).Spawned?
    ensures rows[id].CanRetry() && rows[id].status in {Failed, TimedOut}
    ensures !KeyTaken(rows, rows[id].run.organizationId, RetryKey(rows[id].idempotencyKey, rows[id].attempt + 1))
  {
  }

  lemma RetryRowsOk(cfg: Settings, id: Id, e: Execution, now: int)
    requires RowOk(cfg, e, now) && e.CanRetry() && e.status in {Failed, TimedOut}
    ensures RowOk(cfg, Retired(e), now) && RowOk(cfg, NewRetry(cfg, id, e, now), now)
  {
  }

  lemma RetryKeepsInv(cfg: Settings, db: Db, id: Id, child: Id)
    requires Inv(cfg, db) && MayRetry(db, id, child)
    ensures Inv(cfg, Apply(cfg, db, CreateRetry(id, child)))
  {
    hide RowOk, KeysUnique, RootsUnique, AllLinked, RetiredHaveChildren, KeyTaken, RetryOutcomeOf;
    var after := WithRetry(cfg, db.rows, id, child, db.now);
    SpawnMeans(db.rows, id, child);
    assert TableOk(after) by { RetryKeepsTable(cfg, db.rows, id, child, db.now); }
    assert RowsOk(cfg, after, db.now) by {
      assert RowOk(cfg, db.rows[id], db.now);
      RetryRowsOk(cfg, id, db.rows[id], db.now);
      forall i | i in after ensures RowOk(cfg, after[i], db.now) {
        if i != id && i != child { assert RowOk(cfg, db.rows[i], db.now); }
      }
    }
  }

  lemma RowCallKeepsInv(cfg: Settings, db: Db, a: Action)
    requires Inv(cfg, db) && IsRowCall(a) && Unlocked(db, a.id)
    ensures Inv(cfg, Put(db, a.id, RowCall(cfg, db.rows[a.id], a, db.now)))
  {
    if RowCall(cfg, db.rows[a.id], a, db.now).Ok? {
      RowCallKeepsRow(cfg, db.rows[a.id], a, db.now);
      RewriteKeepsTable(db.rows, a.id, RowCall(cfg, db.rows[a.id], a, db.now).value);
    }
  }

  /** Every step keeps the joint invariant of table, keys, links, locks and clock. */
  lemma ApplyKeepsInv(cfg: Settings, db: Db, a: Action)
    requires Inv(cfg, db)
    ensures Inv(cfg, Apply(cfg, db, a))
  {
    hide TableOk, RowCall, RetryOutcomeOf;
    match a
    case Tick(_) =>
      forall id | id in db.rows ensures RowOk(cfg, db.rows[id], Apply(cfg, db, a).now) {
        assert RowOk(cfg, db.rows[id], db.now);
      }
    case EditReport(_, _) =>
    case LockNext(_, _) =>
    case Insert(id, run, key, trigger) =>
      if MayInsert(cfg, db, id, run, key) { InsertKeepsTable(db.rows, id, run, key, trigger, db.now); }
    case ClaimLocked(id) =>
      if MayClaim(db, id) { ClaimKeepsInv(cfg, db, id); }
    case CreateRetry(id, child) =>
      if MayRetry(db, id, child) { RetryKeepsInv(cfg, db, id, child); }
    case _ =>
      if Unlocked(db, a.id) { RowCallKeepsInv(cfg, db, a); }
  }

  lemma {:induction false} PlayKeepsInv(cfg: Settings, db: Db, actions: seq<Action>)
    requires Inv(cfg, db)
    ensures Inv(cfg, Play(cfg, db, actions))
    decreases |actions|
  {
    if actions != [] {
      ApplyKeepsInv(cfg, db, actions[0]);
      PlayKeepsInv(cfg, Apply(cfg, db, actions[0]), actions[1..]);
    }
  }
}
