/** What one sweep of the reaper (execution_service.py:608-673) does to a table. */
module Reaping {
  import opened Prelude
  import opened ReportEnums
  import opened ReportErrors
  import opened Executions
  import opened ReportProtocol
  import opened ReportRuns

  function TimedOutRow(e: Execution, code: ErrorCode, now: int): Execution {
    Finalized(e.(status := TimedOut, errorCode := Some(code), retryClass := Some(RetryClassFor(code))), now)
  }

  /** A row whose lease lapsed: timed out, and retired if it may be retried. */
  function LeaseLost(e: Execution, now: int): Execution {
    var timedOut := TimedOutRow(e, WorkerLeaseExpired, now);
    if e.attempt < e.run.maxAttempts then Retired(timedOut) else timedOut
  }

  function SweptRow(e: Execution, id: Id, leases: set<Id>, queue: set<Id>, now: int): Execution {
    if id in leases then LeaseLost(e, now)
    else if id in queue then TimedOutRow(e, WorkerOffline, now)
    else e
  }

  predicate SpawnOf(cfg: Settings, before: Rows, after: Rows, parent: Id, child: Id, now: int) {
    && parent in before && before[parent].attempt < before[parent].run.maxAttempts
    && child in after && child !in before
    && after[child] == NewRetry(cfg, parent, before[parent], now)
  }

  ghost predicate HasSpawn(cfg: Settings, before: Rows, after: Rows, parent: Id, now: int) {
    exists child :: SpawnOf(cfg, before, after, parent, child, now)
  }

  ghost predicate IsSpawn(cfg: Settings, before: Rows, after: Rows, leases: set<Id>, child: Id, now: int) {
    exists parent :: parent in leases && SpawnOf(cfg, before, after, parent, child, now)
  }

  ghost predicate RowsSwept(before: Rows, after: Rows, leases: set<Id>, queue: set<Id>, now: int) {
    && leases <= before.Keys && queue <= before.Keys && before.Keys <= after.Keys
    && forall id {:trigger after[id]} :: id in before ==> after[id] == SweptRow(before[id], id, leases, queue, now)
  }

  ghost predicate SpawnsMatch(cfg: Settings, before: Rows, after: Rows, leases: set<Id>, now: int) {
    && (forall id {:trigger IsSpawn(cfg, before, after, leases, id, now)} ::
          id in after && id !in before ==> IsSpawn(cfg, before, after, leases, id, now))
    && (forall id {:trigger HasSpawn(cfg, before, after, id, now)} ::
          id in leases && id in before && before[id].attempt < before[id].run.maxAttempts
          ==> HasSpawn(cfg, before, after, id, now))
  }

  /** `after` is `before` with the rows of `leases` and `queue` swept, and one
      new row for each swept lease that had an attempt left, and nothing else. */
  ghost predicate Swept(cfg: Settings, before: Rows, after: Rows, leases: set<Id>, queue: set<Id>, now: int) {
    RowsSwept(before, after, leases, queue, now) && SpawnsMatch(cfg, before, after, leases, now)
  }

  /** New rows of an earlier stage that are still there still account for it. */
  lemma SpawnsCarryOver(cfg: Settings, before: Rows, rows: Rows, after: Rows, leases: set<Id>, now: int)
    requires SpawnsMatch(cfg, before, rows, leases, now)
    requires forall c :: c in rows && c !in before ==> c in after && after[c] == rows[c]
    ensures forall c :: c in rows && c !in before ==> IsSpawn(cfg, before, after, leases, c, now)
    ensures forall p :: p in leases && p in before && before[p].attempt < before[p].run.maxAttempts ==>
      HasSpawn(cfg, before, after, p, now)
  {
    forall c | c in rows && c !in before ensures IsSpawn(cfg, before, after, leases, c, now) {
      assert IsSpawn(cfg, before, rows, leases, c, now);
      var p :| p in leases && SpawnOf(cfg, before, rows, p, c, now);
      assert SpawnOf(cfg, before, after, p, c, now);
    }
    forall p | p in leases && p in before && before[p].attempt < before[p].run.maxAttempts
      ensures HasSpawn(cfg, before, after, p, now)
    {
      assert HasSpawn(cfg, before, rows, p, now);
      var c :| SpawnOf(cfg, before, rows, p, c, now);
      assert SpawnOf(cfg, before, after, p, c, now);
    }
  }

  lemma SpawnFor(cfg: Settings, before: Rows, after: Rows, leases: set<Id>, p: Id, c: Id, now: int)
    requires p in leases && SpawnOf(cfg, before, after, p, c, now)
    ensures IsSpawn(cfg, before, after, leases, c, now) && HasSpawn(cfg, before, after, p, now)
  {
  }

  lemma WiderSpawn(cfg: Settings, before: Rows, after: Rows, leases: set<Id>, more: set<Id>, c: Id, now: int)
    requires IsSpawn(cfg, before, after, leases, c, now) && leases <= more
    ensures IsSpawn(cfg, before, after, more, c, now)
  {
    var p :| p in leases && SpawnOf(cfg, before, after, p, c, now);
    assert p in more;
  }

  lemma SweepLastLease(cfg: Settings, before: Rows, rows: Rows, leases: set<Id>, id: Id, now: int)
    requires Swept(cfg, before, rows, leases, {}, now)
    requires id in before && id !in leases && before[id].attempt >= before[id].run.maxAttempts
    ensures Swept(cfg, before, rows[id := TimedOutRow(before[id], WorkerLeaseExpired, now)], leases + {id}, {}, now)
  {
    var after := rows[id := TimedOutRow(before[id], WorkerLeaseExpired, now)];
    SpawnsCarryOver(cfg, before, rows, after, leases, now);
    forall c | c in after && c !in before ensures IsSpawn(cfg, before, after, leases + {id}, c, now) {
      WiderSpawn(cfg, before, after, leases, leases + {id}, c, now);
    }
  }

  lemma RetrySweepsRow(cfg: Settings, before: Rows, rows: Rows, leases: set<Id>, id: Id, child: Id, now: int)
    requires RowsSwept(before, rows, leases, {}, now)
    requires id in before && id !in leases && child !in rows && before[id].attempt < before[id].run.maxAttempts
    ensures var after := WithRetry(cfg, rows[id := TimedOutRow(before[id], WorkerLeaseExpired, now)], id, child, now);
      && RowsSwept(before, after, leases + {id}, {}, now)
      && SpawnOf(cfg, before, after, id, child, now)
      && after.Keys == rows.Keys + {child}
      && forall c :: c in rows && c !in before ==> after[c] == rows[c]
  {
  }

  lemma SweepLease(cfg: Settings, before: Rows, rows: Rows, leases: set<Id>, id: Id, child: Id, now: int)
    requires Swept(cfg, before, rows, leases, {}, now)
    requires id in before && id !in leases && child !in rows && before[id].attempt < before[id].run.maxAttempts
    ensures Swept(cfg, before,
                  WithRetry(cfg, rows[id := TimedOutRow(before[id], WorkerLeaseExpired, now)], id, child, now),
                  leases + {id}, {}, now)
  {
    hide RowsSwept, WithRetry, SpawnOf;
    var after := WithRetry(cfg, rows[id := TimedOutRow(before[id], WorkerLeaseExpired, now)], id, child, now);
    RetrySweepsRow(cfg, before, rows, leases, id, child, now);
    SpawnsCarryOver(cfg, before, rows, after, leases, now);
    SpawnFor(cfg, before, after, leases + {id}, id, child, now);
    forall c | c in after && c !in before ensures IsSpawn(cfg, before, after, leases + {id}, c, now) {
      if c != child { WiderSpawn(cfg, before, after, leases, leases + {id}, c, now); }
    }
  }

  lemma SweepQueued(cfg: Settings, before: Rows, rows: Rows, leases: set<Id>, queue: set<Id>, id: Id, now: int)
    requires Swept(cfg, before, rows, leases, queue, now)
    requires id in before && id !in leases
    ensures Swept(cfg, before, rows[id := TimedOutRow(before[id], WorkerOffline, now)], leases, queue + {id}, now)
  {
    var after := rows[id := TimedOutRow(before[id], WorkerOffline, now)];
    assert RowsSwept(before, after, leases, queue + {id}, now);
    SpawnsCarryOver(cfg, before, rows, after, leases, now);
  }

  lemma SpawnIsNotDue(cfg: Settings, before: Rows, after: Rows, leases: set<Id>, queue: set<Id>, org: Option<Id>, now: int, id: Id)
    requires Swept(cfg, before, after, leases, queue, now) && id in after && id !in before
    ensures !Lapsed(after[id], org, now) && !Stale(after[id], org, now)
  {
    assert IsSpawn(cfg, before, after, leases, id, now);
  }

  /** A sweep adds nothing the same sweep would have to remove. */
  lemma NothingNewIsDue(cfg: Settings, before: Rows, after: Rows, leases: set<Id>, queue: set<Id>, org: Option<Id>, now: int, id: Id)
    requires Swept(cfg, before, after, leases, queue, now) && id in after
    requires Lapsed(after[id], org, now) || Stale(after[id], org, now)
    ensures id in before && id !in leases && id !in queue && after[id] == before[id]
  {
    if id !in before {
      SpawnIsNotDue(cfg, before, after, leases, queue, org, now, id);
    } else {
      assert after[id] == SweptRow(before[id], id, leases, queue, now);
    }
  }

  ghost predicate OnlyChild(rows: Rows, parent: Id, child: Id) {
    && child in rows && rows[child].parentId == Some(parent)
    && forall other :: other in rows && rows[other].parentId == Some(parent) ==> other == child
  }

  /** Each swept lease with attempts left has exactly one child, still queued. */
  lemma LeaseGetsOneChild(cfg: Settings, before: Rows, after: Rows, leases: set<Id>, queue: set<Id>, now: int, id: Id)
    requires Swept(cfg, before, after, leases, queue, now) && Inv(cfg, Db(after, map[], map[], now))
    requires id in leases && before[id].attempt < before[id].run.maxAttempts
    ensures exists child :: OnlyChild(after, id, child) && after[child].status == Queued
  {
    assert HasSpawn(cfg, before, after, id, now);
    var child :| SpawnOf(cfg, before, after, id, child, now);
    RetiredExactlyWithChild(cfg, Db(after, map[], map[], now), id);
    assert OnlyChild(after, id, child);
  }

  /** An overdue queued row is timed out and never retried. */
  lemma QueuedGetsNoChild(cfg: Settings, before: Rows, after: Rows, leases: set<Id>, queue: set<Id>, now: int, id: Id)
    requires Swept(cfg, before, after, leases, queue, now) && Inv(cfg, Db(after, map[], map[], now))
    requires id in queue && id !in leases
    ensures id in after && after[id].status == TimedOut && !HasChild(after, id)
  {
    assert after[id] == SweptRow(before[id], id, leases, queue, now);
    RetiredExactlyWithChild(cfg, Db(after, map[], map[], now), id);
  }
}
