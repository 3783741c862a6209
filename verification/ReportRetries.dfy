/** Retries, leases and claim windows of single rows in a reachable table. */
module ReportRetries {
  import opened Prelude
  import opened ReportEnums
  import opened IdempotencyKeys
  import opened Executions
  import opened ReportProtocol
  import opened ReportRuns
  import opened ReportHistory

  // -------------------------------------------------------------- create_retry

  /** create_retry never raises; it answers this row's own child whenever one
      exists, and makes one exactly when the row may retry and has none. */
  lemma RetryAnswersOwnChild(cfg: Settings, db: Db, id: Id, child: Id)
    requires Inv(cfg, db) && id in db.rows && child !in db.rows
    ensures var outcome := RetryOutcomeOf(db.rows, id, child);
      && !outcome.Raised?
      && (outcome.NotWarranted? <==> !db.rows[id].CanRetry())
      && (outcome.Spawned? <==> db.rows[id].CanRetry() && !HasChild(db.rows, id))
      && (outcome.Found? ==> outcome.id in db.rows && db.rows[outcome.id].parentId == Some(id))
  {
    var e := db.rows[id];
    var key := RetryKey(e.idempotencyKey, e.attempt + 1);
    var existing := Lookup(db.rows, e.run.organizationId, key);
    assert RowOk(cfg, e, db.now);
    RetiredExactlyWithChild(cfg, db, id);
    if HasChild(db.rows, id) { ChildTakesRetryKey(db.rows, id); }
    if existing.Some? {
      RetryKeyFindsOwnChild(db.rows, id, existing.value);
    }
  }

  lemma ChildTakesRetryKey(rows: Rows, id: Id)
    requires AllLinked(rows) && id in rows && HasChild(rows, id)
    ensures KeyTaken(rows, rows[id].run.organizationId, RetryKey(rows[id].idempotencyKey, rows[id].attempt + 1))
  {
    var c :| c in rows && rows[c].parentId == Some(id);
    assert Linked(rows, rows[c]);
  }

  /** Calling create_retry again, at any later point of the run and with any
      spare id, answers the child made the first time. */
  lemma RetryIsIdempotent(cfg: Settings, db: Db, id: Id, child: Id, later: seq<Action>, spare: Id)
    requires Inv(cfg, db) && MayRetry(db, id, child)
    requires var after := Play(cfg, Apply(cfg, db, CreateRetry(id, child)), later); spare !in after.rows
    ensures var after := Play(cfg, Apply(cfg, db, CreateRetry(id, child)), later);
      id in after.rows && RetryOutcomeOf(after.rows, id, spare) == Found(child)
  {
    var spawned := Apply(cfg, db, CreateRetry(id, child));
    var after := Play(cfg, spawned, later);
    SpawnMeans(db.rows, id, child);
    ApplyKeepsInv(cfg, db, CreateRetry(id, child));
    PlayKeepsInv(cfg, spawned, later);
    RowsEvolve(cfg, spawned, later, id);
    RowsEvolve(cfg, spawned, later, child);
    RetryAnswersOwnChild(cfg, after, id, spare);
    RetiredExactlyWithChild(cfg, after, id);
    assert HasChild(after.rows, id);
  }

  /** The guarantee rests on root keys holding no '#': an occurrence enqueued
      under "k#a2" is mistaken for the second attempt of the occurrence "k". */
  lemma ForeignKeyIsMistakenForRetry(run: Run, other: Run)
    requires run.maxAttempts >= 2 && run.organizationId == other.organizationId
    ensures var failed := NewExecution(run, "k", Manual, 0)
                          .(status := Failed, retryClass := Some(Retryable), completedAt := Some(0));
      var stranger := NewExecution(other, "k", Manual, 0).(idempotencyKey := "k#a2");
      RetryOutcomeOf(map[1 := failed, 2 := stranger], 1, 3) == Found(2)
  {
    assert Decimal(2) == ['2'];
    assert RetryKey("k", 2) == "k#a2";
    var rows := map[1 := NewExecution(run, "k", Manual, 0).(status := Failed, retryClass := Some(Retryable), completedAt := Some(0)),
                    2 := NewExecution(other, "k", Manual, 0).(idempotencyKey := "k#a2")];
    assert rows[2].idempotencyKey == RetryKey(rows[1].idempotencyKey, 2);
  }

  // -------------------------------------------------------------------- leases

  /** Nothing is held forever: once a held row's allowance and one more lease
      have passed since the worker began, the reaper's query selects it. */
  lemma NothingIsHeldForever(cfg: Settings, actions: seq<Action>, id: Id)
    requires var db := Play(cfg, EMPTY, actions); id in db.rows && db.rows[id].Leased()
    ensures var db := Play(cfg, EMPTY, actions);
      && db.rows[id].Began().Some?
      && db.rows[id].leaseExpiresAt.Some?
      && db.rows[id].leaseExpiresAt.value <= db.rows[id].Began().value + db.rows[id].run.timeoutSeconds + cfg.lease
      && (db.now > db.rows[id].Began().value + db.rows[id].run.timeoutSeconds + cfg.lease ==>
            Lapsed(db.rows[id], None, db.now))
  {
    PlayKeepsInv(cfg, EMPTY, actions);
    assert RowOk(cfg, Play(cfg, EMPTY, actions).rows[id], Play(cfg, EMPTY, actions).now);
  }

  // ------------------------------------------------------------- claim windows

  /** A moment at which an untouched queued row may be claimed and is not yet
      overdue in the queue. */
  predicate ClaimableAt(e: Execution, t: int) {
    e.status == Queued && e.availableAt <= t && !Stale(e, None, t)
  }

  lemma RootClaimableForItsTimeout(run: Run, key: RootKey, trigger: TriggerType, now: int, t: int)
    ensures ClaimableAt(NewExecution(run, key, trigger, now), t) <==> now <= t <= now + run.timeoutSeconds
  {
  }

  /** A retry's queue time counts from its creation, not from the end of its
      backoff: it can be claimed at some moment exactly when the backoff fits
      inside the timeout. */
  lemma RetryClaimableIffBackoffFits(cfg: Settings, parentId: Id, parent: Execution, now: int)
    ensures (exists t :: ClaimableAt(NewRetry(cfg, parentId, parent, now), t))
       <==> BackoffSeconds(cfg, parent.attempt) <= parent.run.timeoutSeconds
  {
    var retry := NewRetry(cfg, parentId, parent, now);
    if BackoffSeconds(cfg, parent.attempt) <= parent.run.timeoutSeconds {
      assert ClaimableAt(retry, retry.availableAt);
    }
  }

  /** With the default settings and the shortest allowed timeout, the third
      attempt waits twice as long as it may stay queued. */
  lemma ThirdAttemptOfShortReportNeverRuns(run: Run, second: Execution, now: int, t: int)
    requires second.run.timeoutSeconds == TimeoutFor(DEFAULT_SETTINGS, Some(60)) && second.attempt == 2
    ensures !ClaimableAt(NewRetry(DEFAULT_SETTINGS, 2, second, now), t)
  {
    assert Power2(1) == 2;
    RetryClaimableIffBackoffFits(DEFAULT_SETTINGS, 2, second, now);
  }
}
