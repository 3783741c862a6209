/** backend/src/repositories/report_execution_repository.py over a table of
    row objects, with the unique index on (organization_id, idempotency_key). */
module ExecutionRepository {
  import opened Prelude
  import opened ReportEnums
  import opened Executions
  import opened ReportProtocol
  import opened ReportExecutions

  const PAGE: nat := 50

  /** The two populations of the reaper. */
  function LapsedIds(rows: Rows, org: Option<Id>, now: int): set<Id> { set id | id in rows && Lapsed(rows[id], org, now) }

  function StaleIds(rows: Rows, org: Option<Id>, now: int): set<Id> { set id | id in rows && Stale(rows[id], org, now) }

  function Members(ids: seq<Id>): set<Id> { set id | id in ids }

  predicate Distinct(ids: seq<Id>) {
    forall i, j :: 0 <= i < j < |ids| ==> ids[i] != ids[j]
  }

  /** What a query with LIMIT 50 and no ORDER BY may select. */
  ghost predicate IsPage(ids: set<Id>, all: set<Id>) {
    ids <= all && |ids| <= PAGE && (if |all| <= PAGE then ids == all else |ids| == PAGE)
  }

  /** A row the query selects can be missed by its page exactly when the page is too
      small for them all. */
  lemma PageMayMissIff(all: set<Id>, id: Id)
    requires id in all
    ensures (exists ids :: IsPage(ids, all) && id !in ids) <==> |all| > PAGE
  {
    if |all| > PAGE {
      var ids := SomeOf(all - {id}, PAGE);
      assert IsPage(ids, all) && id !in ids;
    }
  }

  ghost function SomeOf(all: set<Id>, n: nat): (some: set<Id>)
    requires n <= |all|
    ensures some <= all && |some| == n
  {
    if n == 0 then {}
    else
      var id :| id in all;
      {id} + SomeOf(all - {id}, n - 1)
  }

  class Repository {
    var table: map<Id, ReportExecution>
    var nextId: Id

    ghost predicate Valid()
      reads this, table.Values
    {
      && (forall id :: id in table ==> id < nextId)
      && (forall i, j :: i in table && j in table && table[i] == table[j] ==> i == j)
      && KeysUnique(Rows())
    }

    function Rows(): Rows
      reads this, table.Values
    {
      map id | id in table :: table[id].Row()
    }

    constructor ()
      ensures Valid() && Rows() == map[] && fresh(this)
    {
      table, nextId := map[], 0;
    }

    method GetByIdempotencyKey(org: Id, key: string) returns (found: Option<Id>)
      requires Valid()
      ensures found == Lookup(Rows(), org, key)
    {
      found := None;
      var remaining := table.Keys;
      while remaining != {}
        invariant remaining <= table.Keys
        invariant found.None? ==> forall id :: id in Rows() && id !in remaining ==>
          !(Rows()[id].run.organizationId == org && Rows()[id].idempotencyKey == key)
        invariant found.Some? ==>
          && found.value in table
          && Rows()[found.value].run.organizationId == org && Rows()[found.value].idempotencyKey == key
        decreases remaining
      {
        var id :| id in remaining;
        if table[id].run.organizationId == org && table[id].idempotencyKey == key { found := Some(id); }
        remaining := remaining - {id};
      }
      ghost var known := Lookup(Rows(), org, key);
      if found.Some? && known.Some? {
        assert SameSlot(Rows()[found.value], Rows()[known.value]);
      }
    }

    /** INSERT: refused by the unique index when the key is taken. */
    method Create(e: Execution) returns (created: Option<Id>)
      requires Valid()
      modifies this
      ensures Valid()
      ensures created == if KeyTaken(old(Rows()), e.run.organizationId, e.idempotencyKey) then None else Some(old(nextId))
      ensures Rows() == if created.Some? then old(Rows())[created.value := e] else old(Rows())
      ensures old(nextId) !in old(Rows())
      ensures created.Some? ==>
        && created.value in table && fresh(table[created.value])
        && table == old(table)[created.value := table[created.value]]
      ensures created.None? ==> table == old(table)
    {
      hide KeysUnique;
      var existing := GetByIdempotencyKey(e.run.organizationId, e.idempotencyKey);
      if existing.Some? { return None; }
      var row := new ReportExecution(e);
      ghost var before := Rows();
      table := table[nextId := row];
      created := Some(nextId);
      nextId := nextId + 1;
      assert Rows() == before[created.value := e];
      NewKeyKeepsUnique(before, created.value, e);
    }

    /** What writing one row object does to the table. */
    twostate lemma OneRowWritten(id: Id)
      requires old(Valid()) && table == old(table) && nextId == old(nextId) && id in table
      requires forall i :: i in table && i != id ==> unchanged(table[i])
      requires SameIdentity(old(table[id].Row()), table[id].Row())
      ensures Rows() == old(Rows())[id := table[id].Row()]
      ensures Valid()
    {
      forall i, j | i in Rows() && j in Rows() && SameSlot(Rows()[i], Rows()[j]) ensures i == j {
        assert SameSlot(old(Rows())[i], old(Rows())[j]);
      }
    }

    method FindExpiredLeases(org: Option<Id>, now: int) returns (ids: seq<Id>)
      requires Valid()
      ensures Distinct(ids) && IsPage(Members(ids), LapsedIds(Rows(), org, now))
    {
      ids := TakePage(LapsedIds(Rows(), org, now));
    }

    method FindStaleQueued(org: Option<Id>, now: int) returns (ids: seq<Id>)
      requires Valid()
      ensures Distinct(ids) && IsPage(Members(ids), StaleIds(Rows(), org, now))
    {
      ids := TakePage(StaleIds(Rows(), org, now));
    }

    /** The claim query: the first eligible row in (available_at, queued_at)
        order, written as assigned. */
    method ClaimNext(cfg: Settings, worker: Worker, reports: map<Id, Report>, now: int) returns (claimed: Option<Id>)
      requires Valid() && CanRunReports(worker)
      modifies table.Values
      ensures Valid() && table == old(table)
      ensures claimed.Some? ==>
        && MayLock(Db(old(Rows()), reports, map[], now), worker, claimed.value)
        && Rows() == old(Rows())[claimed.value := Claimed(cfg, old(Rows())[claimed.value], worker, now)]
      ensures claimed.None? ==>
        && Rows() == old(Rows())
        && forall id :: !Eligible(Rows(), reports, worker, id, now)
    {
      hide Eligible, NotAfter, CanRunReports;
      claimed := FirstInLine(Rows(), worker, reports, now);
      if claimed.Some? {
        table[claimed.value].AssignTo(cfg, worker, now);
        OneRowWritten(claimed.value);
      }
    }
  }

  lemma NewKeyKeepsUnique(rows: Rows, id: Id, e: Execution)
    requires KeysUnique(rows) && id !in rows && !KeyTaken(rows, e.run.organizationId, e.idempotencyKey)
    ensures KeysUnique(rows[id := e])
  {
    var after := rows[id := e];
    forall i, j | i in after && j in after && SameSlot(after[i], after[j]) ensures i == j {
      if i != id && j != id { assert SameSlot(rows[i], rows[j]); }
    }
  }

  /** ORDER BY available_at, queued_at LIMIT 1 over the eligible rows. */
  method FirstInLine(rows: Rows, worker: Worker, reports: map<Id, Report>, now: int) returns (first: Option<Id>)
    ensures first.None? ==> forall id :: !Eligible(rows, reports, worker, id, now)
    ensures first.Some? ==>
      && Eligible(rows, reports, worker, first.value, now)
      && forall id :: Eligible(rows, reports, worker, id, now) ==> NotAfter(rows[first.value], rows[id])
  {
    first := None;
    var remaining := rows.Keys;
    while remaining != {}
      invariant remaining <= rows.Keys
      invariant first.None? ==> forall id :: Eligible(rows, reports, worker, id, now) ==> id in remaining
      invariant first.Some? ==>
        && Eligible(rows, reports, worker, first.value, now)
        && forall id :: Eligible(rows, reports, worker, id, now) && id !in remaining ==>
             NotAfter(rows[first.value], rows[id])
      decreases remaining
    {
      var id :| id in remaining;
      if Eligible(rows, reports, worker, id, now) && (first.None? || !NotAfter(rows[first.value], rows[id])) {
        first := Some(id);
      }
      remaining := remaining - {id};
    }
  }

  /** LIMIT 50 with no ORDER BY: any fifty of the selected rows. */
  method TakePage(all: set<Id>) returns (ids: seq<Id>)
    ensures Distinct(ids) && IsPage(Members(ids), all)
  {
    ids := [];
    var remaining := all;
    while remaining != {} && |ids| < PAGE
      invariant Distinct(ids) && |Members(ids)| == |ids| <= PAGE
      invariant Members(ids) !! remaining && Members(ids) + remaining == all
      decreases remaining
    {
      var id :| id in remaining;
      assert Members(ids + [id]) == Members(ids) + {id};
      ids := ids + [id];
      remaining := remaining - {id};
    }
    assert |all| == |Members(ids)| + |remaining|;
  }
}
