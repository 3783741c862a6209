/** What the execution protocol guarantees of every reachable table: the rows of one
    logical run are one chain, with one unretired row and one child per retired row. */
module ReportRuns {
  import opened Prelude
  import opened ReportEnums
  import opened Executions
  import opened ReportProtocol

  /** The table after the first k actions on an empty database. */
  ghost function StateAt(cfg: Settings, actions: seq<Action>, k: nat): Db
    requires k <= |actions|
  {
    Play(cfg, EMPTY, actions[..k])
  }

  lemma {:induction false} PlayAppends(cfg: Settings, db: Db, xs: seq<Action>, ys: seq<Action>)
    ensures Play(cfg, db, xs + ys) == Play(cfg, Play(cfg, db, xs), ys)
    decreases |xs|
  {
    if xs == [] {
      assert xs + ys == ys;
    } else {
      assert (xs + ys)[1..] == xs[1..] + ys;
      PlayAppends(cfg, Apply(cfg, db, xs[0]), xs[1..], ys);
    }
  }

  lemma StateAtFollows(cfg: Settings, actions: seq<Action>, k: nat)
    requires k < |actions|
    ensures StateAt(cfg, actions, k + 1) == Apply(cfg, StateAt(cfg, actions, k), actions[k])
  {
    assert actions[..k + 1] == actions[..k] + [actions[k]];
    PlayAppends(cfg, EMPTY, actions[..k], [actions[k]]);
    assert Play(cfg, StateAt(cfg, actions, k), [actions[k]]) == Apply(cfg, StateAt(cfg, actions, k), actions[k]);
  }

  lemma ReachableInv(cfg: Settings, actions: seq<Action>, k: nat)
    requires k <= |actions|
    ensures Inv(cfg, StateAt(cfg, actions, k))
  {
    PlayKeepsInv(cfg, EMPTY, actions[..k]);
  }

  // --------------------------------------------------- one run is one chain

  /** Link k of a chain: attempt k + 1, child of link k - 1, retired unless last. */
  predicate IsLink(rows: Rows, chain: seq<Id>, k: nat)
    requires k < |chain|
  {
    && chain[0] in rows && chain[k] in rows
    && rows[chain[k]].attempt == k + 1
    && rows[chain[k]].run == rows[chain[0]].run
    && rows[chain[k]].parentId == (if k == 0 then None else Some(chain[k - 1]))
    && (rows[chain[k]].status == Retrying <==> k + 1 < |chain|)
  }

  /** The rows of one logical run, first attempt first. */
  ghost predicate IsChain(rows: Rows, correlationId: Id, chain: seq<Id>) {
    && chain != []
    && InRun(rows, correlationId, chain[0])
    && |chain| <= rows[chain[0]].run.maxAttempts
    && (forall k: nat | k < |chain| :: IsLink(rows, chain, k))
    && (forall id :: InRun(rows, correlationId, id) ==> id in chain)
  }

  ghost function Ancestry(rows: Rows, id: Id): (chain: seq<Id>)
    requires AllLinked(rows) && id in rows
    ensures |chain| == rows[id].attempt >= 1
    decreases rows[id].attempt
  {
    assert Linked(rows, rows[id]);
    match rows[id].parentId
    case None => [id]
    case Some(p) => Ancestry(rows, p) + [id]
  }

  lemma {:induction false} AncestryIsLinked(rows: Rows, id: Id, k: nat)
    requires AllLinked(rows) && id in rows && k < rows[id].attempt
    ensures var chain := Ancestry(rows, id);
      && chain[k] in rows
      && rows[chain[k]].attempt == k + 1
      && rows[chain[k]].run == rows[id].run
      && rows[chain[k]].parentId == (if k == 0 then None else Some(chain[k - 1]))
      && (k + 1 < |chain| ==> rows[chain[k]].status == Retrying)
      && (k + 1 == |chain| ==> chain[k] == id)
    decreases rows[id].attempt
  {
    assert Linked(rows, rows[id]);
    match rows[id].parentId
    case None =>
    case Some(p) =>
      var earlier := Ancestry(rows, p);
      AncestryIsLinked(rows, p, if k + 1 < rows[id].attempt then k else k - 1);
  }

  lemma {:induction false} SameAttemptSameRow(rows: Rows, a: Id, b: Id)
    requires TableOk(rows) && a in rows && b in rows
    requires rows[a].run.correlationId == rows[b].run.correlationId && rows[a].attempt == rows[b].attempt
    requires rows[a].attempt >= 1
    ensures a == b
    decreases rows[a].attempt
  {
    assert Linked(rows, rows[a]) && Linked(rows, rows[b]);
    if rows[a].attempt == 1 {
      AncestryIsLinked(rows, a, 0);
      AncestryIsLinked(rows, b, 0);
      assert SameRoot(rows[a], rows[b]);
    } else {
      SameAttemptSameRow(rows, rows[a].parentId.value, rows[b].parentId.value);
      assert SameSlot(rows[a], rows[b]);
    }
  }

  ghost predicate IsTail(rows: Rows, correlationId: Id, id: Id) {
    InRun(rows, correlationId, id) && rows[id].status != Retrying
  }

  lemma {:induction false} FindTail(cfg: Settings, rows: Rows, now: int, id: Id) returns (tail: Id)
    requires TableOk(rows) && RowsOk(cfg, rows, now) && id in rows
    ensures IsTail(rows, rows[id].run.correlationId, tail)
    decreases rows[id].run.maxAttempts - rows[id].attempt
  {
    if rows[id].status != Retrying { return id; }
    assert HasChild(rows, id);
    var child :| child in rows && rows[child].parentId == Some(id);
    assert Linked(rows, rows[child]) && RowOk(cfg, rows[child], now);
    tail := FindTail(cfg, rows, now, child);
  }

  /** Every row of a run is an ancestor of any unretired row of it. */
  lemma TailIsLast(cfg: Settings, rows: Rows, now: int, tail: Id, id: Id)
    requires TableOk(rows) && RowsOk(cfg, rows, now)
    requires tail in rows && rows[tail].status != Retrying && InRun(rows, rows[tail].run.correlationId, id)
    ensures 1 <= rows[id].attempt <= rows[tail].attempt && Ancestry(rows, tail)[rows[id].attempt - 1] == id
  {
    assert RowOk(cfg, rows[id], now) && RowOk(cfg, rows[tail], now);
    if rows[id].attempt > rows[tail].attempt {
      var k := rows[tail].attempt - 1;
      AncestryIsLinked(rows, id, k);
      SameAttemptSameRow(rows, Ancestry(rows, id)[k], tail);
    } else {
      var k := rows[id].attempt - 1;
      AncestryIsLinked(rows, tail, k);
      SameAttemptSameRow(rows, Ancestry(rows, tail)[k], id);
    }
  }

  lemma OneRunIsOneChain(cfg: Settings, db: Db, correlationId: Id)
    requires Inv(cfg, db) && CorrelationUsed(db.rows, correlationId)
    ensures exists chain :: IsChain(db.rows, correlationId, chain)
  {
    var rows := db.rows;
    var id :| InRun(rows, correlationId, id);
    var tail := FindTail(cfg, rows, db.now, id);
    var chain := Ancestry(rows, tail);
    assert RowOk(cfg, rows[tail], db.now);
    AncestryIsLinked(rows, tail, 0);
    forall k: nat | k < |chain| ensures IsLink(rows, chain, k) {
      AncestryIsLinked(rows, tail, k);
    }
    forall other | InRun(rows, correlationId, other) ensures other in chain {
      TailIsLast(cfg, rows, db.now, tail, other);
    }
    assert IsChain(rows, correlationId, chain);
  }

  /** At most one row of a run has not been retired, so at most one is live. */
  lemma OneTail(cfg: Settings, db: Db, a: Id, b: Id)
    requires Inv(cfg, db) && a in db.rows && b in db.rows
    requires db.rows[a].run.correlationId == db.rows[b].run.correlationId
    requires db.rows[a].status != Retrying && db.rows[b].status != Retrying
    ensures a == b
  {
    TailIsLast(cfg, db.rows, db.now, a, b);
    TailIsLast(cfg, db.rows, db.now, b, a);
    assert RowOk(cfg, db.rows[a], db.now);
    SameAttemptSameRow(db.rows, a, b);
  }

  /** A row is retired exactly when its replacement exists, and has one only. */
  lemma RetiredExactlyWithChild(cfg: Settings, db: Db, id: Id)
    requires Inv(cfg, db) && id in db.rows
    ensures db.rows[id].status == Retrying <==> HasChild(db.rows, id)
    ensures forall c, d | c in db.rows && d in db.rows && db.rows[c].parentId == db.rows[d].parentId == Some(id) :: c == d
  {
    forall c | c in db.rows && db.rows[c].parentId == Some(id)
      ensures db.rows[id].status == Retrying && Replaces(db.rows[c], db.rows[id])
    {
      assert Linked(db.rows, db.rows[c]);
    }
    if db.rows[id].status == Retrying { assert HasChild(db.rows, id); }
    forall c, d | c in db.rows && d in db.rows && db.rows[c].parentId == Some(id) && db.rows[d].parentId == Some(id)
      ensures c == d
    {
      assert Replaces(db.rows[c], db.rows[id]) && Replaces(db.rows[d], db.rows[id]);
      assert SameSlot(db.rows[c], db.rows[d]);
    }
  }
}
