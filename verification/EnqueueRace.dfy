/** Concurrent `enqueue` calls (execution_service.py:129-203). Each call looks
    its key up, then inserts, and recovers from a lost race on the unique index;
    the steps of any number of calls interleave with each other and with
    everything else the system does to the table. */
module EnqueueRace {
  import opened ReportEnums
  import opened IdempotencyKeys
  import opened Executions
  import opened ReportProtocol
  import opened ReportHistory

  datatype Phase =
    | Starting                          // about to look the key up
    | Missed                            // found nothing, about to insert
    | Collided                          // IntegrityError, rolled back, about to look up again
    | Returned(id: Id, created: bool)
    | Refused                           // report not runnable, or no worker could run it
    | Crashed                           // the re-raised IntegrityError

  datatype Caller = Caller(organizationId: Id, key: RootKey, phase: Phase)

  datatype World = World(db: Db, callers: map<Id, Caller>)

  datatype Step =
    | Elsewhere(action: Action)
    | Call(caller: Id, organizationId: Id, key: RootKey)
    | Refuse(caller: Id)
    | LookUp(caller: Id)
    | TryInsert(caller: Id, id: Id, run: Run, trigger: TriggerType)

  function Enter(w: World, c: Id, phase: Phase): World
    requires c in w.callers
  {
    w.(callers := w.callers[c := w.callers[c].(phase := phase)])
  }

  ghost function Advance(cfg: Settings, w: World, s: Step): World {
    match s
    case Elsewhere(a) => if a.Insert? then w else w.(db := Apply(cfg, w.db, a))
    case Call(c, org, key) => if c in w.callers then w else w.(callers := w.callers[c := Caller(org, key, Starting)])
    case Refuse(c) => if c in w.callers && w.callers[c].phase in {Starting, Missed} then Enter(w, c, Refused) else w
    case LookUp(c) =>
      if c !in w.callers then w else
      var found := Lookup(w.db.rows, w.callers[c].organizationId, w.callers[c].key);
      var phase := w.callers[c].phase;
      if !phase.Starting? && !phase.Collided? then w
      else if found.Some? then Enter(w, c, Returned(found.value, false))
      else Enter(w, c, if phase.Starting? then Missed else Crashed)
    case TryInsert(c, id, run, trigger) =>
      if c !in w.callers || w.callers[c].phase != Missed || run.organizationId != w.callers[c].organizationId then w
      else if KeyTaken(w.db.rows, run.organizationId, w.callers[c].key) then Enter(w, c, Collided)
      else if !MayInsert(cfg, w.db, id, run, w.callers[c].key) then w
      else Enter(w, c, Returned(id, true)).(db := Apply(cfg, w.db, Insert(id, run, w.callers[c].key, trigger)))
  }

  ghost function Race(cfg: Settings, w: World, steps: seq<Step>): World
    decreases |steps|
  {
    if steps == [] then w else Race(cfg, Advance(cfg, w, steps[0]), steps[1..])
  }

  const QUIET: World := World(EMPTY, map[])

  // --------------------------------------------------------------- invariant

  predicate Names(e: Execution, c: Caller) {
    e.run.organizationId == c.organizationId && e.idempotencyKey == c.key
  }

  ghost predicate PhaseOk(rows: Rows, c: Caller) {
    match c.phase
    case Returned(id, _) => id in rows && Names(rows[id], c)
    case Collided => KeyTaken(rows, c.organizationId, c.key)
    case Crashed => false
    case _ => true
  }

  predicate Created(w: World, c: Id, id: Id) {
    c in w.callers && w.callers[c].phase == Returned(id, true)
  }

  ghost predicate HasCreator(w: World, id: Id) {
    exists c :: Created(w, c, id)
  }

  ghost predicate CreatorsOk(w: World) {
    && (forall id {:trigger HasCreator(w, id)} :: id in w.db.rows && w.db.rows[id].parentId.None? ==> HasCreator(w, id))
    && (forall c, d, id :: Created(w, c, id) && Created(w, d, id) ==> c == d)
  }

  ghost predicate PhasesOk(w: World) {
    forall c {:trigger PhaseOk(w.db.rows, w.callers[c])} :: c in w.callers ==> PhaseOk(w.db.rows, w.callers[c])
  }

  ghost predicate RaceInv(cfg: Settings, w: World) {
    Inv(cfg, w.db) && PhasesOk(w) && CreatorsOk(w)
  }

  /** Rows are never deleted and keep their organization and key. */
  lemma PhaseSurvives(cfg: Settings, db: Db, a: Action, c: Caller)
    requires Inv(cfg, db) && PhaseOk(db.rows, c)
    ensures PhaseOk(Apply(cfg, db, a).rows, c)
  {
    if c.phase.Returned? {
      ApplySteps(cfg, db, a, c.phase.id);
    } else if c.phase.Collided? {
      var id := Lookup(db.rows, c.organizationId, c.key).value;
      ApplySteps(cfg, db, a, id);
      var f := Apply(cfg, db, a).rows[id];
      assert f.run.organizationId == c.organizationId && f.idempotencyKey == c.key;
    }
  }

  lemma ElsewhereKeepsRace(cfg: Settings, w: World, a: Action)
    requires RaceInv(cfg, w) && !a.Insert?
    ensures RaceInv(cfg, w.(db := Apply(cfg, w.db, a)))
  {
    hide Inv, RowCall, RetryOutcomeOf, MayLock;
    var after := w.(db := Apply(cfg, w.db, a));
    ApplyKeepsInv(cfg, w.db, a);
    forall c | c in w.callers ensures PhaseOk(after.db.rows, w.callers[c]) {
      assert PhaseOk(w.db.rows, w.callers[c]);
      PhaseSurvives(cfg, w.db, a, w.callers[c]);
    }
    forall id | id in after.db.rows && after.db.rows[id].parentId.None? ensures HasCreator(after, id) {
      if id in w.db.rows { ApplySteps(cfg, w.db, a, id); }
      assert HasCreator(w, id);
      var c :| Created(w, c, id);
      assert Created(after, c, id);
    }
    assert forall c, id :: Created(after, c, id) <==> Created(w, c, id);
  }

  lemma EnterKeepsRace(cfg: Settings, w: World, c: Id, phase: Phase)
    requires RaceInv(cfg, w) && c in w.callers
    requires PhaseOk(w.db.rows, w.callers[c].(phase := phase))
    requires !w.callers[c].phase.Returned? && (phase.Returned? ==> !phase.created)
    ensures RaceInv(cfg, Enter(w, c, phase))
  {
    var after := Enter(w, c, phase);
    forall d | d in after.callers ensures PhaseOk(after.db.rows, after.callers[d]) {
      if d != c { assert PhaseOk(w.db.rows, w.callers[d]); }
    }
    assert forall d, id :: Created(after, d, id) <==> Created(w, d, id);
    forall id | id in after.db.rows && after.db.rows[id].parentId.None? ensures HasCreator(after, id) {
      assert HasCreator(w, id);
      var d :| Created(w, d, id);
      assert Created(after, d, id);
    }
  }

  lemma InsertKeepsRace(cfg: Settings, w: World, c: Id, id: Id, run: Run, trigger: TriggerType)
    requires RaceInv(cfg, w) && c in w.callers && w.callers[c].phase == Missed
    requires run.organizationId == w.callers[c].organizationId
    requires MayInsert(cfg, w.db, id, run, w.callers[c].key)
    ensures RaceInv(cfg, Advance(cfg, w, TryInsert(c, id, run, trigger)))
  {
    var a := Insert(id, run, w.callers[c].key, trigger);
    var after := Advance(cfg, w, TryInsert(c, id, run, trigger));
    ApplyKeepsInv(cfg, w.db, a);
    forall d | d in after.callers ensures PhaseOk(after.db.rows, after.callers[d]) {
      if d != c {
        assert PhaseOk(w.db.rows, w.callers[d]);
        PhaseSurvives(cfg, w.db, a, w.callers[d]);
      }
    }
    forall d, i | Created(after, d, i) ensures (d == c && i == id) || (Created(w, d, i) && i != id) {
      if d != c { assert PhaseOk(w.db.rows, w.callers[d]); }
    }
    forall i | i in after.db.rows && after.db.rows[i].parentId.None? ensures HasCreator(after, i) {
      if i == id {
        assert Created(after, c, id);
      } else {
        assert HasCreator(w, i);
        var d :| Created(w, d, i);
        assert Created(after, d, i);
      }
    }
  }

  lemma AdvanceKeepsRace(cfg: Settings, w: World, s: Step)
    requires RaceInv(cfg, w)
    ensures RaceInv(cfg, Advance(cfg, w, s))
  {
    match s
    case Elsewhere(a) => if !a.Insert? { ElsewhereKeepsRace(cfg, w, a); }
    case Call(c, org, key) => CallKeepsRace(cfg, w, c, org, key);
    case Refuse(c) =>
      if c in w.callers && w.callers[c].phase in {Starting, Missed} { EnterKeepsRace(cfg, w, c, Refused); }
    case LookUp(c) => LookUpKeepsRace(cfg, w, c);
    case TryInsert(c, id, run, trigger) =>
      if c in w.callers && w.callers[c].phase == Missed && run.organizationId == w.callers[c].organizationId {
        if KeyTaken(w.db.rows, run.organizationId, w.callers[c].key) {
          EnterKeepsRace(cfg, w, c, Collided);
        } else if MayInsert(cfg, w.db, id, run, w.callers[c].key) {
          InsertKeepsRace(cfg, w, c, id, run, trigger);
        }
      }
  }

  lemma CallKeepsRace(cfg: Settings, w: World, c: Id, org: Id, key: RootKey)
    requires RaceInv(cfg, w)
    ensures RaceInv(cfg, Advance(cfg, w, Call(c, org, key)))
  {
    var after := Advance(cfg, w, Call(c, org, key));
    forall d | d in after.callers ensures PhaseOk(after.db.rows, after.callers[d]) {
      if d in w.callers { assert PhaseOk(w.db.rows, w.callers[d]); }
    }
    assert forall d, id :: Created(after, d, id) <==> Created(w, d, id);
    forall id | id in after.db.rows && after.db.rows[id].parentId.None? ensures HasCreator(after, id) {
      assert HasCreator(w, id);
      var d :| Created(w, d, id);
      assert Created(after, d, id);
    }
  }

  lemma LookUpKeepsRace(cfg: Settings, w: World, c: Id)
    requires RaceInv(cfg, w)
    ensures RaceInv(cfg, Advance(cfg, w, LookUp(c)))
  {
    if c in w.callers && w.callers[c].phase in {Starting, Collided} {
      assert PhaseOk(w.db.rows, w.callers[c]);
      var found := Lookup(w.db.rows, w.callers[c].organizationId, w.callers[c].key);
      EnterKeepsRace(cfg, w, c, if found.Some? then Returned(found.value, false) else Missed);
    }
  }

  lemma {:induction false} RaceKeepsInv(cfg: Settings, w: World, steps: seq<Step>)
    requires RaceInv(cfg, w)
    ensures RaceInv(cfg, Race(cfg, w, steps))
    decreases |steps|
  {
    if steps != [] {
      AdvanceKeepsRace(cfg, w, steps[0]);
      RaceKeepsInv(cfg, Advance(cfg, w, steps[0]), steps[1..]);
    }
  }

  lemma RootKeyMeansRoot(rows: Rows, id: Id)
    requires AllLinked(rows) && id in rows && IsRootKey(rows[id].idempotencyKey)
    ensures rows[id].parentId.None?
  {
    assert Linked(rows, rows[id]);
    match rows[id].parentId
    case None =>
    case Some(p) => RetryKeyIsNotRoot(rows[p].idempotencyKey, rows[id].attempt);
  }

  /** However calls under one key interleave: no call crashes, all that return
      name the same single row, and exactly one of them is told it created it. */
  lemma EnqueueIsExactlyOnce(cfg: Settings, steps: seq<Step>, c: Id)
    requires var w := Race(cfg, QUIET, steps); c in w.callers
    ensures var w := Race(cfg, QUIET, steps); var caller := w.callers[c];
      && caller.phase != Crashed
      && (caller.phase.Returned? ==>
            && caller.phase.id in w.db.rows && Names(w.db.rows[caller.phase.id], caller)
            && (forall id :: id in w.db.rows && Names(w.db.rows[id], caller) ==> id == caller.phase.id)
            && (forall d :: d in w.callers && w.callers[d].phase.Returned?
                  && w.callers[d].organizationId == caller.organizationId && w.callers[d].key == caller.key
                  ==> w.callers[d].phase.id == caller.phase.id)
            && (exists d :: Created(w, d, caller.phase.id))
            && (forall d, e :: Created(w, d, caller.phase.id) && Created(w, e, caller.phase.id) ==> d == e))
  {
    RaceKeepsInv(cfg, QUIET, steps);
    var w := Race(cfg, QUIET, steps);
    var caller := w.callers[c];
    assert PhaseOk(w.db.rows, caller);
    if caller.phase.Returned? {
      var id := caller.phase.id;
      forall i | i in w.db.rows && Names(w.db.rows[i], caller) ensures i == id {
        assert SameSlot(w.db.rows[i], w.db.rows[id]);
      }
      forall d | d in w.callers && w.callers[d].phase.Returned? ensures PhaseOk(w.db.rows, w.callers[d]) {}
      RootKeyMeansRoot(w.db.rows, id);
      assert HasCreator(w, id);
    }
  }
}
