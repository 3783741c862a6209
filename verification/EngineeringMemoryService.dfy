/** The calls of backend/src/services/engineering_memory_service.py as they change
    the stored objects, each proved to be its action of the protocol. */
module EngineeringMemoryServices {
  import opened Prelude
  import opened EngineeringMemories

  class Memory {
    const id: Id
    const content: Content
    var status: MemoryStatus
    var decidedBy: Option<Id>
    var decidedAt: Option<int>

    function Row(): MemoryRow
      reads this
    {
      MemoryRow(content, status, decidedBy, decidedAt)
    }

    constructor (id: Id, row: MemoryRow)
      ensures this.id == id && Row() == row
    {
      this.id := id;
      content := row.content;
      status := row.status;
      decidedBy := row.decidedBy;
      decidedAt := row.decidedAt;
    }
  }

  class Service {
    var memories: map<Id, Memory>

    /** Every stored object sits under its own id. */
    ghost predicate Valid()
      reads this, memories.Values
    {
      forall id :: id in memories ==> memories[id].id == id
    }

    ghost function Rows(): Table
      reads this, memories.Values
    {
      map id | id in memories :: memories[id].Row()
    }

    constructor ()
      ensures Valid() && Rows() == map[]
    {
      memories := map[];
    }

    method Get(id: Id, org: Id) returns (found: Answer<Memory>)
      requires Valid()
      ensures found.Done? <==> Visible(Rows(), id, org)
      ensures found.Done? ==> found.value == memories[id]
      ensures !found.Done? ==> found == Answer.NotFound
    {
      if id !in memories || memories[id].content.organizationId != org { return Answer.NotFound; }
      found := Done(memories[id]);
    }

    method Create(id: Id, org: Id, user: Id, mayVouch: bool, now: int, draft: Draft) returns (answer: Answer<Memory>)
      requires Valid() && id !in memories
      modifies this
      ensures Valid()
      ensures Follows(old(Rows()), Action.Create(id, org, user, mayVouch, now, draft), answer)
    {
      hide Validated, Tidy, Cut;
      var checked := Validated(draft.kind, draft.text, draft.objectType);
      if checked.None? { return Invalid; }
      var vouched := draft.source == "human" && mayVouch;
      var content := Content(org, draft.connectionId, draft.objectType, Tidy(draft.objectName), draft.kind, checked.value,
                             draft.source, 1, None, user, Cut(Tidy(draft.rationale), MAX_RATIONALE));
      var memory := new Memory(id, MemoryRow(content, if vouched then Approved else Proposed,
                                             if vouched then Some(user) else None, if vouched then Some(now) else None));
      memories := memories[id := memory];
      answer := Done(memory);
    }

    method Decide(id: Id, org: Id, user: Id, mayVouch: bool, now: int, approve: bool) returns (answer: Answer<Memory>)
      requires Valid()
      modifies memories.Values
      ensures Valid() && memories == old(memories)
      ensures Follows(old(Rows()), Action.Decide(id, org, user, mayVouch, now, approve), answer)
    {
      if !mayVouch { return Denied; }
      answer := Get(id, org);
      if !answer.Done? { return; }
      var memory := answer.value;
      if memory.status != Proposed { return Answer.Conflict; }
      memory.status := if approve then Approved else Rejected;
      memory.decidedBy := Some(user);
      memory.decidedAt := Some(now);
    }

    method Edit(id: Id, org: Id, user: Id, mayVouch: bool, now: int, newId: Id, text: string, newKind: Option<string>)
      returns (answer: Answer<Memory>)
      requires Valid() && newId !in memories
      modifies this, memories.Values
      ensures Valid()
      ensures Follows(old(Rows()), Action.Edit(id, org, user, mayVouch, now, newId, text, newKind), answer)
    {
      hide Validated;
      if !mayVouch { return Denied; }
      answer := Get(id, org);
      if !answer.Done? { return; }
      var earlier := answer.value;
      if earlier.status != Approved { return Answer.Conflict; }
      var kind := if newKind.None? || newKind.value == "" then earlier.content.kind else newKind.value;
      var checked := Validated(kind, text, earlier.content.objectType);
      if checked.None? { return Invalid; }
      var content := earlier.content.(kind := kind, text := checked.value, source := "human",
                                      version := earlier.content.version + 1, supersedes := Some(id),
                                      createdBy := user, rationale := None);
      var later := Supersede(earlier, newId, MemoryRow(content, Approved, Some(user), Some(now)));
      answer := Done(later);
    }

    /** Archives one version and stores the next. */
    method Supersede(earlier: Memory, newId: Id, version: MemoryRow) returns (later: Memory)
      requires Valid() && Stores(earlier) && newId !in memories
      modifies this, earlier
      ensures Valid() && Stores(later) && later.Row() == version
      ensures Rows() == old(Rows())[earlier.id := old(earlier.Row()).(status := Archived)][newId := version]
    {
      earlier.status := Archived;
      later := new Memory(newId, version);
      memories := memories[newId := later];
    }

    method Archive(id: Id, org: Id, user: Id, mayVouch: bool) returns (answer: Answer<Memory>)
      requires Valid()
      modifies memories.Values
      ensures Valid() && memories == old(memories)
      ensures Follows(old(Rows()), Action.Archive(id, org, user, mayVouch), answer)
    {
      if !mayVouch { return Denied; }
      answer := Get(id, org);
      if !answer.Done? { return; }
      if answer.value.status == Archived { return; }
      answer.value.status := Archived;
    }

    /** The call answers what the protocol says, and leaves the table it says. */
    ghost predicate Follows(before: Table, a: Action, answer: Answer<Memory>)
      reads this, memories.Values, if answer.Done? then {answer.value} else {}
    {
      && Rows() == Apply(before, a)
      && RowOf(answer) == Outcome(before, a)
      && (answer.Done? ==> Stores(answer.value))
    }

    predicate Stores(memory: Memory)
      reads this
    {
      memory.id in memories && memories[memory.id] == memory
    }

    ghost function RowOf(answer: Answer<Memory>): Answer<MemoryRow>
      reads if answer.Done? then {answer.value} else {}
    {
      match answer
      case Done(memory) => Done(memory.Row())
      case Denied => Denied
      case NotFound => Answer.NotFound
      case Conflict => Answer.Conflict
      case Invalid => Invalid
    }

    method History(id: Id, org: Id) returns (answer: Answer<seq<Memory>>)
      requires Valid()
      ensures answer.Done? <==> Visible(Rows(), id, org)
      ensures !answer.Done? ==> answer == Answer.NotFound
      ensures answer.Done? ==>
        && |answer.value| == |Trail(Rows(), id, MAX_VERSIONS)|
        && forall k :: 0 <= k < |answer.value| ==> Stores(answer.value[k]) && answer.value[k].id == Trail(Rows(), id, MAX_VERSIONS)[k]
    {
      var first := Get(id, org);
      if !first.Done? { return Answer.NotFound; }
      hide Trail, Visible, Rows;
      var versions := [first.value];
      while versions[|versions| - 1].content.supersedes.Some? && |versions| < MAX_VERSIONS
        invariant 1 <= |versions| <= MAX_VERSIONS && versions[0] == first.value
        invariant Chain(versions, org)
        decreases MAX_VERSIONS - |versions|
      {
        var earlier := versions[|versions| - 1].content.supersedes.value;
        if earlier !in memories || memories[earlier].content.organizationId != org { break; }
        versions := versions + [memories[earlier]];
      }
      ChainIsTrail(versions, org, MAX_VERSIONS);
      answer := Done(versions);
    }

    /** Stored versions of one organization, each superseding the next. */
    ghost predicate Chain(versions: seq<Memory>, org: Id)
      reads this
    {
      forall k {:trigger versions[k]} :: 0 <= k < |versions| ==>
        && Stores(versions[k]) && versions[k].content.organizationId == org
        && (k + 1 < |versions| ==> versions[k].content.supersedes == Some(versions[k + 1].id))
    }

    /** No earlier version of the organization is stored. */
    ghost predicate EndsAt(last: Memory, org: Id)
      requires Valid()
      reads this, memories.Values
    {
      last.content.supersedes.None? || !Visible(Rows(), last.content.supersedes.value, org)
    }

    /** A chain that cannot be continued is what the protocol calls history. */
    lemma {:induction false} ChainIsTrail(versions: seq<Memory>, org: Id, room: nat)
      requires Valid() && 1 <= |versions| <= room && Chain(versions, org)
      requires |versions| == room || EndsAt(versions[|versions| - 1], org)
      ensures versions[0].id in Rows() && |Trail(Rows(), versions[0].id, room)| == |versions|
      ensures forall k :: 0 <= k < |versions| ==> versions[k].id == Trail(Rows(), versions[0].id, room)[k]
      decreases |versions|
    {
      if |versions| > 1 { ChainIsTrail(versions[1..], org, room - 1); }
    }
  }

  /** Whatever calls came before, history lists the newest versions of the lineage. */
  lemma HistoryListsNewest(actions: seq<Action>, id: Id)
    requires id in Play(map[], actions)
    ensures var t := Play(map[], actions);
      var v, versions := t[id].content.version, Trail(t, id, MAX_VERSIONS);
      && |versions| == (if v < MAX_VERSIONS then v else MAX_VERSIONS)
      && forall k :: 0 <= k < |versions| ==> versions[k] in t && t[versions[k]].content.version == v - k
  {
    ReachableInv(actions);
    TrailIsNewestVersions(Play(map[], actions), id, MAX_VERSIONS);
  }
}
