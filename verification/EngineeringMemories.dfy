/** Engineering memory (backend/src/services/engineering_memory_service.py) as a
    protocol over the table of memories: proposals people decide, and edits that
    add a version and archive the old one. One action is one committed call. */
module EngineeringMemories {
  import opened Prelude
  import opened TextShape

  type Id = nat

  const KINDS := {"convention", "sequence", "caution", "known_issue", "note"}
  const OBJECT_TYPES := {"cube", "dimension", "process", "chore", "rule"}
  const MAX_TEXT := 1000
  const MAX_RATIONALE := 2000
  const MAX_VERSIONS := 50

  datatype MemoryStatus = Proposed | Approved | Rejected | Archived

  datatype MemoryRow = MemoryRow(
    content: Content, status: MemoryStatus, decidedBy: Option<Id>, decidedAt: Option<int>)

  /** The columns no call ever rewrites. */
  datatype Content = Content(
    organizationId: Id, connectionId: Option<Id>, objectType: Option<string>, objectName: Option<string>,
    kind: string, text: string, source: string, version: nat, supersedes: Option<Id>,
    createdBy: Id, rationale: Option<string>)

  type Table = map<Id, MemoryRow>

  /** What a call answers: a value, or the exception it raises. */
  datatype Answer<+T> = Done(value: T) | Denied | NotFound | Conflict | Invalid

  datatype Action =
    | Create(id: Id, org: Id, user: Id, mayVouch: bool, now: int, draft: Draft)
    | Decide(id: Id, org: Id, user: Id, mayVouch: bool, now: int, approve: bool)
    | Edit(id: Id, org: Id, user: Id, mayVouch: bool, now: int, newId: Id, text: string, newKind: Option<string>)
    | Archive(id: Id, org: Id, user: Id, mayVouch: bool)

  /** The arguments of `create` that describe the memory. */
  datatype Draft = Draft(
    kind: string, text: string, source: string, connectionId: Option<Id>,
    objectType: Option<string>, objectName: Option<string>, rationale: Option<string>)

  // --------------------------------------------------------------- single calls

  predicate ValidKind(kind: string) {
    kind in KINDS
  }

  predicate ValidObject(objectType: Option<string>) {
    objectType.Some? ==> objectType.value in OBJECT_TYPES
  }

  predicate ValidText(text: string) {
    1 <= |text| <= MAX_TEXT
  }

  /** _validate: the stripped text, or nothing if it raises. */
  function Validated(kind: string, text: string, objectType: Option<string>): (checked: Option<string>)
    ensures checked.Some? <==> ValidKind(kind) && ValidObject(objectType) && ValidText(Strip(text))
    ensures checked.Some? ==> checked.value == Strip(text) && ValidText(checked.value)
  {
    var stripped := Strip(text);
    if ValidKind(kind) && ValidObject(objectType) && ValidText(stripped) then Some(stripped) else None
  }

  /** `(s or "").strip() or None` */
  function Tidy(s: Option<string>): Option<string> {
    if s.None? || Strip(s.value) == "" then None else Some(Strip(s.value))
  }

  function Cut(s: Option<string>, most: nat): Option<string> {
    if s.Some? && |s.value| > most then Some(s.value[..most]) else s
  }

  predicate Vouched(d: Draft, mayVouch: bool) {
    d.source == "human" && mayVouch
  }

  function Created(org: Id, user: Id, mayVouch: bool, now: int, d: Draft): Answer<MemoryRow> {
    var checked := Validated(d.kind, d.text, d.objectType);
    if checked.None? then Invalid
    else
      var content := Content(org, d.connectionId, d.objectType, Tidy(d.objectName), d.kind, checked.value,
                             d.source, 1, None, user, Cut(Tidy(d.rationale), MAX_RATIONALE));
      Done(if Vouched(d, mayVouch) then MemoryRow(content, Approved, Some(user), Some(now))
           else MemoryRow(content, Proposed, None, None))
  }

  function Decided(m: MemoryRow, user: Id, now: int, approve: bool): Answer<MemoryRow> {
    if m.status != Proposed then Answer.Conflict
    else Done(m.(status := if approve then Approved else Rejected, decidedBy := Some(user), decidedAt := Some(now)))
  }

  function KindOf(newKind: Option<string>, m: MemoryRow): string {
    if newKind.None? || newKind.value == "" then m.content.kind else newKind.value
  }

  /** The version an edit of memory `id` adds. */
  function NextVersion(id: Id, m: MemoryRow, user: Id, now: int, text: string, newKind: Option<string>): Answer<MemoryRow> {
    var kind := KindOf(newKind, m);
    var checked := Validated(kind, text, m.content.objectType);
    if m.status != Approved then Answer.Conflict
    else if checked.None? then Invalid
    else
      Done(MemoryRow(m.content.(kind := kind, text := checked.value, source := "human", version := m.content.version + 1,
                                supersedes := Some(id), createdBy := user, rationale := None),
                     Approved, Some(user), Some(now)))
  }

  /** `get`: another organization's memory is not found. */
  predicate Visible(t: Table, id: Id, org: Id) {
    id in t && t[id].content.organizationId == org
  }

  function Access(t: Table, id: Id, org: Id, mayVouch: bool): Answer<MemoryRow> {
    if !mayVouch then Denied else if !Visible(t, id, org) then Answer.NotFound else Done(t[id])
  }

  /** What one call answers. */
  function Outcome(t: Table, a: Action): Answer<MemoryRow> {
    match a
    case Create(_, org, user, mayVouch, now, draft) => Created(org, user, mayVouch, now, draft)
    case Decide(id, org, user, mayVouch, now, approve) =>
      var found := Access(t, id, org, mayVouch);
      if found.Done? then Decided(found.value, user, now, approve) else found
    case Edit(id, org, user, mayVouch, now, _, text, newKind) =>
      var found := Access(t, id, org, mayVouch);
      if found.Done? then NextVersion(id, found.value, user, now, text, newKind) else found
    case Archive(id, org, _, mayVouch) =>
      var found := Access(t, id, org, mayVouch);
      if found.Done? then Done(found.value.(status := Archived)) else found
  }

  /** New rows get ids the table has never held. */
  predicate FreshId(t: Table, a: Action) {
    (a.Create? ==> a.id !in t) && (a.Edit? ==> a.newId !in t)
  }

  function Apply(t: Table, a: Action): Table {
    var answer := Outcome(t, a);
    if !answer.Done? || !FreshId(t, a) then t
    else if a.Edit? then t[a.id := t[a.id].(status := Archived)][a.newId := answer.value]
    else t[a.id := answer.value]
  }

  function Play(t: Table, actions: seq<Action>): Table
    decreases |actions|
  {
    if actions == [] then t else Play(Apply(t, actions[0]), actions[1..])
  }

  // ------------------------------------------------------------------ invariant

  predicate RowOk(m: MemoryRow) {
    && ValidKind(m.content.kind) && ValidObject(m.content.objectType) && ValidText(m.content.text)
    && m.content.version >= 1
    && (m.content.supersedes.None? <==> m.content.version == 1)
    && (m.status == Proposed ==> m.decidedBy.None? && m.content.version == 1)
    && (m.status in {Approved, Rejected} ==> m.decidedBy.Some? && m.decidedAt.Some?)
    && (m.content.version > 1 ==> m.status in {Approved, Archived} && m.content.source == "human")
  }

  /** `later` replaced `earlier`. */
  predicate Supersedes(t: Table, later: Id, earlier: Id) {
    later in t && t[later].content.supersedes == Some(earlier)
  }

  predicate LinkOk(t: Table, later: Id, earlier: Id) {
    && later in t && earlier in t
    && t[earlier].status == Archived
    && t[earlier].content.organizationId == t[later].content.organizationId
    && t[earlier].content.version + 1 == t[later].content.version
  }

  ghost predicate Inv(t: Table) {
    && (forall id :: id in t ==> RowOk(t[id]))
    && (forall later, earlier :: Supersedes(t, later, earlier) ==> LinkOk(t, later, earlier))
    && (forall i, j, earlier :: Supersedes(t, i, earlier) && Supersedes(t, j, earlier) ==> i == j)
  }

  lemma ApplyKeepsInv(t: Table, a: Action)
    requires Inv(t)
    ensures Inv(Apply(t, a))
  {
    hide Validated, ValidKind, ValidObject, ValidText, Tidy, Cut;
    var after := Apply(t, a);
    if after != t {
      ApplyKeepsRowsOk(t, a);
      forall later, earlier | Supersedes(after, later, earlier)
        ensures Supersedes(t, later, earlier) || (a.Edit? && later == a.newId && earlier == a.id)
      {
      }
      forall later, earlier | Supersedes(after, later, earlier) ensures LinkOk(after, later, earlier) {
        if Supersedes(t, later, earlier) { assert LinkOk(t, later, earlier); }
      }
      if a.Edit? {
        assert forall i :: Supersedes(t, i, a.id) ==> LinkOk(t, i, a.id);
      }
    }
  }

  lemma ApplyKeepsRowsOk(t: Table, a: Action)
    requires Inv(t)
    ensures forall id :: id in Apply(t, a) ==> RowOk(Apply(t, a)[id])
  {
    hide ValidKind, ValidObject, ValidText, Tidy, Cut, Supersedes, LinkOk;
  }

  lemma {:induction false} PlayKeepsInv(t: Table, actions: seq<Action>)
    requires Inv(t)
    ensures Inv(Play(t, actions))
    decreases |actions|
  {
    if actions != [] {
      ApplyKeepsInv(t, actions[0]);
      PlayKeepsInv(Apply(t, actions[0]), actions[1..]);
    }
  }

  /** Every table that any calls can produce. */
  lemma ReachableInv(actions: seq<Action>)
    ensures Inv(Play(map[], actions))
  {
    PlayKeepsInv(map[], actions);
  }

  // -------------------------------------------------------------------- lineages

  /** The first version of a memory's lineage. */
  ghost function Root(t: Table, id: Id): Id
    requires Inv(t) && id in t
    decreases t[id].content.version
  {
    match t[id].content.supersedes
    case None => id
    case Some(earlier) =>
      assert Supersedes(t, id, earlier);
      Root(t, earlier)
  }

  lemma {:induction false} OneOfEachVersion(t: Table, i: Id, j: Id)
    requires Inv(t) && i in t && j in t
    requires Root(t, i) == Root(t, j) && t[i].content.version == t[j].content.version
    ensures i == j
    decreases t[i].content.version
  {
    if t[i].content.supersedes.Some? {
      var p, q := t[i].content.supersedes.value, t[j].content.supersedes.value;
      assert Supersedes(t, i, p) && Supersedes(t, j, q);
      OneOfEachVersion(t, p, q);
    }
  }

  /** Versions that a later version of the lineage follows are archived. */
  lemma {:induction false} OnlyTheNewestLives(t: Table, older: Id, newer: Id)
    requires Inv(t) && older in t && newer in t
    requires Root(t, older) == Root(t, newer) && t[older].content.version < t[newer].content.version
    ensures t[older].status == Archived
    decreases t[newer].content.version
  {
    var p := t[newer].content.supersedes.value;
    assert Supersedes(t, newer, p);
    assert LinkOk(t, newer, p);
    if t[older].content.version == t[p].content.version {
      OneOfEachVersion(t, older, p);
    } else {
      OnlyTheNewestLives(t, older, p);
    }
  }

  /** Each lineage has at most one memory that is not archived. */
  lemma OneApprovedPerLineage(t: Table, i: Id, j: Id)
    requires Inv(t) && i in t && j in t && Root(t, i) == Root(t, j)
    requires t[i].status != Archived && t[j].status != Archived
    ensures i == j
  {
    if t[i].content.version < t[j].content.version { OnlyTheNewestLives(t, i, j); }
    else if t[j].content.version < t[i].content.version { OnlyTheNewestLives(t, j, i); }
    else { OneOfEachVersion(t, i, j); }
  }

  // ---------------------------------------------------------------------- history

  /** `history` from a memory it has found, with room for `room` versions. */
  function Trail(t: Table, id: Id, room: nat): (versions: seq<Id>)
    requires id in t
    decreases room
  {
    if room <= 1 then [id]
    else
      match t[id].content.supersedes
      case None => [id]
      case Some(earlier) =>
        if !Visible(t, earlier, t[id].content.organizationId) then [id]
        else [id] + Trail(t, earlier, room - 1)
  }

  /** The newest versions in descending order, all of them up to the room there is. */
  lemma {:induction false} TrailIsNewestVersions(t: Table, id: Id, room: nat)
    requires Inv(t) && id in t && room >= 1
    ensures var v, versions := t[id].content.version, Trail(t, id, room);
      && |versions| == (if v < room then v else room)
      && forall k :: 0 <= k < |versions| ==>
           && versions[k] in t
           && t[versions[k]].content.version == v - k
           && Root(t, versions[k]) == Root(t, id)
           && t[versions[k]].content.organizationId == t[id].content.organizationId
           && (k > 0 ==> t[versions[k]].status == Archived)
    decreases room
  {
    if room > 1 && t[id].content.supersedes.Some? {
      var earlier := t[id].content.supersedes.value;
      assert Supersedes(t, id, earlier);
      assert LinkOk(t, id, earlier);
      TrailIsNewestVersions(t, earlier, room - 1);
    }
  }

  // ---------------------------------------------------------------- over whole runs

  /** The only moves a row makes, and what never moves. */
  predicate Evolves(before: MemoryRow, after: MemoryRow) {
    && after.content == before.content
    && (before.status == Archived ==> after == before)
    && (before.status != Proposed && after.status != Archived ==> after == before)
    && (after.status == Proposed ==> after == before)
    && (before.decidedBy.Some? ==> after.decidedBy == before.decidedBy && after.decidedAt == before.decidedAt)
  }

  /** Rows are never lost and never overwritten; archived is final. */
  lemma {:induction false} NothingIsOverwritten(t: Table, actions: seq<Action>, id: Id)
    requires Inv(t) && id in t
    ensures id in Play(t, actions) && Evolves(t[id], Play(t, actions)[id])
    decreases |actions|
  {
    hide Inv;
    if actions != [] {
      var next := Apply(t, actions[0]);
      ApplyEvolves(t, actions[0], id);
      ApplyKeepsInv(t, actions[0]);
      NothingIsOverwritten(next, actions[1..], id);
    }
  }

  lemma ApplyEvolves(t: Table, a: Action, id: Id)
    requires Inv(t) && id in t
    ensures id in Apply(t, a) && Evolves(t[id], Apply(t, a)[id])
  {
    hide Validated, Tidy, Cut, Supersedes, LinkOk;
    assert RowOk(t[id]);
  }

  /** The call that let this row be approved: made by its decider, who may vouch,
      and not by the assistant. */
  predicate Vouches(a: Action, id: Id, user: Id) {
    && !a.Archive? && a.mayVouch && a.user == user
    && (a.Create? ==> a.id == id && a.draft.source == "human")
    && (a.Decide? ==> a.id == id && a.approve)
    && (a.Edit? ==> a.newId == id)
  }

  /** Every approved memory was approved by a call of someone who may vouch. */
  lemma {:induction false} SomeoneVouched(t: Table, actions: seq<Action>, id: Id)
    requires Inv(t) && id in Play(t, actions) && Play(t, actions)[id].status == Approved
    requires id in t ==> t[id].status != Approved
    ensures Play(t, actions)[id].decidedBy.Some?
    ensures exists k :: 0 <= k < |actions| && Vouches(actions[k], id, Play(t, actions)[id].decidedBy.value)
    decreases |actions|
  {
    hide Inv;
    var a, next := actions[0], Apply(t, actions[0]);
    ApplyKeepsInv(t, a);
    if id in next && next[id].status == Approved {
      ApprovalIsVouchedFor(t, a, id);
      NothingIsOverwritten(next, actions[1..], id);
      assert Vouches(actions[0], id, Play(t, actions)[id].decidedBy.value);
    } else {
      SomeoneVouched(next, actions[1..], id);
      var k: nat :| 0 <= k < |actions[1..]| && Vouches(actions[1..][k], id, Play(t, actions)[id].decidedBy.value);
      assert actions[k + 1] == actions[1..][k];
    }
  }

  lemma ApprovalIsVouchedFor(t: Table, a: Action, id: Id)
    requires id in Apply(t, a) && Apply(t, a)[id].status == Approved
    requires id in t ==> t[id].status != Approved
    ensures Apply(t, a)[id].decidedBy.Some? && Vouches(a, id, Apply(t, a)[id].decidedBy.value)
  {
    hide Validated, Tidy, Cut;
  }

  // -------------------------------------------------------------- columns written

  predicate Acceptable(kind: string, text: string, objectType: Option<string>) {
    && kind in {"convention", "sequence", "caution", "known_issue", "note"}
    && (objectType.Some? ==> objectType.value in {"cube", "dimension", "process", "chore", "rule"})
    && 1 <= |Strip(text)| <= 1000
  }

  /** `create`: approved at once only for a person who may vouch, a proposal otherwise. */
  lemma CreateWrites(t: Table, a: Action)
    requires a.Create?
    ensures var d, answer := a.draft, Outcome(t, a);
      && (answer.Done? <==> Acceptable(d.kind, d.text, d.objectType))
      && (!answer.Done? ==> answer == Invalid)
      && (answer.Done? ==>
            var vouched := d.source == "human" && a.mayVouch;
            var name := if d.objectName.Some? && |Strip(d.objectName.value)| > 0 then Some(Strip(d.objectName.value)) else None;
            var why := if d.rationale.Some? then Strip(d.rationale.value) else "";
            answer.value == MemoryRow(
              Content(a.org, d.connectionId, d.objectType, name, d.kind, Strip(d.text), d.source, 1, None, a.user,
                      if |why| == 0 then None else if |why| > 2000 then Some(why[..2000]) else Some(why)),
              if vouched then Approved else Proposed,
              if vouched then Some(a.user) else None,
              if vouched then Some(a.now) else None))
  {
  }

  /** `decide`: who may, then whether it is there, then whether it is still a proposal. */
  lemma DecideWrites(t: Table, a: Action)
    requires a.Decide?
    ensures var answer := Outcome(t, a);
      var here := a.id in t && t[a.id].content.organizationId == a.org;
      && (answer == Denied <==> !a.mayVouch)
      && (answer == Answer.NotFound <==> a.mayVouch && !here)
      && (answer == Answer.Conflict <==> a.mayVouch && here && t[a.id].status != Proposed)
      && (answer.Done? <==> a.mayVouch && here && t[a.id].status == Proposed)
      && (answer.Done? ==>
            var written := MemoryRow(t[a.id].content, if a.approve then Approved else Rejected, Some(a.user), Some(a.now));
            answer.value == written)
  {
  }

  /** `edit`: a new version with the new text, about the same object, by this user. */
  lemma EditWrites(t: Table, a: Action)
    requires a.Edit?
    ensures var answer := Outcome(t, a);
      var here := a.id in t && t[a.id].content.organizationId == a.org;
      && (answer == Denied <==> !a.mayVouch)
      && (answer == Answer.NotFound <==> a.mayVouch && !here)
      && (answer == Answer.Conflict <==> a.mayVouch && here && t[a.id].status != Approved)
      && (here ==>
            var c := t[a.id].content;
            var kind := if a.newKind.Some? && |a.newKind.value| > 0 then a.newKind.value else c.kind;
            && (answer.Done? <==> a.mayVouch && t[a.id].status == Approved && Acceptable(kind, a.text, c.objectType))
            && var written := Content(c.organizationId, c.connectionId, c.objectType, c.objectName, kind, Strip(a.text), "human",
                                      c.version + 1, Some(a.id), a.user, None);
            (answer.Done? ==> answer.value == MemoryRow(written, Approved, Some(a.user), Some(a.now))))
  {
  }

  /** The call that made a row, and what the row kept of it: its text, stripped, its
      author, and the object it was given or that of the version it replaced. */
  predicate MadeBy(t: Table, a: Action, id: Id) {
    && id in t
    && var c := t[id].content;
    match a
    case Create(newId, org, user, _, _, d) =>
      && id == newId && c.organizationId == org && c.createdBy == user && c.text == Strip(d.text) && c.kind == d.kind
      && c.connectionId == d.connectionId && c.objectType == d.objectType && c.source == d.source
      && c.version == 1 && c.supersedes == None
    case Edit(earlier, _, user, _, _, newId, text, newKind) =>
      && id == newId && earlier in t && c.createdBy == user && c.text == Strip(text)
      && c.version == t[earlier].content.version + 1 && c.supersedes == Some(earlier)
      && c.kind == (if newKind.Some? && |newKind.value| > 0 then newKind.value else t[earlier].content.kind)
      && c.organizationId == t[earlier].content.organizationId && c.connectionId == t[earlier].content.connectionId
      && c.objectType == t[earlier].content.objectType && c.objectName == t[earlier].content.objectName
    case _ => false
  }

  lemma NewRowIsMade(t: Table, a: Action, id: Id)
    requires Inv(t) && id !in t && id in Apply(t, a)
    ensures MadeBy(Apply(t, a), a, id)
  {
    hide Inv, Acceptable;
    if a.Create? { CreateWrites(t, a); }
    if a.Edit? { EditWrites(t, a); }
  }

  /** Every row of any table the calls produce holds what the call that made it was given. */
  lemma {:induction false} RowsTellTheirMaker(t: Table, actions: seq<Action>, id: Id)
    requires Inv(t) && id !in t && id in Play(t, actions)
    ensures exists k :: 0 <= k < |actions| && MadeBy(Play(t, actions), actions[k], id)
    decreases |actions|
  {
    hide Inv, MadeBy;
    var a, next := actions[0], Apply(t, actions[0]);
    ApplyKeepsInv(t, a);
    if id in next {
      NewRowIsMade(t, a, id);
      MakingSurvives(next, a, id, actions[1..]);
      assert MadeBy(Play(t, actions), actions[0], id);
    } else {
      RowsTellTheirMaker(next, actions[1..], id);
      var k :| 0 <= k < |actions[1..]| && MadeBy(Play(t, actions), actions[1..][k], id);
      assert MadeBy(Play(t, actions), actions[k + 1], id);
    }
  }

  lemma MakingSurvives(t: Table, a: Action, id: Id, later: seq<Action>)
    requires Inv(t) && MadeBy(t, a, id)
    ensures MadeBy(Play(t, later), a, id)
  {
    hide Inv;
    NothingIsOverwritten(t, later, id);
    if a.Edit? { NothingIsOverwritten(t, later, a.id); }
  }

  // ----------------------------------------------------------------- races

  // The service takes no lock between reading a memory and writing it. A call that read
  // the table `read` writes its columns into the table that `between` has made of it.

  /** What an edit writes: the old version's status, and a new row. */
  function WriteEdit(t: Table, id: Id, newId: Id, version: MemoryRow): Table
    requires id in t
  {
    t[id := t[id].(status := Archived)][newId := version]
  }

  /** What a decision writes: three columns of one row. */
  function WriteDecision(t: Table, id: Id, user: Id, now: int, approve: bool): Table
    requires id in t
  {
    t[id := t[id].(status := if approve then Approved else Rejected, decidedBy := Some(user), decidedAt := Some(now))]
  }

  function WriteArchive(t: Table, id: Id): Table
    requires id in t
  {
    t[id := t[id].(status := Archived)]
  }

  ghost predicate Superseded(t: Table, id: Id) {
    exists later :: Supersedes(t, later, id)
  }

  /** Written over the table it read, each is its call. */
  lemma PromptWritesAreTheCalls(t: Table, a: Action)
    requires Outcome(t, a).Done? && FreshId(t, a) && !a.Create?
    ensures Apply(t, a) ==
      match a
      case Decide(id, _, user, _, now, approve) => WriteDecision(t, id, user, now, approve)
      case Edit(id, _, _, _, _, newId, _, _) => WriteEdit(t, id, newId, Outcome(t, a).value)
      case Archive(id, _, _, _) => WriteArchive(t, id)
      case Create(_, _, _, _, _, _) => t
  {
    hide Validated;
  }

  /** Changing decision columns alone leaves every link as it is, but for the status a
      superseded row must have. */
  lemma RelinkIff(t: Table, id: Id, m: MemoryRow)
    requires Inv(t) && id in t && RowOk(m) && m.content == t[id].content
    ensures Inv(t[id := m]) <==> m.status == Archived || !Superseded(t, id)
  {
    hide RowOk;
    var after := t[id := m];
    assert forall later, earlier :: Supersedes(after, later, earlier) <==> Supersedes(t, later, earlier);
    if m.status == Archived || !Superseded(t, id) {
      forall later, earlier | Supersedes(after, later, earlier) ensures LinkOk(after, later, earlier) {
        assert LinkOk(t, later, earlier);
      }
    } else {
      var later :| Supersedes(t, later, id);
      assert Supersedes(after, later, id) && !LinkOk(after, later, id);
    }
  }

  /** A new version may be linked to `id` as long as it has none. */
  lemma NewVersionIff(t: Table, id: Id, newId: Id, version: MemoryRow)
    requires Inv(t) && id in t && newId !in t && t[id].status == Archived
    requires RowOk(version) && version.content.supersedes == Some(id)
    requires version.content.version == t[id].content.version + 1
    requires version.content.organizationId == t[id].content.organizationId
    ensures Inv(t[newId := version]) <==> !Superseded(t, id)
  {
    hide RowOk;
    var after := t[newId := version];
    assert Supersedes(after, newId, id) && LinkOk(after, newId, id);
    forall later, earlier | Supersedes(after, later, earlier)
      ensures later == newId || Supersedes(t, later, earlier)
    {
    }
    if Superseded(t, id) {
      var later :| Supersedes(t, later, id);
      assert Supersedes(after, later, id);
    } else {
      forall later, earlier | Supersedes(after, later, earlier) ensures LinkOk(after, later, earlier) {
        if later != newId { assert LinkOk(t, later, earlier); }
      }
    }
  }

  lemma NextVersionIsOk(id: Id, m: MemoryRow, user: Id, now: int, text: string, newKind: Option<string>)
    requires RowOk(m) && NextVersion(id, m, user, now, text, newKind).Done?
    ensures RowOk(NextVersion(id, m, user, now, text, newKind).value)
  {
    hide Validated, ValidText, ValidKind;
  }

  /** An edit that writes late keeps the chains exactly when no other edit of the same
      memory has come in between. */
  lemma LateEditKeepsChainIff(read: Table, edit: Action, between: seq<Action>)
    requires Inv(read) && edit.Edit? && Outcome(read, edit).Done? && edit.newId !in Play(read, between)
    ensures edit.id in Play(read, between)
    ensures Inv(WriteEdit(Play(read, between), edit.id, edit.newId, Outcome(read, edit).value))
      <==> !Superseded(Play(read, between), edit.id)
  {
    hide Inv, RowOk, Superseded, NextVersion;
    var t := Play(read, between);
    PlayKeepsInv(read, between);
    NothingIsOverwritten(read, between, edit.id);
    var version := Outcome(read, edit).value;
    LinksBack(read, edit);
    assert RowOk(read[edit.id]) && RowOk(t[edit.id]) by { AllRowsOk(read); AllRowsOk(t); }
    NextVersionIsOk(edit.id, read[edit.id], edit.user, edit.now, edit.text, edit.newKind);
    var archived := t[edit.id].(status := Archived);
    ArchivedIsOk(t[edit.id]);
    RelinkIff(t, edit.id, archived);
    SameLinks(t, edit.id, archived);
    NewVersionIff(t[edit.id := archived], edit.id, edit.newId, version);
  }

  lemma AllRowsOk(t: Table)
    requires Inv(t)
    ensures forall id :: id in t ==> RowOk(t[id])
  {
  }

  lemma ArchivedIsOk(m: MemoryRow)
    requires RowOk(m)
    ensures RowOk(m.(status := Archived))
  {
    hide ValidText, ValidKind;
  }

  lemma LinksBack(t: Table, edit: Action)
    requires edit.Edit? && Outcome(t, edit).Done?
    ensures edit.id in t && NextVersion(edit.id, t[edit.id], edit.user, edit.now, edit.text, edit.newKind) == Outcome(t, edit)
    ensures var content := Outcome(t, edit).value.content;
      && content.supersedes == Some(edit.id) && content.version == t[edit.id].content.version + 1
      && content.organizationId == t[edit.id].content.organizationId
  {
    hide Validated;
  }

  lemma SameLinks(t: Table, id: Id, m: MemoryRow)
    requires id in t && m.content == t[id].content
    ensures Superseded(t[id := m], id) <==> Superseded(t, id)
  {
    if Superseded(t[id := m], id) {
      var later :| Supersedes(t[id := m], later, id);
      assert Supersedes(t, later, id);
    }
    if Superseded(t, id) {
      var later :| Supersedes(t, later, id);
      assert Supersedes(t[id := m], later, id);
    }
  }

  /** A decision that writes late keeps the chains exactly when the memory has not been
      superseded in between, and keeps what the rows promise exactly when it is still
      proposed (or the same decision had been made already). */
  lemma LateDecisionIff(read: Table, decide: Action, between: seq<Action>)
    requires Inv(read) && decide.Decide? && Outcome(read, decide).Done?
    ensures decide.id in Play(read, between)
    ensures var t := Play(read, between);
      var after := WriteDecision(t, decide.id, decide.user, decide.now, decide.approve);
      && (Inv(after) <==> !Superseded(t, decide.id))
      && (Evolves(t[decide.id], after[decide.id]) <==> t[decide.id].status == Proposed || after == t)
  {
    hide Inv, RowOk, Superseded;
    var t := Play(read, between);
    PlayKeepsInv(read, between);
    NothingIsOverwritten(read, between, decide.id);
    var m := WriteDecision(t, decide.id, decide.user, decide.now, decide.approve)[decide.id];
    assert t[decide.id := t[decide.id]] == t;
    assert RowOk(m) by { AllRowsOk(read); AllRowsOk(t); DecidedIsOk(read[decide.id], t[decide.id], m); }
    RelinkIff(t, decide.id, m);
    UndecidedIsOk(t, decide.id);
  }

  lemma DecidedIsOk(before: MemoryRow, now: MemoryRow, m: MemoryRow)
    requires RowOk(before) && RowOk(now) && before.status == Proposed && now.content == before.content
    requires m.content == now.content && m.status in {Approved, Rejected} && m.decidedBy.Some? && m.decidedAt.Some?
    ensures RowOk(m)
  {
    hide ValidText, ValidKind;
  }

  lemma UndecidedIsOk(t: Table, id: Id)
    requires Inv(t) && id in t
    ensures t[id].status == Proposed ==> t[id].decidedBy.None?
  {
    assert RowOk(t[id]);
  }

  /** A late archive breaks nothing. */
  lemma LateArchiveIsHarmless(read: Table, archive: Action, between: seq<Action>)
    requires Inv(read) && archive.Archive? && Outcome(read, archive).Done?
    ensures archive.id in Play(read, between)
    ensures var t := Play(read, between); var after := WriteArchive(t, archive.id);
      Inv(after) && Evolves(t[archive.id], after[archive.id])
  {
    hide Inv, RowOk, Superseded;
    var t := Play(read, between);
    PlayKeepsInv(read, between);
    NothingIsOverwritten(read, between, archive.id);
    AllRowsOk(t);
    ArchivedIsOk(t[archive.id]);
    RelinkIff(t, archive.id, t[archive.id].(status := Archived));
  }

  /** Overlapping edits: both succeed, and the memory has two approved successors. */
  lemma OverlappingEditsFork(read: Table, first: Action, second: Action)
    requires Inv(read) && first.Edit? && second.Edit? && first.id == second.id
    requires FreshId(read, first) && FreshId(read, second) && first.newId != second.newId
    requires Outcome(read, first).Done? && Outcome(read, second).Done?
    ensures var once := Apply(read, first);
      && first.id in once
      && var twice := WriteEdit(once, second.id, second.newId, Outcome(read, second).value);
      && Supersedes(twice, first.newId, first.id) && Supersedes(twice, second.newId, first.id)
      && twice[first.newId].status == twice[second.newId].status == Approved
      && Outcome(once, second) == Answer.Conflict
  {
    hide Validated, Inv;
  }

  /** A decision that overlaps an archive brings the memory back; one that overlaps
      another decision replaces its decider. */
  lemma OverlappingDecisions(read: Table, decide: Action, other: Action)
    requires decide.Decide? && Outcome(read, decide).Done? && Outcome(read, other).Done?
    requires (other.Archive? || other.Decide?) && other.id == decide.id
    ensures var t := Apply(read, other);
      && decide.id in t
      && var m := WriteDecision(t, decide.id, decide.user, decide.now, decide.approve)[decide.id];
      && (other.Archive? ==> t[decide.id].status == Archived && m.status != Archived)
      && (other.Decide? ==> t[decide.id].decidedBy == Some(other.user) && m.decidedBy == Some(decide.user))
  {
  }
}
