/** Worker identity as a protocol over all workers of all organizations:
    single-use enrolment, credential epochs, disabling. One action is one
    committed call; a refused call changes nothing. */
module WorkerIdentity {
  import opened Prelude
  import opened WorkerRecords

  /** `issued` counts the secrets and tokens generated so far, each distinct;
      `minted` remembers every access token ever handed out. */
  datatype Pool = Pool(workers: map<Id, WorkerRow>, issued: Secret, minted: set<Token>, now: int)

  const NO_WORKERS: Pool := Pool(map[], 0, {}, 0)

  datatype Action =
    | Tick(elapsed: nat)
    | Register(id: Id, org: Id, name: string, expires: int)
    | Rotate(id: Id, org: Id)
    | Reissue(id: Id, org: Id, expires: int)
    | SetEnabled(id: Id, org: Id, enabled: bool)
    | Enroll(token: Secret)
    | Authenticate(id: Id, secret: Secret)
    | Heartbeat(bearer: Token, busy: bool)

  // ------------------------------------------------------------------ lookups

  predicate Holds(p: Pool, id: Id, token: Secret) {
    id in p.workers && p.workers[id].enrollmentHash == Some(Digest(token))
  }

  /** get_by_enrollment_token_hash. */
  ghost function HolderOf(p: Pool, token: Secret): (found: Option<Id>)
    ensures found.Some? ==> Holds(p, found.value, token)
    ensures found.None? ==> forall id :: !Holds(p, id, token)
  {
    if exists id :: Holds(p, id, token) then var id :| Holds(p, id, token); Some(id) else None
  }

  /** get_worker: another organization's worker is not found. */
  predicate Visible(p: Pool, id: Id, org: Id) {
    id in p.workers && p.workers[id].organizationId == org
  }

  ghost predicate NameTaken(p: Pool, org: Id, name: string) {
    exists id :: Visible(p, id, org) && p.workers[id].name == name
  }

  /** resolve_token_subject. */
  predicate TokenResolves(p: Pool, t: Token) {
    t.sub in p.workers && Resolves(p.workers[t.sub], t)
  }

  // -------------------------------------------------------------------- steps

  /** Does the call succeed? */
  ghost predicate Accepts(p: Pool, a: Action) {
    match a
    case Tick(_) => true
    case Register(id, org, name, _) => id !in p.workers && name != "" && !NameTaken(p, org, name)
    case Rotate(id, org) => Visible(p, id, org) && Rotated(p.workers[id], p.issued).Ok?
    case Reissue(id, org, expires) => Visible(p, id, org) && Reissued(p.workers[id], p.issued, expires).Ok?
    case SetEnabled(id, org, _) => Visible(p, id, org)
    case Enroll(token) => HolderOf(p, token).Some? && MayEnroll(p.workers[HolderOf(p, token).value], p.now)
    case Authenticate(id, secret) => id in p.workers && Authenticates(p.workers[id], secret)
    case Heartbeat(t, _) => TokenResolves(p, t)
  }

  function Write(p: Pool, id: Id, w: WorkerRow): Pool {
    p.(workers := p.workers[id := w])
  }

  ghost function Apply(p: Pool, a: Action): Pool {
    if !Accepts(p, a) then p else
    match a
    case Tick(elapsed) => p.(now := p.now + elapsed)
    case Register(id, org, name, expires) => Write(p, id, Registered(org, name, p.issued, expires)).(issued := p.issued + 1)
    case Rotate(id, _) => Write(p, id, Rotated(p.workers[id], p.issued).value).(issued := p.issued + 1)
    case Reissue(id, _, expires) => Write(p, id, Reissued(p.workers[id], p.issued, expires).value).(issued := p.issued + 1)
    case SetEnabled(id, _, enabled) => Write(p, id, Enabled(p.workers[id], enabled))
    case Enroll(token) =>
      var id := HolderOf(p, token).value;
      Write(p, id, Enrolled(p.workers[id], p.issued)).(issued := p.issued + 1)
    case Authenticate(id, _) => p.(minted := p.minted + {TokenFor(p, id)})
    case Heartbeat(t, busy) => Write(p, t.sub, Beats(p.workers[t.sub], busy))
  }

  function TokenFor(p: Pool, id: Id): Token
    requires id in p.workers
  {
    Token(id, p.workers[id].organizationId, p.workers[id].secretVersion)
  }

  ghost function Play(p: Pool, actions: seq<Action>): Pool
    decreases |actions|
  {
    if actions == [] then p else Play(Apply(p, actions[0]), actions[1..])
  }

  // ---------------------------------------------------------------- invariant

  ghost predicate Inv(p: Pool) {
    && (forall i, token: Secret :: Holds(p, i, token) ==> token < p.issued)
    && (forall i, j, token: Secret :: Holds(p, i, token) && Holds(p, j, token) ==> i == j)
    && (forall t :: t in p.minted ==>
          && t.sub in p.workers
          && t.sv <= p.workers[t.sub].secretVersion
          // A worker without a credential is in an epoch nothing was minted in.
          && (p.workers[t.sub].secretHash.None? ==> t.sv < p.workers[t.sub].secretVersion))
  }

  predicate IssuesTokenTo(a: Action, id: Id) {
    (a.Register? || a.Reissue?) && a.id == id
  }

  lemma ApplyKeepsInv(p: Pool, a: Action)
    requires Inv(p)
    ensures Inv(Apply(p, a))
  {
    var after := Apply(p, a);
    forall i, token: Secret | Holds(after, i, token)
      ensures Holds(p, i, token) || (token == p.issued < after.issued && IssuesTokenTo(a, i))
    {}
  }

  lemma {:induction false} PlayKeepsInv(p: Pool, actions: seq<Action>)
    requires Inv(p)
    ensures Inv(Play(p, actions))
    decreases |actions|
  {
    if actions != [] {
      ApplyKeepsInv(p, actions[0]);
      PlayKeepsInv(Apply(p, actions[0]), actions[1..]);
    }
  }

  // --------------------------------------------------- single-use enrolment

  /** Spent, or never to be issued again: nobody holds it and its turn is past. */
  ghost predicate Spent(p: Pool, token: Secret) {
    token < p.issued && forall id :: !Holds(p, id, token)
  }

  lemma {:induction false} SpentStaysSpent(p: Pool, actions: seq<Action>, token: Secret)
    requires Spent(p, token)
    ensures Spent(Play(p, actions), token)
    decreases |actions|
  {
    if actions != [] {
      var after := Apply(p, actions[0]);
      forall id | Holds(after, id, token) ensures Holds(p, id, token) {}
      SpentStaysSpent(after, actions[1..], token);
    }
  }

  /** An enrolment token is accepted at most once, whatever happens after. */
  lemma EnrolsOnce(p: Pool, token: Secret, later: seq<Action>)
    requires Inv(p) && Accepts(p, Enroll(token))
    ensures !Accepts(Play(Apply(p, Enroll(token)), later), Enroll(token))
  {
    var after := Apply(p, Enroll(token));
    forall id | Holds(after, id, token) ensures Holds(p, id, token) && id != HolderOf(p, token).value {}
    SpentStaysSpent(after, later, token);
  }

  // `enroll` takes no lock between finding the worker and writing its credential.

  /** What an enrolment writes to the worker it has found. */
  function WriteEnrolment(p: Pool, id: Id): Pool
    requires id in p.workers
  {
    Write(p, id, Enrolled(p.workers[id], p.issued)).(issued := p.issued + 1)
  }

  /** Only this worker may hold the token, now or later. */
  ghost predicate OnlyHolder(p: Pool, id: Id, token: Secret) {
    id in p.workers && token < p.issued && forall i :: Holds(p, i, token) ==> i == id
  }

  lemma {:induction false} TokensDoNotMove(p: Pool, actions: seq<Action>, id: Id, token: Secret)
    requires OnlyHolder(p, id, token)
    ensures OnlyHolder(Play(p, actions), id, token)
    decreases |actions|
  {
    if actions != [] {
      var after := Apply(p, actions[0]);
      forall i | Holds(after, i, token) ensures Holds(p, i, token) {}
      TokensDoNotMove(after, actions[1..], id, token);
    }
  }

  /** An enrolment that writes late does what a call at that moment would do exactly when
      the token would still be accepted then; otherwise a spent, replaced or expired
      token, or one of a disabled worker, has been honoured after all. */
  lemma LateEnrolmentIsACallIff(p: Pool, token: Secret, between: seq<Action>)
    requires Inv(p) && Accepts(p, Enroll(token))
    ensures var q, id := Play(p, between), HolderOf(p, token).value;
      && id in q.workers
      && (WriteEnrolment(q, id) == Apply(q, Enroll(token)) <==> Accepts(q, Enroll(token)))
  {
    var id := HolderOf(p, token).value;
    TokensDoNotMove(p, between, id, token);
    var q := Play(p, between);
    assert WriteEnrolment(q, id).issued == q.issued + 1;
  }

  /** Two enrolments that overlap both hand out a credential for one token. */
  lemma OverlappingEnrolmentsBothSucceed(p: Pool, token: Secret)
    requires Inv(p) && Accepts(p, Enroll(token))
    ensures var id, once := HolderOf(p, token).value, Apply(p, Enroll(token));
      && !Accepts(once, Enroll(token))
      && id in once.workers && once.workers[id].secretHash == Some(Digest(p.issued))
      && WriteEnrolment(once, id).workers[id].secretHash == Some(Digest(once.issued))
  {
    EnrolsOnce(p, token, []);
  }

  // -------------------------------------------------------------- epochs

  /** Rotation and re-issue end a worker's epoch. */
  predicate EndsEpoch(a: Action, id: Id) {
    (a.Rotate? || a.Reissue?) && a.id == id
  }

  ghost predicate Outdated(p: Pool, t: Token) {
    t.sub in p.workers && t.sv < p.workers[t.sub].secretVersion
  }

  lemma {:induction false} OutdatedForever(p: Pool, actions: seq<Action>, t: Token)
    requires Outdated(p, t)
    ensures Outdated(Play(p, actions), t) && !TokenResolves(Play(p, actions), t)
    decreases |actions|
  {
    if actions != [] { OutdatedForever(Apply(p, actions[0]), actions[1..], t); }
  }

  /** A token minted before a rotation or re-issue never resolves after it. */
  lemma EpochEndsItsTokens(p: Pool, t: Token, a: Action, later: seq<Action>)
    requires Inv(p) && t in p.minted && EndsEpoch(a, t.sub) && Accepts(p, a)
    ensures !TokenResolves(Play(Apply(p, a), later), t)
  {
    OutdatedForever(Apply(p, a), later, t);
  }

  lemma {:induction false} MintedStaysMinted(p: Pool, actions: seq<Action>, t: Token)
    requires t in p.minted
    ensures t in Play(p, actions).minted
    decreases |actions|
  {
    if actions != [] { MintedStaysMinted(Apply(p, actions[0]), actions[1..], t); }
  }

  /** The same over a whole history: minted at one point, epoch ended at a later
      one, never accepted again. */
  lemma RevokedForGood(start: seq<Action>, t: Token, middle: seq<Action>, a: Action, later: seq<Action>)
    requires t in Play(NO_WORKERS, start).minted
    requires var p := Play(Play(NO_WORKERS, start), middle); EndsEpoch(a, t.sub) && Accepts(p, a)
    ensures var p := Play(Play(NO_WORKERS, start), middle);
      !TokenResolves(Play(Apply(p, a), later), t)
  {
    PlayKeepsInv(NO_WORKERS, start);
    PlayKeepsInv(Play(NO_WORKERS, start), middle);
    MintedStaysMinted(Play(NO_WORKERS, start), middle, t);
    EpochEndsItsTokens(Play(Play(NO_WORKERS, start), middle), t, a, later);
  }

  /** Enrolment does not start an epoch. The tokens minted before it stop
      resolving if the worker held no credential, and exactly those of the
      current version keep resolving if it did. */
  lemma EnrolmentAndEarlierTokens(p: Pool, token: Secret, t: Token)
    requires Inv(p) && Accepts(p, Enroll(token)) && t in p.minted
    requires t.sub == HolderOf(p, token).value && t.org == p.workers[t.sub].organizationId
    ensures TokenResolves(Apply(p, Enroll(token)), t)
       <==> p.workers[t.sub].secretHash.Some? && t.sv == p.workers[t.sub].secretVersion
  {
  }

  /** A worker that was disabled before it enrolled, and rotated. */
  const ROTATED_EARLY: WorkerRow := WorkerRow(1, "host", Disabled, Some(Digest(0)), Some(60), Some(Digest(1)), 2)

  lemma RotatesBeforeEnrolling()
    ensures var p := Apply(Apply(Apply(NO_WORKERS, Register(7, 1, "host", 60)), SetEnabled(7, 1, false)), Rotate(7, 1));
      p == Pool(map[7 := ROTATED_EARLY], 2, {}, 0)
  {
    var p1 := Apply(NO_WORKERS, Register(7, 1, "host", 60));
    assert p1 == Pool(map[7 := Registered(1, "host", 0, 60)], 1, {}, 0);
    var p2 := Apply(p1, SetEnabled(7, 1, false));
    assert p2 == Pool(map[7 := Registered(1, "host", 0, 60).(status := Disabled)], 1, {}, 0);
  }

  lemma EnrolsAfterAll()
    ensures var p := Pool(map[7 := ROTATED_EARLY], 2, {}, 0);
      var end := Apply(Apply(Apply(p, SetEnabled(7, 1, true)), Authenticate(7, 1)), Enroll(0));
      && 7 in end.workers && end.workers[7].secretHash == Some(Digest(2))
      && Token(7, 1, 2) in end.minted && TokenResolves(end, Token(7, 1, 2))
  {
    var p := Pool(map[7 := ROTATED_EARLY], 2, {}, 0);
    var p1 := Apply(p, SetEnabled(7, 1, true));
    assert p1 == Pool(map[7 := ROTATED_EARLY.(status := Offline)], 2, {}, 0);
    var p2 := Apply(p1, Authenticate(7, 1));
    assert p2 == Pool(map[7 := ROTATED_EARLY.(status := Offline)], 2, {Token(7, 1, 2)}, 0);
    assert Holds(p2, 7, 0);
    assert HolderOf(p2, 0) == Some(7);
  }

  /** The case where they survive is reachable: a worker disabled before it
      enrols, rotated, enabled, and only then enrolled with its first token. */
  lemma TwoCredentialsShareAnEpoch()
    ensures var p := Play(NO_WORKERS, [Register(7, 1, "host", 60), SetEnabled(7, 1, false), Rotate(7, 1),
                                       SetEnabled(7, 1, true), Authenticate(7, 1), Enroll(0)]);
      && 7 in p.workers && p.workers[7].secretHash == Some(Digest(2))
      && Token(7, 1, 2) in p.minted && TokenResolves(p, Token(7, 1, 2))
  {
    hide *;
    RotatesBeforeEnrolling();
    EnrolsAfterAll();
    PlayUnfolds6(NO_WORKERS, Register(7, 1, "host", 60), SetEnabled(7, 1, false), Rotate(7, 1),
                 SetEnabled(7, 1, true), Authenticate(7, 1), Enroll(0));
  }

  lemma PlayUnfolds6(p: Pool, a: Action, b: Action, c: Action, d: Action, e: Action, f: Action)
    ensures Play(p, [a, b, c, d, e, f]) == Apply(Apply(Apply(Apply(Apply(Apply(p, a), b), c), d), e), f)
  {
    PlayUnfolds3(p, a, b, c, [d, e, f]);
    PlayUnfolds3(Apply(Apply(Apply(p, a), b), c), d, e, f, []);
    assert [a, b, c] + [d, e, f] == [a, b, c, d, e, f];
    assert [d, e, f] + [] == [d, e, f];
  }

  lemma PlayUnfolds3(p: Pool, a: Action, b: Action, c: Action, rest: seq<Action>)
    ensures Play(p, [a, b, c] + rest) == Play(Apply(Apply(Apply(p, a), b), c), rest)
  {
    assert ([a, b, c] + rest)[1..] == [b, c] + rest;
    assert ([b, c] + rest)[1..] == [c] + rest;
    assert ([c] + rest)[1..] == rest;
    assert Play(Apply(p, a), [b, c] + rest) == Play(Apply(Apply(p, a), b), [c] + rest);
  }

  // -------------------------------------------------------------- disabling

  predicate DisabledIn(p: Pool, id: Id) {
    id in p.workers && p.workers[id].status == Disabled
  }

  predicate Reenables(a: Action, id: Id) {
    a.SetEnabled? && a.id == id && a.enabled
  }

  /** A disabled worker stays out until it is enabled again: none of its tokens
      resolves, no credential authenticates it, and no enrolment reaches it. */
  lemma {:induction false} DisabledStaysOut(p: Pool, actions: seq<Action>, id: Id, t: Token, secret: Secret, token: Secret)
    requires Inv(p) && DisabledIn(p, id) && t.sub == id
    requires forall i :: 0 <= i < |actions| ==> !Reenables(actions[i], id)
    ensures var after := Play(p, actions);
      && DisabledIn(after, id)
      && !TokenResolves(after, t)
      && !Accepts(after, Authenticate(id, secret))
      && (Holds(after, id, token) ==> !Accepts(after, Enroll(token)))
    decreases |actions|
  {
    if actions == [] {
      if Holds(p, id, token) && HolderOf(p, token).Some? { assert HolderOf(p, token).value == id; }
    } else {
      ApplyKeepsInv(p, actions[0]);
      assert !Reenables(actions[0], id);
      DisabledStaysOut(Apply(p, actions[0]), actions[1..], id, t, secret, token);
    }
  }

  // -------------------------------------------------- the one credential that works

  /** The last secret a run of calls has handed to a worker, if it still has one: enrolment
      and rotation hand one out, re-issue takes it away. */
  ghost function Credential(p: Pool, a: Action, id: Id, held: Option<Secret>): Option<Secret> {
    if !Accepts(p, a) then held
    else if a.Rotate? && a.id == id then Some(p.issued)
    else if a.Enroll? && HolderOf(p, a.token) == Some(id) then Some(p.issued)
    else if (a.Reissue? || a.Register?) && a.id == id then None
    else held
  }

  ghost function LastCredential(p: Pool, actions: seq<Action>, id: Id, held: Option<Secret>): Option<Secret>
    decreases |actions|
  {
    if actions == [] then held
    else LastCredential(Apply(p, actions[0]), actions[1..], id, Credential(p, actions[0], id, held))
  }

  ghost predicate Keeps(p: Pool, id: Id, held: Option<Secret>) {
    if id in p.workers then
      p.workers[id].secretHash == (if held.Some? then Some(Digest(held.value)) else None)
    else held.None?
  }

  lemma CredentialIsKept(p: Pool, a: Action, id: Id, held: Option<Secret>)
    requires Keeps(p, id, held)
    ensures Keeps(Apply(p, a), id, Credential(p, a, id, held))
  {
    hide NameTaken;
  }

  lemma {:induction false} LastCredentialIsKept(p: Pool, actions: seq<Action>, id: Id, held: Option<Secret>)
    requires Keeps(p, id, held)
    ensures Keeps(Play(p, actions), id, LastCredential(p, actions, id, held))
    decreases |actions|
  {
    if actions != [] {
      CredentialIsKept(p, actions[0], id, held);
      LastCredentialIsKept(Apply(p, actions[0]), actions[1..], id, Credential(p, actions[0], id, held));
    }
  }

  /** After any calls a secret authenticates a worker exactly if it is the last one handed
      to it, not taken away since, and the worker is not disabled. */
  lemma OnlyTheLastSecretAuthenticates(actions: seq<Action>, id: Id, secret: Secret)
    ensures var p := Play(NO_WORKERS, actions);
      Accepts(p, Authenticate(id, secret)) <==>
      (id in p.workers && p.workers[id].status != Disabled && LastCredential(NO_WORKERS, actions, id, None) == Some(secret))
  {
    LastCredentialIsKept(NO_WORKERS, actions, id, None);
  }

  /** The access token an authentication mints resolves: it names the worker, its
      organization and its present version. */
  lemma FreshTokenResolves(p: Pool, id: Id, secret: Secret)
    requires Accepts(p, Authenticate(id, secret))
    ensures var after := Apply(p, Authenticate(id, secret));
      var t := Token(id, p.workers[id].organizationId, p.workers[id].secretVersion);
      t in after.minted && TokenResolves(after, t)
  {
  }

  // ------------------------------------------------------------ enrolment expires

  /** Whoever holds this token holds it until that moment and no longer. */
  ghost predicate ExpiresAt(p: Pool, token: Secret, expires: int) {
    token < p.issued && forall id :: Holds(p, id, token) ==> p.workers[id].enrollmentExpires == Some(expires)
  }

  lemma {:induction false} ExpiryStays(p: Pool, actions: seq<Action>, token: Secret, expires: int)
    requires ExpiresAt(p, token, expires)
    ensures ExpiresAt(Play(p, actions), token, expires)
    decreases |actions|
  {
    if actions != [] {
      var after := Apply(p, actions[0]);
      forall id | Holds(after, id, token) ensures Holds(p, id, token) && after.workers[id].enrollmentExpires == Some(expires) {}
      ExpiryStays(after, actions[1..], token, expires);
    }
  }

  /** An enrolment token is issued with a last moment, and is not accepted after it,
      whatever calls come in between. */
  lemma TokensExpire(p: Pool, a: Action, later: seq<Action>, token: Secret)
    requires Inv(p) && (a.Register? || a.Reissue?) && Accepts(p, a) && token == p.issued
    requires Play(Apply(p, a), later).now > a.expires
    ensures Holds(Apply(p, a), a.id, token)
    ensures !Accepts(Play(Apply(p, a), later), Enroll(token))
  {
    var after := Apply(p, a);
    forall id | Holds(after, id, token) ensures after.workers[id].enrollmentExpires == Some(a.expires) {
      if id != a.id { assert Holds(p, id, token); }
    }
    ExpiryStays(after, later, token, a.expires);
  }

  /** At any moment: some worker that is not disabled holds it, and its last moment has
      not passed. */
  lemma EnrolmentAcceptedIff(p: Pool, token: Secret)
    requires Inv(p)
    ensures Accepts(p, Enroll(token)) <==> exists id ::
      && Holds(p, id, token) && p.workers[id].status != Disabled
      && p.workers[id].enrollmentExpires.Some? && p.now <= p.workers[id].enrollmentExpires.value
  {
  }

  // ------------------------------------------------------------------- switched off

  /** What a run of calls says of a worker: was it last switched off? */
  ghost function SwitchedOff(p: Pool, actions: seq<Action>, id: Id, off: bool): bool
    decreases |actions|
  {
    if actions == [] then off
    else
      var a := actions[0];
      var now := if a.SetEnabled? && a.id == id && Visible(p, id, a.org) then !a.enabled else off;
      SwitchedOff(Apply(p, a), actions[1..], id, now)
  }

  ghost predicate OffIs(p: Pool, id: Id, off: bool) {
    if id in p.workers then off == (p.workers[id].status == Disabled) else !off
  }

  lemma {:induction false} OffIsKept(p: Pool, actions: seq<Action>, id: Id, off: bool)
    requires OffIs(p, id, off)
    ensures OffIs(Play(p, actions), id, SwitchedOff(p, actions, id, off))
    decreases |actions|
  {
    if actions != [] {
      var a := actions[0];
      OffStep(p, a, id, off);
      OffIsKept(Apply(p, a), actions[1..], id, if a.SetEnabled? && a.id == id && Visible(p, id, a.org) then !a.enabled else off);
    }
  }

  lemma OffStep(p: Pool, a: Action, id: Id, off: bool)
    requires OffIs(p, id, off)
    ensures OffIs(Apply(p, a), id, if a.SetEnabled? && a.id == id && Visible(p, id, a.org) then !a.enabled else off)
  {
    hide NameTaken;
  }

  /** A worker is disabled exactly while the last switch of its organization was off. */
  lemma DisabledIffSwitchedOff(actions: seq<Action>, id: Id)
    ensures var p := Play(NO_WORKERS, actions);
      id in p.workers ==> (p.workers[id].status == Disabled <==> SwitchedOff(NO_WORKERS, actions, id, false))
  {
    OffIsKept(NO_WORKERS, actions, id, false);
  }
}
