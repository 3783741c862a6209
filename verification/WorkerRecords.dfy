/** One row of `report_workers` and the calls of
    backend/src/reports/worker_service.py that rewrite it. Secrets and tokens are
    fresh ids; hashing is an injective constructor. */
module WorkerRecords {
  import opened Prelude

  type Id = nat
  type Secret = nat

  datatype Digest = Digest(of: Secret)

  datatype WorkerStatus = PendingEnrollment | Online | Offline | Busy | Disabled | Error

  datatype WorkerRow = WorkerRow(
    organizationId: Id, name: string, status: WorkerStatus,
    enrollmentHash: Option<Digest>, enrollmentExpires: Option<int>,
    secretHash: Option<Digest>, secretVersion: nat)

  /** The claims of a worker access token. */
  datatype Token = Token(sub: Id, org: Id, sv: nat)

  function Registered(org: Id, name: string, token: Secret, expires: int): WorkerRow {
    WorkerRow(org, name, PendingEnrollment, Some(Digest(token)), Some(expires), None, 1)
  }

  function Rotated(w: WorkerRow, secret: Secret): Reply<WorkerRow> {
    if w.status == PendingEnrollment then Conflict
    else Ok(w.(secretHash := Some(Digest(secret)), secretVersion := w.secretVersion + 1))
  }

  function Reissued(w: WorkerRow, token: Secret, expires: int): Reply<WorkerRow> {
    if w.status == Disabled then Conflict
    else Ok(w.(enrollmentHash := Some(Digest(token)), enrollmentExpires := Some(expires),
               secretHash := None, secretVersion := w.secretVersion + 1, status := PendingEnrollment))
  }

  function Enabled(w: WorkerRow, enabled: bool): WorkerRow {
    if !enabled then w.(status := Disabled)
    else if w.status != Disabled then w
    else w.(status := if w.secretHash.Some? then Offline else PendingEnrollment)
  }

  /** The checks `enroll` makes once the token has found its worker. */
  predicate MayEnroll(w: WorkerRow, now: int) {
    w.status != Disabled && w.enrollmentExpires.Some? && now <= w.enrollmentExpires.value
  }

  function Enrolled(w: WorkerRow, secret: Secret): WorkerRow {
    w.(secretHash := Some(Digest(secret)), enrollmentHash := None, enrollmentExpires := None, status := Online)
  }

  predicate Authenticates(w: WorkerRow, secret: Secret) {
    w.secretHash == Some(Digest(secret)) && w.status != Disabled
  }

  predicate Resolves(w: WorkerRow, t: Token) {
    t.sv == w.secretVersion && t.org == w.organizationId && w.status != Disabled && w.secretHash.Some?
  }

  function Beats(w: WorkerRow, busy: bool): WorkerRow {
    w.(status := if busy then Busy else Online)
  }

  class ReportWorker {
    const organizationId: Id
    const name: string
    var status: WorkerStatus
    var enrollmentHash: Option<Digest>
    var enrollmentExpires: Option<int>
    var secretHash: Option<Digest>
    var secretVersion: nat

    function Row(): WorkerRow
      reads this
    {
      WorkerRow(organizationId, name, status, enrollmentHash, enrollmentExpires, secretHash, secretVersion)
    }

    constructor Register(org: Id, name: string, token: Secret, expires: int)
      ensures Row() == Registered(org, name, token, expires)
    {
      organizationId, this.name, status := org, name, PendingEnrollment;
      enrollmentHash, enrollmentExpires := Some(Digest(token)), Some(expires);
      secretHash, secretVersion := None, 1;
    }

    method RotateCredential(secret: Secret) returns (ok: bool)
      modifies this
      ensures ok <==> old(status) != PendingEnrollment
      ensures ok == Rotated(old(Row()), secret).Ok?
      ensures Row() == if ok then Rotated(old(Row()), secret).value else old(Row())
    {
      if status == PendingEnrollment { return false; }
      secretHash := Some(Digest(secret));
      secretVersion := secretVersion + 1;
      ok := true;
    }

    method ReissueEnrollment(token: Secret, expires: int) returns (ok: bool)
      modifies this
      ensures ok <==> old(status) != Disabled
      ensures ok == Reissued(old(Row()), token, expires).Ok?
      ensures Row() == if ok then Reissued(old(Row()), token, expires).value else old(Row())
    {
      if status == Disabled { return false; }
      enrollmentHash := Some(Digest(token));
      enrollmentExpires := Some(expires);
      secretHash := None;
      secretVersion := secretVersion + 1;
      status := PendingEnrollment;
      ok := true;
    }

    method SetEnabled(enabled: bool)
      modifies this
      ensures Row() == Enabled(old(Row()), enabled)
    {
      if enabled {
        if status != Disabled { return; }
        status := if secretHash.Some? then Offline else PendingEnrollment;
      } else {
        status := Disabled;
      }
    }

    method Enroll(secret: Secret, now: int) returns (ok: bool)
      modifies this
      ensures ok <==> old(status) != Disabled && old(enrollmentExpires).Some? && now <= old(enrollmentExpires).value
      ensures ok == MayEnroll(old(Row()), now)
      ensures Row() == if ok then Enrolled(old(Row()), secret) else old(Row())
    {
      if status == Disabled { return false; }
      if enrollmentExpires.None? { return false; }
      if enrollmentExpires.value < now { return false; }
      secretHash := Some(Digest(secret));
      enrollmentHash := None;
      enrollmentExpires := None;
      status := Online;
      ok := true;
    }

    method Heartbeat(busy: bool)
      modifies this
      ensures Row() == Beats(old(Row()), busy)
      ensures Row() == old(Row()).(status := if busy then Busy else Online)
    {
      status := if busy then Busy else Online;
    }
  }
}
