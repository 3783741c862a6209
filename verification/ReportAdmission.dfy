/** What `enqueue` asks of a report and of the organization's workers before it queues
    anything (backend/src/reports/execution_service.py:148-165 and :205-297). */
module ReportAdmission {
  import opened Prelude
  import opened ReportEnums
  import opened Executions
  import opened ReportProtocol
  import WorkerRecords

  datatype ReportStatus = Draft | Active | Paused | Archived

  datatype Definition = Definition(
    status: ReportStatus, id: Id, workbookId: Option<Id>, requestedTimeout: Option<int>, report: Report)

  /** A stored worker: who it is and whether it may be given work. */
  datatype Host = Host(worker: Worker, status: WorkerRecords.WorkerStatus, hasSecret: bool)

  /** Workers by id. */
  type Hosts = map<Id, Host>

  predicate HostsOk(hosts: Hosts) {
    forall id :: id in hosts ==> hosts[id].worker.id == id
  }

  /** is_schedulable. */
  predicate Schedulable(host: Host) {
    host.hasSecret && (host.status.Online? || host.status.Busy? || host.status.Offline?)
  }

  function RequiredCapabilities(formats: set<OutputFormat>): set<WorkerCapability> {
    {Excel, PafeAutomation} + set f | f in formats && f in FORMAT_CAPABILITY :: FORMAT_CAPABILITY[f]
  }

  /** required_capabilities asks of a worker exactly what a claim asks of it. */
  lemma RequiredForAClaim(formats: set<OutputFormat>, worker: Worker)
    ensures RequiredCapabilities(formats) <= worker.capabilities
      <==> (CanRunReports(worker) && formats <= SupportedFormats(worker))
  {
    forall f: OutputFormat ensures f in FORMAT_CAPABILITY {
      match f
      case Xlsx =>
      case Pdf =>
      case Csv =>
    }
    var required := RequiredCapabilities(formats);
    assert forall f :: f in formats ==> FORMAT_CAPABILITY[f] in required;
  }

  datatype Refusal = ReportNotActive | NoWorkbook | NoWorkerOnline | NoWorkerCapable

  /** The checks on the report, before the key is looked up. */
  function WhyNotRunnable(definition: Definition): (why: Option<Refusal>)
    ensures why.None? <==> definition.status == Active && definition.workbookId.Some?
    ensures why == Some(ReportNotActive) <==> definition.status != Active
  {
    if definition.status != Active then Some(ReportNotActive)
    else if definition.workbookId.None? then Some(NoWorkbook)
    else None
  }

  predicate Capable(definition: Definition, host: Host) {
    RequiredCapabilities(definition.report.outputFormats) <= host.worker.capabilities
  }

  predicate SchedulableIn(hosts: Hosts, org: Id, id: Id) {
    id in hosts && hosts[id].worker.organizationId == org && Schedulable(hosts[id])
  }

  /** _assert_a_worker_could_run_this. */
  method AssertAWorkerCouldRun(definition: Definition, org: Id, hosts: Hosts) returns (refusal: Option<Refusal>)
    requires HostsOk(hosts)
    ensures refusal.None? <==> exists id :: MayRun(definition, org, hosts, id)
    ensures refusal == Some(NoWorkerCapable) ==> exists id :: Considered(definition, org, hosts, id)
    ensures refusal == Some(NoWorkerOnline) ==> forall id :: !Considered(definition, org, hosts, id)
    ensures refusal in {None, Some(NoWorkerCapable), Some(NoWorkerOnline)}
  {
    if definition.report.pin.Some? {
      var pinned := definition.report.pin.value;
      if !SchedulableIn(hosts, org, pinned) { return Some(NoWorkerOnline); }
      assert Considered(definition, org, hosts, pinned);
      if !Capable(definition, hosts[pinned]) { return Some(NoWorkerCapable); }
      assert MayRun(definition, org, hosts, pinned);
      return None;
    }
    var schedulable := set id | id in hosts && SchedulableIn(hosts, org, id);
    var eligible := set id | id in schedulable && Capable(definition, hosts[id]);
    if eligible != {} {
      var id :| id in eligible;
      assert MayRun(definition, org, hosts, id);
      return None;
    }
    assert forall id :: MayRun(definition, org, hosts, id) ==> id in eligible;
    assert forall id :: Considered(definition, org, hosts, id) <==> id in schedulable;
    if schedulable != {} {
      var id :| id in schedulable;
      return Some(NoWorkerCapable);
    }
    refusal := Some(NoWorkerOnline);
  }

  /** A worker that is looked at: the pinned one, or any of the organization. */
  predicate Considered(definition: Definition, org: Id, hosts: Hosts, id: Id) {
    SchedulableIn(hosts, org, id) && (definition.report.pin.None? || definition.report.pin == Some(id))
  }

  predicate MayRun(definition: Definition, org: Id, hosts: Hosts, id: Id) {
    Considered(definition, org, hosts, id) && Capable(definition, hosts[id])
  }

  /** Admission asks for exactly what the claim will: the workers a report is admitted
      for are those that may claim any of its executions, first attempt or retry, that is
      queued and due. */
  lemma AdmittedForThoseWhoMayClaim(definition: Definition, org: Id, hosts: Hosts, id: Id,
                                    rows: Rows, reports: map<Id, Report>, row: Id, now: int)
    requires HostsOk(hosts) && id in hosts
    requires row in rows && rows[row].run.organizationId == org && rows[row].run.reportId == definition.id
    requires rows[row].status == Queued && rows[row].availableAt <= now
    requires definition.id in reports && reports[definition.id] == definition.report
    ensures MayRun(definition, org, hosts, id) <==>
      && Schedulable(hosts[id]) && CanRunReports(hosts[id].worker)
      && Eligible(rows, reports, hosts[id].worker, row, now)
  {
    hide RequiredCapabilities, SupportedFormats, CanRunReports;
    RequiredForAClaim(definition.report.outputFormats, hosts[id].worker);
  }

  function RunOf(cfg: Settings, definition: Definition, org: Id, triggeredBy: Option<Id>, correlationId: Id,
                 scheduledFor: Option<int>): Run
    requires definition.workbookId.Some?
  {
    Run(org, definition.id, definition.workbookId.value, triggeredBy, correlationId, scheduledFor,
        cfg.maxAttempts, TimeoutFor(cfg, definition.requestedTimeout))
  }

  /** What a queued run carries: the report and its workbook, who and when, the attempts
      allowed now, and the report's own timeout, clamped. */
  lemma RunIsOf(cfg: Settings, definition: Definition, org: Id, triggeredBy: Option<Id>, correlationId: Id,
                scheduledFor: Option<int>)
    requires definition.workbookId.Some?
    ensures var run := RunOf(cfg, definition, org, triggeredBy, correlationId, scheduledFor);
      && run.organizationId == org && run.correlationId == correlationId && run.maxAttempts == cfg.maxAttempts
      && run.reportId == definition.id && Some(run.workbookId) == definition.workbookId
      && run.triggeredBy == triggeredBy && run.scheduledFor == scheduledFor
      && run.timeoutSeconds == TimeoutFor(cfg, definition.requestedTimeout)
  {
  }

  lemma RunnableMeans(definition: Definition)
    ensures WhyNotRunnable(definition).None? ==> definition.workbookId.Some?
    ensures WhyNotRunnable(definition).Some? ==> WhyNotRunnable(definition).value in {ReportNotActive, NoWorkbook}
  {
  }
}
