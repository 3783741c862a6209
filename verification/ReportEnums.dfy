/** backend/src/reports/enums.py: the states of a report execution and the
    constant tables that route it. */
module ReportEnums {

  datatype ExecutionStatus =
    | Queued | Assigned | Running
    | Succeeded | Failed | TimedOut | Cancelled | Retrying

  /** Statuses in which a worker holds a lease. */
  const LEASED_STATUSES: set<ExecutionStatus> := {Assigned, Running}

  datatype RetryClass = Retryable | NonRetryable | RequiresHuman

  datatype TriggerType = Manual | Scheduled | Retry

  datatype OutputFormat = Xlsx | Pdf | Csv

  datatype WorkerCapability = Excel | PafeAutomation | XlsxExport | PdfExport | CsvExport

  const FORMAT_CAPABILITY: map<OutputFormat, WorkerCapability> :=
    map[Xlsx := XlsxExport, Pdf := PdfExport, Csv := CsvExport]
}
