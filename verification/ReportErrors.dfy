/** backend/src/reports/errors.py: the retry decision is a property of the
    error code alone. */
module ReportErrors {
  import opened ReportEnums

  datatype ErrorCode =
    | WorkerOffline | WorkerUnauthorized | WorkerCapabilityMissing | DuplicateJob
    | ExecutionTimeout | WorkerLeaseExpired | CancelledByUser
    | WorkbookMissing | WorkbookChecksumMismatch | WorkbookInvalid | WorkbookTooLarge
    | ExcelLaunchFailed | ExcelCrashed | PafeNotInstalled | PafeApiUnavailable
    | PafeVersionIncompatible | WorkbookOpenFailed
    | Tm1AuthFailed | Tm1ConnectionFailed
    | RefreshFailed | ExportFailed | ExportFormatUnsupported | ArtifactUploadFailed
    | EmailFailed | InvalidRecipient
    | InternalError

  const RETRY_CLASSES: map<ErrorCode, RetryClass> := map[
    WorkerOffline := Retryable,
    WorkerLeaseExpired := Retryable,
    ExecutionTimeout := Retryable,
    ExcelLaunchFailed := Retryable,
    ExcelCrashed := Retryable,
    Tm1ConnectionFailed := Retryable,
    ArtifactUploadFailed := Retryable,
    EmailFailed := Retryable,
    RefreshFailed := Retryable,
    InternalError := Retryable,
    WorkbookMissing := NonRetryable,
    WorkbookChecksumMismatch := NonRetryable,
    WorkbookInvalid := NonRetryable,
    WorkbookTooLarge := NonRetryable,
    WorkbookOpenFailed := NonRetryable,
    ExportFormatUnsupported := NonRetryable,
    ExportFailed := NonRetryable,
    DuplicateJob := NonRetryable,
    CancelledByUser := NonRetryable,
    Tm1AuthFailed := RequiresHuman,
    InvalidRecipient := RequiresHuman,
    PafeNotInstalled := RequiresHuman,
    PafeApiUnavailable := RequiresHuman,
    PafeVersionIncompatible := RequiresHuman,
    WorkerUnauthorized := RequiresHuman,
    WorkerCapabilityMissing := RequiresHuman
  ]

  function RetryClassFor(code: ErrorCode): RetryClass {
    if code in RETRY_CLASSES then RETRY_CLASSES[code] else NonRetryable
  }
}
