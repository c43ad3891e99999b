/** The values the application layers exchange: `application/models.py`. */
module Models {
  import opened Bytes

  datatype Privacy = SHAREABLE | LOCAL_SENSITIVE | PRIVATE_DIAGNOSTIC

  datatype ErrorCode =
    | INVALID_INPUT | CONFIG_ERROR | READ_ONLY | SAFETY_REFUSAL | BUSY | BACKEND_FAILURE
    | UNKNOWN_PREPARATION | CONSUMED_PREPARATION | STALE_PREPARATION | CANCELLED

  datatype Kind = ApplyConfig | RestoreBackup | RestoreBaseline

  datatype Phase =
    | PREPARING | PREPARED | REVIEWING | CONFIRMING | REVALIDATING | ARMED
    | WRITING | RECONCILING | POST_VALIDATING | SUCCEEDED | FAILED

  /** `PreparedOperation`; `review` stands for the reviewed content and its preconditions. */
  datatype Prepared = Prepared(id: string, kind: Kind, phrase: string, review: string, privacy: Privacy)

  datatype Error = Error(code: ErrorCode, message: string, privacy: Privacy, detail: Option<string>)

  /** `PersistentPhaseSnapshot`. */
  datatype Snapshot = Snapshot(phase: Phase, kind: Kind, cancellationAllowed: bool)

  datatype Status = CancelledBeforeWrite | RevalidationRefused | FailedAfterWrite | Completed

  /** `PersistentExecutionResult`. */
  datatype ExecutionResult = ExecutionResult(
    kind: Kind,
    terminal: Phase,
    success: bool,
    status: Status,
    writingStarted: bool,
    reconciled: bool,
    postValidated: bool,
    code: Option<ErrorCode>,
    message: string,
    trace: seq<Phase>,
    privacy: Privacy)

  /** The phases the real backend announces, in order. */
  const FULL_TRACE: seq<Phase> := [ARMED, WRITING, RECONCILING, POST_VALIDATING]
}
