/** The terminal interface as a pure state engine: `tui/model.py` and `tui/update.py`. */
module Tui {
  import opened Bytes
  import opened Models
  import opened Text

  // ---------------------------------------------------------------- the model

  datatype Route = HOME | OPERATION | REVIEW | CONFIRMATION | RESULT

  datatype Focus = PRIMARY | ON_REVIEW | ON_CONFIRMATION | ON_HELP

  datatype Action = PROBE | STATUS | VALIDATE | PLAN | PROFILE_SWITCH | REPORT | PREPARE_PERSISTENT | REFRESH

  /** The issuance number is what makes one use of a token different from another. */
  datatype OperationId = OperationId(value: string, issuance: nat)

  datatype Payload = Payload(message: string, privacy: Privacy)

  datatype Foreground = Foreground(
    id: OperationId,
    action: Action,
    hardware: bool,
    kind: Option<Kind>,
    phase: Option<Phase>,
    started: bool,
    cancelRequested: bool,
    cancelAcknowledged: bool,
    cancelDeferred: bool,
    cancelAllowed: Option<bool>,
    executing: bool,
    unresolved: bool)

  predicate NonCancellable(f: Foreground) {
    f.phase == Some(WRITING) || f.phase == Some(RECONCILING) || f.phase == Some(POST_VALIDATING)
  }

  predicate CancellationAvailable(f: Foreground) {
    !NonCancellable(f) && f.phase != Some(SUCCEEDED) && f.phase != Some(FAILED) &&
    (f.cancelAllowed.Some? ==> f.cancelAllowed.value)
  }

  datatype TerminalState = TerminalState(
    success: bool,
    phase: Option<Phase>,
    code: Option<ErrorCode>,
    writingStarted: bool,
    reconciled: bool,
    postValidated: bool)

  datatype Model = Model(
    route: Route,
    focus: Focus,
    surface: Privacy,
    readOnly: bool,
    reason: Option<Error>,
    active: Option<Foreground>,
    prepared: Option<Prepared>,
    acknowledged: bool,
    confirmation: string,
    configPath: string,
    backupPath: string,
    profileTarget: string,
    profileConfirmation: string,
    lastResult: Option<Payload>,
    lastError: Option<Error>,
    terminal: Option<TerminalState>,
    helpOpen: bool,
    disclosure: Option<Payload>,
    notice: Option<Payload>)

  const INITIAL := Model(HOME, PRIMARY, SHAREABLE, false, None, None, None, false, "", "", "", "1", "", None, None,
                         None, false, None, None)

  /** `privacy_allows`. */
  predicate Allows(surface: Privacy, payload: Privacy) {
    match surface
    case PRIVATE_DIAGNOSTIC => true
    case LOCAL_SENSITIVE => payload != PRIVATE_DIAGNOSTIC
    case SHAREABLE => payload == SHAREABLE
  }

  // ---------------------------------------------------------------- events and effects

  datatype Event =
    | Navigate(route: Route, focus: Focus)
    | SetHelp(open: bool)
    | SetDisclosure(payload: Option<Payload>)
    | ChangePrivacySurface(privacy: Privacy)
    | ConfigPathChanged(value: string)
    | BackupPathChanged(value: string)
    | ProfileTargetChanged(value: string)
    | ProfileConfirmationChanged(value: string)
    | CompatibilityChanged(readOnly: bool, reason: Option<Error>)
    | OperationRequested(id: OperationId, action: Action, hardware: bool, kind: Option<Kind>)
    | OperationStarted(id: OperationId)
    | PreparedReceived(id: OperationId, prepared: Prepared)
    | EnterReview(id: OperationId)
    | ReviewAcknowledged(id: OperationId, acknowledged: bool)
    | ConfirmationChanged(id: OperationId, value: string)
    | ConfirmationSubmitted(id: OperationId)
    | PersistentProgress(id: OperationId, snapshot: Snapshot)
    | CancellationRequested(id: OperationId)
    | CancellationAcknowledged(id: OperationId)
    | RefreshRequested(id: OperationId)
    | ApplicationCompleted(id: OperationId, message: string, privacy: Privacy)
    | WorkerTransportFault(id: OperationId, error: Error)
    | ApplicationFailed(id: OperationId, error: Error)
    | PreparationInvalidated(id: OperationId, error: Error)
    | PersistentCompleted(id: OperationId, result: ExecutionResult)

  datatype Effect =
    | StartForeground(id: OperationId, action: Action, configPath: Option<string>, profileTarget: Option<string>,
                      phrase: Option<string>)
    | PreparePersistent(id: OperationId, kind: Kind, configPath: Option<string>, backupPath: Option<string>)
    | ExecutePrepared(id: OperationId, prepared: Prepared, confirmation: string)
    | RequestCancellation(id: OperationId)
    | RequestRefresh(id: OperationId)

  type Step = (Model, seq<Effect>)

  predicate IsCurrent(m: Model, id: OperationId) {
    m.active.Some? && m.active.value.id == id
  }

  predicate PreExecution(phase: Option<Phase>) {
    phase.Some? && (phase.value.PREPARING? || phase.value.PREPARED? || phase.value.REVIEWING? ||
                    phase.value.CONFIRMING?)
  }

  /** `_payload_for_surface`, for payloads and for errors. */
  function ForSurface(p: Option<Payload>, surface: Privacy): Option<Payload> {
    if p.Some? && Allows(surface, p.value.privacy) then p else None
  }

  function ErrorForSurface(e: Option<Error>, surface: Privacy): Option<Error> {
    if e.Some? && Allows(surface, e.value.privacy) then e else None
  }

  function NonEmpty(s: string): Option<string> {
    if s != "" then Some(s) else None
  }

  /** The fixed texts the interface itself produces. */
  datatype Fixed =
    | BusyNotice | DeferredNotice | UnavailableNotice | RefreshNotice | UnresolvedNotice
    | MissingKind | UnresolvedFault | Inconsistent | Unexplained

  function TextOf(f: Fixed): string {
    match f
    case BusyNotice => "another foreground hardware operation is already active"
    case DeferredNotice => "transaction is in a non-cancellable safety phase"
    case UnavailableNotice => "cooperative cancellation is unavailable for the current phase"
    case RefreshNotice => "refresh unavailable while a foreground hardware operation is active"
    case UnresolvedNotice =>
      "UNRESOLVED ADAPTER FAULT: keep this process open; do not retry while hardware outcome is unknown"
    case MissingKind => "persistent preparation requires an operation kind"
    case UnresolvedFault =>
      "adapter transport fault during a non-cancellable transaction; hardware outcome is unresolved"
    case Inconsistent => "inconsistent terminal success evidence"
    case Unexplained => "persistent operation failed"
  }

  function Notice(f: Fixed): (p: Option<Payload>)
    ensures p.Some? && p.value.privacy == SHAREABLE
  {
    Some(Payload(TextOf(f), SHAREABLE))
  }

  // ---------------------------------------------------------------- update

  function SetActive(m: Model, active: Option<Foreground>): Model {
    m.(active := active)
  }

  function SetNotice(m: Model, f: Fixed): Model {
    m.(notice := Notice(f))
  }

  /** `_clear_disallowed`. */
  function ClearDisallowed(m: Model, surface: Privacy): Model {
    var dropped := m.prepared.Some? && !Allows(surface, m.prepared.value.privacy);
    var prepared := if dropped then None else m.prepared;
    var abandons := dropped && m.active.Some? && !m.active.value.executing &&
                    PreExecution(m.active.value.phase) && m.active.value.phase != Some(PREPARING);
    m.(active := if abandons then None else m.active,
       surface := surface,
       prepared := prepared,
       acknowledged := prepared.Some? && m.acknowledged,
       confirmation := if prepared.Some? then m.confirmation else "",
       configPath := if surface == SHAREABLE then "" else m.configPath,
       backupPath := if surface == SHAREABLE then "" else m.backupPath,
       profileConfirmation := if surface == SHAREABLE then "" else m.profileConfirmation,
       lastResult := ForSurface(m.lastResult, surface),
       lastError := ErrorForSurface(m.lastError, surface),
       reason := ErrorForSurface(m.reason, surface),
       disclosure := ForSurface(m.disclosure, surface),
       notice := ForSurface(m.notice, surface))
  }

  /** `_local_surface_for_input`. */
  function SurfaceForInput(m: Model, value: string): Privacy {
    if value != "" && m.surface == SHAREABLE then LOCAL_SENSITIVE else m.surface
  }

  /** A new foreground operation. */
  function Begun(id: OperationId, action: Action, hardware: bool, kind: Option<Kind>): Foreground {
    Foreground(id, action, hardware, kind, if action == PREPARE_PERSISTENT then Some(PREPARING) else None, false, false,
               false, false, None, false, false)
  }

  /** The request's model, before its effect is chosen. */
  function Requested(m: Model, active: Option<Foreground>, error: Option<Error>): Model {
    m.(active := active, route := OPERATION, terminal := None, lastResult := None, lastError := error, notice := None)
  }

  /** The effect that starts an ordinary operation. */
  function StartEffect(m: Model, id: OperationId, action: Action): Effect {
    match action
    case REFRESH => RequestRefresh(id)
    case PROFILE_SWITCH => StartForeground(id, action, None, Some(m.profileTarget), Some(m.profileConfirmation))
    case PLAN => StartForeground(id, action, NonEmpty(m.configPath), None, None)
    case _ => StartForeground(id, action, None, None, None)
  }

  function OnOperationRequested(m: Model, id: OperationId, action: Action, hardware: bool, kind: Option<Kind>): Step {
    if m.active.Some? then (SetNotice(m, BusyNotice), [])
    else if action != PREPARE_PERSISTENT then
      (Requested(m, Some(Begun(id, action, hardware, kind)), None), [StartEffect(m, id, action)])
    else if kind.None? then
      (Requested(m, None, Some(Error(INVALID_INPUT, TextOf(MissingKind), SHAREABLE, None))), [])
    else
      (Requested(m, Some(Begun(id, action, hardware, kind)), None),
       [PreparePersistent(id, kind.value,
                          if kind == Some(ApplyConfig) then NonEmpty(m.configPath) else None,
                          if kind == Some(RestoreBackup) then NonEmpty(m.backupPath) else None)])
  }

  /** The conditions under which a received preparation is taken. */
  predicate TakesPrepared(m: Model, id: OperationId, p: Prepared) {
    && IsCurrent(m, id) && !m.active.value.executing && PreExecution(m.active.value.phase)
    && (m.active.value.kind.Some? ==> p.kind == m.active.value.kind.value)
    && (!Allows(m.surface, p.privacy) ==> p.privacy != PRIVATE_DIAGNOSTIC)
  }

  function OnPreparedReceived(m: Model, id: OperationId, p: Prepared): Step {
    if !TakesPrepared(m, id, p) then (m, [])
    else
      (m.(active := Some(m.active.value.(phase := Some(PREPARED), kind := Some(p.kind))),
          surface := if Allows(m.surface, p.privacy) then m.surface else p.privacy,
          prepared := Some(p),
          acknowledged := false,
          confirmation := "",
          route := REVIEW), [])
  }

  /** A prepared operation that may still be reviewed and confirmed. */
  predicate Reviewable(m: Model, id: OperationId) {
    IsCurrent(m, id) && m.prepared.Some? && !m.active.value.executing && PreExecution(m.active.value.phase)
  }

  function OnEnterReview(m: Model, id: OperationId): Step {
    if !Reviewable(m, id) then (m, [])
    else (m.(active := Some(m.active.value.(phase := Some(REVIEWING))), route := REVIEW, focus := ON_REVIEW), [])
  }

  function OnReviewAcknowledged(m: Model, id: OperationId, acknowledged: bool): Step {
    if !Reviewable(m, id) then (m, []) else (m.(acknowledged := acknowledged), [])
  }

  function OnConfirmationChanged(m: Model, id: OperationId, value: string): Step {
    if !Reviewable(m, id) then (m, [])
    else
      (m.(active := Some(m.active.value.(phase := Some(CONFIRMING))), confirmation := value, route := CONFIRMATION,
          focus := ON_CONFIRMATION), [])
  }

  function OnConfirmationSubmitted(m: Model, id: OperationId): Step {
    if !IsCurrent(m, id) || m.prepared.None? || !m.acknowledged || m.active.value.executing ||
       m.active.value.cancelRequested || m.active.value.phase != Some(CONFIRMING) ||
       Strip(m.confirmation) != m.prepared.value.phrase
    then (m, [])
    else
      (m.(active := Some(m.active.value.(executing := true))), [ExecutePrepared(id, m.prepared.value, m.confirmation)])
  }

  /** `_PROGRESS_NEXT`. */
  function NextPhase(phase: Phase): Option<Phase> {
    match phase
    case CONFIRMING => Some(REVALIDATING)
    case REVALIDATING => Some(ARMED)
    case ARMED => Some(WRITING)
    case WRITING => Some(RECONCILING)
    case RECONCILING => Some(POST_VALIDATING)
    case _ => None
  }

  /** `_accept_progress`. */
  predicate AcceptProgress(current: Option<Phase>, next: Phase) {
    next != SUCCEEDED && next != FAILED && current.Some? && current.value != SUCCEEDED && current.value != FAILED &&
    (next == current.value || NextPhase(current.value) == Some(next))
  }

  function OnPersistentProgress(m: Model, id: OperationId, s: Snapshot): Step {
    if !IsCurrent(m, id) || !m.active.value.executing ||
       (m.active.value.kind.Some? && s.kind != m.active.value.kind.value) ||
       !AcceptProgress(m.active.value.phase, s.phase)
    then (m, [])
    else (m.(active := Some(m.active.value.(phase := Some(s.phase), cancelAllowed := Some(s.cancellationAllowed)))), [])
  }

  function OnCancellationRequested(m: Model, id: OperationId): Step {
    if !IsCurrent(m, id) then (m, [])
    else
      var active := m.active.value;
      if NonCancellable(active) then
        (SetNotice(SetActive(m, Some(active.(cancelDeferred := true))), DeferredNotice), [])
      else if !CancellationAvailable(active) then (SetNotice(m, UnavailableNotice), [])
      else (SetActive(m, Some(active.(cancelRequested := true))), [RequestCancellation(id)])
  }

  function OnCancellationAcknowledged(m: Model, id: OperationId): Step {
    if !IsCurrent(m, id) then (m, [])
    else
      var active := m.active.value;
      if !active.cancelRequested || NonCancellable(active) || active.cancelDeferred then (m, [])
      else (SetActive(m, Some(active.(cancelAcknowledged := true))), [])
  }

  function OnRefreshRequested(m: Model, id: OperationId): Step {
    if m.active.Some? then (SetNotice(m, RefreshNotice), [])
    else (SetActive(m, Some(Begun(id, REFRESH, true, None))).(route := OPERATION), [RequestRefresh(id)])
  }

  function OnApplicationCompleted(m: Model, id: OperationId, message: string, privacy: Privacy): Step {
    if !IsCurrent(m, id) || m.active.value.kind.Some? then (m, [])
    else
      (m.(active := None,
          terminal := Some(TerminalState(true, None, None, false, false, false)),
          lastResult := ForSurface(Some(Payload(message, privacy)), m.surface),
          lastError := None,
          profileConfirmation := if m.active.value.action == PROFILE_SWITCH then "" else m.profileConfirmation,
          route := RESULT), [])
  }

  function OnApplicationFailed(m: Model, id: OperationId, error: Error): Step {
    if !IsCurrent(m, id) || NonCancellable(m.active.value) then (m, [])
    else
      var active := m.active.value;
      var persistent := active.kind.Some?;
      if persistent && !active.executing && active.phase != Some(PREPARING) then (m, [])
      else
        (m.(active := None,
            prepared := if persistent then None else m.prepared,
            acknowledged := !persistent && m.acknowledged,
            confirmation := if persistent then "" else m.confirmation,
            configPath := if persistent then "" else m.configPath,
            backupPath := if persistent then "" else m.backupPath,
            profileConfirmation := if active.action == PROFILE_SWITCH then "" else m.profileConfirmation,
            terminal := Some(TerminalState(false, None, Some(error.code), false, false, false)),
            lastResult := None,
            lastError := ErrorForSurface(Some(error), m.surface),
            route := RESULT), [])
  }

  const UNRESOLVED := Error(BACKEND_FAILURE, TextOf(UnresolvedFault), SHAREABLE, None)

  function OnWorkerTransportFault(m: Model, id: OperationId, error: Error): Step {
    if !IsCurrent(m, id) then (m, [])
    else if m.active.value.kind.Some? && m.active.value.executing && NonCancellable(m.active.value) then
      (m.(active := Some(m.active.value.(unresolved := true)),
          lastError := Some(if error.privacy == SHAREABLE then error else UNRESOLVED),
          notice := Notice(UnresolvedNotice),
          terminal := None,
          route := OPERATION), [])
    else OnApplicationFailed(m, id, error)
  }

  /** The end of a persistent operation: everything it was reviewed with is forgotten. */
  function Ended(m: Model, terminal: TerminalState, result: Option<Payload>, error: Option<Error>,
                 route: Route): Model {
    m.(active := None, prepared := None, acknowledged := false, confirmation := "", configPath := "", backupPath := "",
       terminal := Some(terminal), lastResult := ForSurface(result, m.surface),
       lastError := ErrorForSurface(error, m.surface), route := route)
  }

  function OnPreparationInvalidated(m: Model, id: OperationId, error: Error): Step {
    if !IsCurrent(m, id) || NonCancellable(m.active.value) then (m, [])
    else
      var failed := TerminalState(false, Some(FAILED), Some(error.code), false, false, false);
      (Ended(m, failed, None, Some(error), HOME), [])
  }

  /** A success that carries all of its evidence. */
  predicate Consistent(r: ExecutionResult) {
    r.success && r.terminal == SUCCEEDED && r.writingStarted && r.reconciled && r.postValidated
  }

  predicate TakesResult(m: Model, id: OperationId, r: ExecutionResult) {
    IsCurrent(m, id) && m.active.value.executing && (m.active.value.kind.Some? ==> r.kind == m.active.value.kind.value)
  }

  function OnPersistentCompleted(m: Model, id: OperationId, r: ExecutionResult): Step {
    if !TakesResult(m, id, r) then (m, [])
    else if Consistent(r) then
      (Ended(m, TerminalState(true, Some(SUCCEEDED), None, true, true, true), Some(Payload(r.message, r.privacy)),
             None, RESULT), [])
    else
      var code := if r.success || r.code.None? then BACKEND_FAILURE else r.code.value;
      var message := if r.success then TextOf(Inconsistent)
        else if r.message == "" then TextOf(Unexplained) else r.message;
      (Ended(m, TerminalState(false, Some(FAILED), Some(code), r.writingStarted, r.reconciled, r.postValidated), None,
             Some(Error(code, message, r.privacy, None)), RESULT), [])
  }

  /** `update`. */
  function Update(m: Model, e: Event): Step {
    match e
    case Navigate(route, focus) => (m.(route := route, focus := focus), [])
    case SetHelp(open) => (m.(helpOpen := open, focus := if open then ON_HELP else m.focus), [])
    case SetDisclosure(payload) => (m.(disclosure := ForSurface(payload, m.surface)), [])
    case ChangePrivacySurface(privacy) => (ClearDisallowed(m, privacy), [])
    case ConfigPathChanged(value) =>
      if m.active.Some? then (m, []) else (m.(configPath := value, surface := SurfaceForInput(m, value)), [])
    case BackupPathChanged(value) =>
      if m.active.Some? then (m, []) else (m.(backupPath := value, surface := SurfaceForInput(m, value)), [])
    case ProfileTargetChanged(value) => if m.active.Some? then (m, []) else (m.(profileTarget := value), [])
    case ProfileConfirmationChanged(value) => if m.active.Some? then (m, []) else (m.(profileConfirmation := value), [])
    case CompatibilityChanged(readOnly, reason) =>
      (m.(readOnly := readOnly, reason := ErrorForSurface(reason, m.surface)), [])
    case OperationRequested(id, action, hardware, kind) => OnOperationRequested(m, id, action, hardware, kind)
    case OperationStarted(id) =>
      if !IsCurrent(m, id) then (m, []) else (SetActive(m, Some(m.active.value.(started := true))), [])
    case PreparedReceived(id, prepared) => OnPreparedReceived(m, id, prepared)
    case EnterReview(id) => OnEnterReview(m, id)
    case ReviewAcknowledged(id, acknowledged) => OnReviewAcknowledged(m, id, acknowledged)
    case ConfirmationChanged(id, value) => OnConfirmationChanged(m, id, value)
    case ConfirmationSubmitted(id) => OnConfirmationSubmitted(m, id)
    case PersistentProgress(id, snapshot) => OnPersistentProgress(m, id, snapshot)
    case CancellationRequested(id) => OnCancellationRequested(m, id)
    case CancellationAcknowledged(id) => OnCancellationAcknowledged(m, id)
    case RefreshRequested(id) => OnRefreshRequested(m, id)
    case ApplicationCompleted(id, message, privacy) => OnApplicationCompleted(m, id, message, privacy)
    case WorkerTransportFault(id, error) => OnWorkerTransportFault(m, id, error)
    case ApplicationFailed(id, error) => OnApplicationFailed(m, id, error)
    case PreparationInvalidated(id, error) => OnPreparationInvalidated(m, id, error)
    case PersistentCompleted(id, result) => OnPersistentCompleted(m, id, result)
  }

  // ---------------------------------------------------------------- runs

  /** The model after a sequence of events. */
  function After(events: seq<Event>): Model {
    if events == [] then INITIAL else Update(After(events[..|events| - 1]), events[|events| - 1]).0
  }

  /** The model once `events` have reached `m`. */
  function Then(m: Model, events: seq<Event>): Model {
    if events == [] then m else Update(Then(m, events[..|events| - 1]), events[|events| - 1]).0
  }

  /** The effects a sequence of events asks for, in order. */
  function Effects(events: seq<Event>): seq<Effect> {
    if events == [] then []
    else Effects(events[..|events| - 1]) + Update(After(events[..|events| - 1]), events[|events| - 1]).1
  }

  /** Requests carry a kind exactly where the interface puts one. */
  predicate WellFormed(e: Event) {
    e.OperationRequested? && e.kind.Some? ==> e.action == PREPARE_PERSISTENT
  }

  predicate AllWellFormed(events: seq<Event>) {
    forall e :: e in events ==> WellFormed(e)
  }

  // ---------------------------------------------------------------- privacy

  /** Everything stored may be shown, and typed paths keep the surface local. */
  predicate PrivacyOk(m: Model) {
    && (m.prepared.Some? ==> Allows(m.surface, m.prepared.value.privacy))
    && (m.lastResult.Some? ==> Allows(m.surface, m.lastResult.value.privacy))
    && (m.lastError.Some? ==> Allows(m.surface, m.lastError.value.privacy))
    && (m.reason.Some? ==> Allows(m.surface, m.reason.value.privacy))
    && (m.disclosure.Some? ==> Allows(m.surface, m.disclosure.value.privacy))
    && (m.notice.Some? ==> Allows(m.surface, m.notice.value.privacy))
    && (m.configPath != "" || m.backupPath != "" ==> m.surface != SHAREABLE)
  }

  // ---------------------------------------------------------------- the foreground operation

  /** What holds of the foreground operation in every reachable model. */
  predicate ActiveOk(m: Model) {
    && (m.prepared.Some? ==>
          m.active.Some? && m.active.value.kind == Some(m.prepared.value.kind) && m.active.value.phase.Some? &&
          m.active.value.phase != Some(PREPARING))
    && (m.acknowledged || m.confirmation != "" ==> m.prepared.Some?)
    && (m.active.Some? ==>
          var a := m.active.value;
          && (a.phase.Some? <==> a.kind.Some?)
          && (a.executing ==> a.phase.Some? && (a.phase == Some(CONFIRMING) || !PreExecution(a.phase)))
          && (!a.executing ==> a.phase.None? || PreExecution(a.phase))
          && (!a.executing && a.phase.Some? && a.phase != Some(PREPARING) ==> m.prepared.Some?)
          && a.phase != Some(SUCCEEDED) && a.phase != Some(FAILED))
  }

  predicate Sane(m: Model) {
    PrivacyOk(m) && ActiveOk(m)
  }

  lemma ClearingIsSane(m: Model, surface: Privacy)
    requires Sane(m)
    ensures Sane(ClearDisallowed(m, surface))
    ensures var n := ClearDisallowed(m, surface);
            m.prepared.Some? && n.prepared.None? && !m.active.value.executing ==> n.active.None?
  {
    hide Notice;
    hide TextOf;
  }

  lemma NoticeIsSane(m: Model, f: Fixed)
    requires Sane(m)
    ensures Sane(SetNotice(m, f))
  {
    hide Notice;
  }

  /** Only flags of the foreground operation change. */
  lemma FlagsAreSane(m: Model, a: Foreground)
    requires Sane(m) && m.active.Some?
    requires var was := m.active.value; a.kind == was.kind && a.phase == was.phase && a.executing == was.executing
    ensures Sane(SetActive(m, Some(a)))
  {
  }

  lemma RequestedIsSane(m: Model, active: Option<Foreground>, error: Option<Error>)
    requires Sane(m) && m.active.None? && (error.Some? ==> error.value.privacy == SHAREABLE)
    requires active.Some? ==>
              !active.value.executing && (active.value.kind.Some? <==> active.value.phase == Some(PREPARING)) &&
                              (active.value.kind.None? ==> active.value.phase.None?)
    ensures Sane(Requested(m, active, error)) && Sane(SetActive(m, active).(route := OPERATION))
  {
  }

  lemma RequestIsSane(m: Model, id: OperationId, action: Action, hardware: bool, kind: Option<Kind>)
    requires Sane(m) && (kind.Some? ==> action == PREPARE_PERSISTENT)
    ensures Sane(OnOperationRequested(m, id, action, hardware, kind).0) && Sane(OnRefreshRequested(m, id).0)
  {
    hide Sane;
    hide TextOf;
    hide SetNotice;
    hide SetActive;
    hide Requested;
    hide StartEffect;
    NoticeIsSane(m, BusyNotice);
    NoticeIsSane(m, RefreshNotice);
    if m.active.None? {
      RequestedIsSane(m, None, Some(Error(INVALID_INPUT, TextOf(MissingKind), SHAREABLE, None)));
      RequestedIsSane(m, Some(Begun(id, REFRESH, true, None)), None);
      if action != PREPARE_PERSISTENT || kind.Some? {
        RequestedIsSane(m, Some(Begun(id, action, hardware, kind)), None);
      }
    }
  }

  lemma PreparedIsSane(m: Model, id: OperationId, p: Prepared)
    requires Sane(m)
    ensures Sane(OnPreparedReceived(m, id, p).0)
  {
    hide Notice;
    hide TextOf;
  }

  lemma ExecutionIsSane(m: Model, id: OperationId, s: Snapshot)
    requires Sane(m)
    ensures Sane(OnConfirmationSubmitted(m, id).0) && Sane(OnPersistentProgress(m, id, s).0)
  {
    hide Notice;
    hide TextOf;
    hide Strip;
  }

  lemma CancellingIsSane(m: Model, id: OperationId)
    requires Sane(m)
    ensures Sane(OnCancellationRequested(m, id).0) && Sane(OnCancellationAcknowledged(m, id).0)
  {
    hide Sane;
    hide SetNotice;
    hide SetActive;
    NoticeIsSane(m, UnavailableNotice);
    if IsCurrent(m, id) {
      var active := m.active.value;
      FlagsAreSane(m, active.(cancelDeferred := true));
      FlagsAreSane(m, active.(cancelRequested := true));
      FlagsAreSane(m, active.(cancelAcknowledged := true));
      NoticeIsSane(SetActive(m, Some(active.(cancelDeferred := true))), DeferredNotice);
    }
  }

  lemma CompletionIsSane(m: Model, id: OperationId, message: string, privacy: Privacy)
    requires Sane(m)
    ensures Sane(OnApplicationCompleted(m, id, message, privacy).0)
  {
    hide Notice;
    hide TextOf;
  }

  lemma FailureIsSane(m: Model, id: OperationId, error: Error)
    requires Sane(m)
    ensures Sane(OnApplicationFailed(m, id, error).0) && Sane(OnWorkerTransportFault(m, id, error).0)
  {
    hide Notice;
    hide TextOf;
  }

  lemma EndedIsSane(m: Model, terminal: TerminalState, result: Option<Payload>, error: Option<Error>, route: Route)
    requires Sane(m)
    ensures Sane(Ended(m, terminal, result, error, route))
  {
    hide Notice;
    hide TextOf;
  }

  lemma PersistentEndIsSane(m: Model, id: OperationId, r: ExecutionResult)
    requires Sane(m)
    ensures Sane(OnPersistentCompleted(m, id, r).0)
  {
    hide Notice;
    hide TextOf;
    hide Sane;
    hide Ended;
    forall terminal, result, error
      ensures Sane(Ended(m, terminal, result, error, RESULT))
    {
      EndedIsSane(m, terminal, result, error, RESULT);
    }
  }

  lemma InputIsSane(m: Model, e: Event)
    requires Sane(m)
    requires e.Navigate? || e.SetHelp? || e.SetDisclosure? || e.CompatibilityChanged?
    ensures Sane(Update(m, e).0)
  {
  }

  lemma TypingIsSane(m: Model, e: Event)
    requires Sane(m)
    requires e.ConfigPathChanged? || e.BackupPathChanged? || e.ProfileTargetChanged? || e.ProfileConfirmationChanged?
    ensures Sane(Update(m, e).0)
  {
  }

  lemma ReviewIsSane(m: Model, id: OperationId, acknowledged: bool, value: string)
    requires Sane(m)
    ensures Sane(OnEnterReview(m, id).0) && Sane(OnReviewAcknowledged(m, id, acknowledged).0)
    ensures Sane(OnConfirmationChanged(m, id, value).0)
  {
  }

  lemma StepIsSane(m: Model, e: Event)
    requires Sane(m) && WellFormed(e)
    ensures Sane(Update(m, e).0)
  {
    hide Sane;
    hide ClearDisallowed;
    hide OnOperationRequested;
    hide OnRefreshRequested;
    hide OnPreparedReceived;
    hide OnConfirmationSubmitted;
    hide OnPersistentProgress;
    hide OnCancellationRequested;
    hide OnCancellationAcknowledged;
    hide OnApplicationCompleted;
    hide OnApplicationFailed;
    hide OnWorkerTransportFault;
    hide OnPersistentCompleted;
    hide OnEnterReview;
    hide OnReviewAcknowledged;
    hide OnConfirmationChanged;
    hide Ended;
    match e {
      case ChangePrivacySurface(privacy) => ClearingIsSane(m, privacy);
      case OperationRequested(id, action, hardware, kind) => RequestIsSane(m, id, action, hardware, kind);
      case RefreshRequested(id) => RequestIsSane(m, id, REFRESH, true, None);
      case PreparedReceived(id, p) => PreparedIsSane(m, id, p);
      case ConfirmationSubmitted(id) => ExecutionIsSane(m, id, Snapshot(WRITING, ApplyConfig, false));
      case PersistentProgress(id, snapshot) => ExecutionIsSane(m, id, snapshot);
      case CancellationRequested(id) => CancellingIsSane(m, id);
      case CancellationAcknowledged(id) => CancellingIsSane(m, id);
      case ApplicationCompleted(id, message, privacy) => CompletionIsSane(m, id, message, privacy);
      case WorkerTransportFault(id, error) => FailureIsSane(m, id, error);
      case ApplicationFailed(id, error) => FailureIsSane(m, id, error);
      case PreparationInvalidated(id, error) =>
        EndedIsSane(m, TerminalState(false, Some(FAILED), Some(error.code), false, false, false), None, Some(error),
                    HOME);
      case PersistentCompleted(id, result) => PersistentEndIsSane(m, id, result);
      case Navigate(_, _) => InputIsSane(m, e);
      case SetHelp(_) => InputIsSane(m, e);
      case SetDisclosure(_) => InputIsSane(m, e);
      case CompatibilityChanged(_, _) => InputIsSane(m, e);
      case ConfigPathChanged(_) => TypingIsSane(m, e);
      case BackupPathChanged(_) => TypingIsSane(m, e);
      case ProfileTargetChanged(_) => TypingIsSane(m, e);
      case ProfileConfirmationChanged(_) => TypingIsSane(m, e);
      case EnterReview(id) => ReviewIsSane(m, id, false, "");
      case ReviewAcknowledged(id, acknowledged) => ReviewIsSane(m, id, acknowledged, "");
      case ConfirmationChanged(id, value) => ReviewIsSane(m, id, false, value);
      case OperationStarted(id) =>
        if IsCurrent(m, id) {
          FlagsAreSane(m, m.active.value.(started := true));
        }
    }
  }

  /** MAIN RESULT. In every reachable model each stored payload may be shown on the surface,
      and a typed path never sits on a shareable one. */
  lemma {:induction false} ReachableModelsAreSane(events: seq<Event>)
    requires AllWellFormed(events)
    ensures Sane(After(events))
  {
    hide Sane;
    hide Update;
    hide WellFormed;
    if events == [] {
      InitialIsSane();
    } else {
      ReachableModelsAreSane(events[..|events| - 1]);
      StepIsSane(After(events[..|events| - 1]), events[|events| - 1]);
    }
  }

  lemma InitialIsSane()
    ensures Sane(INITIAL)
  {
  }
}
