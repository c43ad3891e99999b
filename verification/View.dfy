/** `tui/view.py`: the record the screen is drawn from, and what it cannot reveal. */
module View {
  import opened Bytes
  import opened Models
  import opened Text
  import opened Tui

  datatype Safety = Calm | NonCancellablePhase | OutcomeUnknown

  /** `ViewModel`; labels and review lines are renderings of the fields kept here. */
  datatype ViewModel = ViewModel(
    route: Route,
    privacy: Privacy,
    readOnly: bool,
    readOnlyReason: Option<string>,
    operationId: Option<string>,
    action: Option<Action>,
    kind: Option<Kind>,
    phase: Option<Phase>,
    reviewVisible: bool,
    prepared: Option<Prepared>,
    acknowledged: bool,
    confirmationVisible: bool,
    confirmation: string,
    requiredPhrase: Option<string>,
    confirmationMatches: bool,
    cancellationAvailable: bool,
    nonCancellable: bool,
    unresolved: bool,
    safety: Safety,
    success: Option<bool>,
    writingStarted: bool,
    reconciled: bool,
    postValidated: bool,
    code: Option<ErrorCode>,
    message: Option<string>,
    detail: Option<string>,
    helpOpen: bool,
    disclosure: Option<string>,
    configPath: string,
    backupPath: string,
    profileTarget: string,
    profileConfirmation: string)

  function PreparedForSurface(p: Option<Prepared>, surface: Privacy): Option<Prepared> {
    if p.Some? && Allows(surface, p.value.privacy) then p else None
  }

  function MessageOf(p: Option<Payload>): Option<string> {
    if p.Some? then Some(p.value.message) else None
  }

  predicate ReviewVisible(m: Model, prepared: Option<Prepared>) {
    prepared.Some? && m.active.Some? && !m.active.value.executing &&
    (m.active.value.phase == Some(PREPARED) || m.active.value.phase == Some(REVIEWING)) && m.route == REVIEW
  }

  predicate ConfirmationVisible(m: Model, prepared: Option<Prepared>) {
    prepared.Some? && m.active.Some? && !m.active.value.executing && m.active.value.phase == Some(CONFIRMING) &&
    m.route == CONFIRMATION
  }

  function SafetyOf(active: Option<Foreground>): Safety {
    if active.None? then Calm
    else if active.value.unresolved then OutcomeUnknown
    else if NonCancellable(active.value) then NonCancellablePhase
    else Calm
  }

  /** The filtered payloads, and the rest of the model that the view may read freely. */
  function Draw(m: Model, prepared: Option<Prepared>, lastError: Option<Error>, lastResult: Option<Payload>,
                notice: Option<Payload>, reason: Option<Error>, disclosure: Option<Payload>): ViewModel
  {
    var reviewing, confirming := ReviewVisible(m, prepared), ConfirmationVisible(m, prepared);
    var active, t := m.active, m.terminal;
    ViewModel(
      m.route,
      m.surface,
      m.readOnly,
      if reason.Some? then Some(reason.value.message) else None,
      if active.Some? then Some(active.value.id.value) else None,
      if active.Some? then Some(active.value.action) else None,
      if active.Some? then active.value.kind else if prepared.Some? then Some(prepared.value.kind) else None,
      if active.Some? then active.value.phase else if t.Some? then t.value.phase else None,
      reviewing,
      prepared,
      m.acknowledged,
      confirming,
      if confirming then m.confirmation else "",
      if reviewing || confirming then Some(prepared.value.phrase) else None,
      confirming && Strip(m.confirmation) == prepared.value.phrase,
      active.Some? && CancellationAvailable(active.value),
      active.Some? && NonCancellable(active.value),
      active.Some? && active.value.unresolved,
      SafetyOf(active),
      if t.Some? then Some(t.value.success) else None,
      t.Some? && t.value.writingStarted,
      t.Some? && t.value.reconciled,
      t.Some? && t.value.postValidated,
      if lastError.Some? then Some(lastError.value.code) else if t.Some? then t.value.code else None,
      if lastError.Some? then Some(lastError.value.message)
      else if lastResult.Some? then Some(lastResult.value.message)
      else MessageOf(notice),
      if lastError.Some? then lastError.value.detail else None,
      m.helpOpen,
      MessageOf(disclosure),
      m.configPath,
      m.backupPath,
      m.profileTarget,
      m.profileConfirmation)
  }

  /** `view`. */
  function View(m: Model): ViewModel {
    Draw(m,
         PreparedForSurface(m.prepared, m.surface),
         ErrorForSurface(m.lastError, m.surface),
         ForSurface(m.lastResult, m.surface),
         ForSurface(m.notice, m.surface),
         ErrorForSurface(m.reason, m.surface),
         ForSurface(m.disclosure, m.surface))
  }

  // ---------------------------------------------------------------- noninterference

  /** Equal, or of one privacy class that the surface forbids. */
  predicate AlikePayload(a: Option<Payload>, b: Option<Payload>, surface: Privacy) {
    a == b || (a.Some? && b.Some? && a.value.privacy == b.value.privacy && !Allows(surface, a.value.privacy))
  }

  predicate AlikeError(a: Option<Error>, b: Option<Error>, surface: Privacy) {
    a == b || (a.Some? && b.Some? && a.value.privacy == b.value.privacy && !Allows(surface, a.value.privacy))
  }

  predicate AlikePrepared(a: Option<Prepared>, b: Option<Prepared>, surface: Privacy) {
    a == b || (a.Some? && b.Some? && a.value.privacy == b.value.privacy && !Allows(surface, a.value.privacy))
  }

  /** The two models differ only in the content of payloads the surface forbids. */
  predicate Alike(a: Model, b: Model) {
    && b == a.(prepared := b.prepared, lastError := b.lastError, lastResult := b.lastResult, notice := b.notice,
               reason := b.reason, disclosure := b.disclosure)
    && AlikePrepared(a.prepared, b.prepared, a.surface)
    && AlikeError(a.lastError, b.lastError, a.surface) && AlikeError(a.reason, b.reason, a.surface)
    && AlikePayload(a.lastResult, b.lastResult, a.surface) && AlikePayload(a.notice, b.notice, a.surface)
    && AlikePayload(a.disclosure, b.disclosure, a.surface)
  }

  /** The drawing reads the payloads only through its arguments. */
  lemma DrawReadsNoPayload(a: Model, b: Model, prepared: Option<Prepared>, lastError: Option<Error>,
                           lastResult: Option<Payload>, notice: Option<Payload>, reason: Option<Error>,
                           disclosure: Option<Payload>)
    requires b == a.(prepared := b.prepared, lastError := b.lastError, lastResult := b.lastResult, notice := b.notice,
                     reason := b.reason, disclosure := b.disclosure)
    ensures Draw(a, prepared, lastError, lastResult, notice, reason, disclosure) ==
            Draw(b, prepared, lastError, lastResult, notice, reason, disclosure)
  {
    hide Strip;
  }

  /** MAIN RESULT. Changing what a forbidden payload says never changes what is shown. */
  lemma ForbiddenContentIsInvisible(a: Model, b: Model)
    requires Alike(a, b)
    ensures View(a) == View(b)
  {
    hide Draw;
    DrawReadsNoPayload(a, b, PreparedForSurface(a.prepared, a.surface), ErrorForSurface(a.lastError, a.surface),
                       ForSurface(a.lastResult, a.surface), ForSurface(a.notice, a.surface),
                       ErrorForSurface(a.reason, a.surface), ForSurface(a.disclosure, a.surface));
  }

  /** MAIN RESULT. In a reachable model nothing stored is withheld by the view's own filter,
      so the filter and the engine agree; and a shareable screen shows no typed path. */
  lemma ReachableViewsAgree(events: seq<Event>)
    requires AllWellFormed(events)
    ensures var m := After(events);
            && View(m) == Draw(m, m.prepared, m.lastError, m.lastResult, m.notice, m.reason, m.disclosure)
            && (View(m).privacy == SHAREABLE ==> View(m).configPath == "" && View(m).backupPath == "")
            && (View(m).prepared.Some? ==> Allows(View(m).privacy, View(m).prepared.value.privacy))
  {
    hide Strip;
    hide ActiveOk;
    hide After;
    ReachableModelsAreSane(events);
  }

  /** What the screen promises before a submission is what the engine demands. */
  lemma MatchingConfirmationIsAccepted(m: Model)
    requires View(m).confirmationMatches && m.acknowledged && !m.active.value.cancelRequested
    ensures m.prepared.Some? && m.active.Some?
    ensures Update(m, ConfirmationSubmitted(m.active.value.id)).1 ==
            [ExecutePrepared(m.active.value.id, m.prepared.value, m.confirmation)]
  {
    hide Strip;
  }
}
