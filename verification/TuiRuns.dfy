/** What whole event sequences of the terminal interface keep. */
module TuiRuns {
  import opened Bytes
  import opened Models
  import opened Text
  import opened Tui

  // ---------------------------------------------------------------- one step

  predicate Requests(e: Event, id: OperationId) {
    (e.OperationRequested? || e.RefreshRequested?) && e.id == id
  }

  predicate Receives(m: Model, e: Event) {
    e.PreparedReceived? && TakesPrepared(m, e.id, e.prepared)
  }

  predicate Concludes(m: Model, e: Event) {
    e.PersistentCompleted? && TakesResult(m, e.id, e.result)
  }

  /** The foreground operation is only replaced when there is none, never ends in a
      non-cancellable phase except with its own result, and moves one phase at a time. */
  predicate ActiveEvolves(m: Model, e: Event, n: Model) {
    if m.active.None? then n.active.None? || (Requests(e, n.active.value.id) && !n.active.value.executing)
    else
      var a := m.active.value;
      if n.active.None? then !NonCancellable(a) || Concludes(m, e)
      else
        var b := n.active.value;
        && b.id == a.id
        && (a.executing ==> b.executing && b.kind == a.kind && PhaseEvolves(a.phase, b.phase))
        && (b.executing && !a.executing ==> e == ConfirmationSubmitted(a.id))
  }

  predicate PhaseEvolves(from: Option<Phase>, to: Option<Phase>) {
    to == from || (from.Some? && to.Some? && NextPhase(from.value) == to)
  }

  /** A preparation is only ever the one received last, and acknowledging follows it. */
  predicate PreparedEvolves(m: Model, e: Event, n: Model) {
    n.prepared.Some? ==>
      if Receives(m, e) then n.prepared == Some(e.prepared) && !n.acknowledged && IsCurrent(n, e.id)
      else
        && n.prepared == m.prepared && m.active.Some?
        && (n.acknowledged ==> if e.ReviewAcknowledged? && Reviewable(m, e.id) then e.acknowledged else m.acknowledged)
  }

  /** A reported success is an ordinary completion or a fully evidenced persistent one. */
  predicate TerminalEvolves(m: Model, e: Event, n: Model) {
    n.terminal == m.terminal || n.terminal.None? || !n.terminal.value.success ||
    (m.active.Some? &&
     if m.active.value.kind.Some? then
       Concludes(m, e) && Consistent(e.result) && n.terminal.value.phase == Some(SUCCEEDED) &&
       Evidenced(n.terminal.value)
     else e.ApplicationCompleted? && n.terminal.value.phase.None?)
  }

  predicate Evidenced(t: TerminalState) {
    t.writingStarted && t.reconciled && t.postValidated
  }

  /** Execution is asked for only by a submission that passes every gate. */
  predicate Gated(m: Model, e: Event, x: Effect) {
    x.ExecutePrepared? ==>
      && e == ConfirmationSubmitted(x.id) && IsCurrent(m, x.id) && !m.active.value.executing
      && m.prepared == Some(x.prepared) && m.acknowledged
      && Strip(x.confirmation) == x.prepared.phrase
  }

  predicate EffectsEvolve(m: Model, e: Event, s: Step) {
    |s.1| <= 1 &&
    (|s.1| == 1 ==>
       Gated(m, e, s.1[0]) && (s.1[0].ExecutePrepared? ==> s.0.active.Some? && s.0.active.value.executing))
  }

  predicate Evolves(m: Model, e: Event, s: Step) {
    ActiveEvolves(m, e, s.0) && PreparedEvolves(m, e, s.0) && TerminalEvolves(m, e, s.0) && EffectsEvolve(m, e, s)
  }

  lemma ClearingEvolves(m: Model, e: Event, surface: Privacy)
    requires Sane(m) && e == ChangePrivacySurface(surface)
    ensures Evolves(m, e, (ClearDisallowed(m, surface), []))
  {
    hide PrivacyOk;
  }

  lemma NoticeEvolves(m: Model, e: Event, f: Fixed)
    requires Sane(m) && !e.PreparedReceived? && !e.ReviewAcknowledged?
    ensures Evolves(m, e, (SetNotice(m, f), []))
  {
    hide PrivacyOk;
    hide Notice;
  }

  lemma FlagsEvolve(m: Model, e: Event, a: Foreground, effects: seq<Effect>)
    requires Sane(m) && m.active.Some? && !e.PreparedReceived? && !e.ReviewAcknowledged?
    requires var was := m.active.value;
             a.id == was.id && a.kind == was.kind && a.phase == was.phase && a.executing == was.executing
    requires |effects| <= 1 && forall x :: x in effects ==> !x.ExecutePrepared?
    ensures Evolves(m, e, (SetActive(m, Some(a)), effects))
  {
    hide PrivacyOk;
  }

  lemma RequestEvolves(m: Model, e: Event)
    requires Sane(m) && e.OperationRequested?
    ensures Evolves(m, e, OnOperationRequested(m, e.id, e.action, e.hardware, e.kind))
  {
    hide PrivacyOk;
    hide SetNotice;
    hide TextOf;
    hide NonEmpty;
    NoticeEvolves(m, e, BusyNotice);
  }

  lemma RefreshEvolves(m: Model, e: Event)
    requires Sane(m) && e.RefreshRequested?
    ensures Evolves(m, e, OnRefreshRequested(m, e.id))
  {
    hide PrivacyOk;
    hide SetNotice;
    NoticeEvolves(m, e, RefreshNotice);
  }

  lemma ReceiptEvolves(m: Model, e: Event)
    requires Sane(m) && e.PreparedReceived?
    ensures Evolves(m, e, OnPreparedReceived(m, e.id, e.prepared))
  {
    hide PrivacyOk;
  }

  lemma EnteringEvolves(m: Model, e: Event)
    requires Sane(m) && e.EnterReview?
    ensures Evolves(m, e, OnEnterReview(m, e.id))
  {
    hide PrivacyOk;
  }

  lemma AcknowledgingEvolves(m: Model, e: Event)
    requires Sane(m) && e.ReviewAcknowledged?
    ensures Evolves(m, e, OnReviewAcknowledged(m, e.id, e.acknowledged))
  {
    hide PrivacyOk;
  }

  lemma ConfirmingEvolves(m: Model, e: Event)
    requires Sane(m) && e.ConfirmationChanged?
    ensures Evolves(m, e, OnConfirmationChanged(m, e.id, e.value))
  {
    hide PrivacyOk;
  }

  lemma SubmissionEvolves(m: Model, e: Event)
    requires Sane(m) && e.ConfirmationSubmitted?
    ensures Evolves(m, e, OnConfirmationSubmitted(m, e.id))
  {
    hide PrivacyOk;
    hide Strip;
  }

  lemma ProgressEvolves(m: Model, e: Event)
    requires Sane(m) && e.PersistentProgress?
    ensures Evolves(m, e, OnPersistentProgress(m, e.id, e.snapshot))
  {
    hide PrivacyOk;
  }

  lemma CancellingEvolves(m: Model, e: Event)
    requires Sane(m) && (e.CancellationRequested? || e.CancellationAcknowledged?)
    ensures e.CancellationRequested? ==> Evolves(m, e, OnCancellationRequested(m, e.id))
    ensures e.CancellationAcknowledged? ==> Evolves(m, e, OnCancellationAcknowledged(m, e.id))
  {
    hide PrivacyOk;
    hide SetActive;
    hide Notice;
    NoticeEvolves(m, e, UnavailableNotice);
    if IsCurrent(m, e.id) {
      var active := m.active.value;
      FlagsEvolve(m, e, active.(cancelDeferred := true), []);
      FlagsEvolve(m, e, active.(cancelRequested := true), [RequestCancellation(e.id)]);
      FlagsEvolve(m, e, active.(cancelAcknowledged := true), []);
    }
  }

  lemma CompletionEvolves(m: Model, e: Event)
    requires Sane(m) && e.ApplicationCompleted?
    ensures Evolves(m, e, OnApplicationCompleted(m, e.id, e.message, e.privacy))
  {
    hide PrivacyOk;
  }

  lemma FailureEvolves(m: Model, e: Event)
    requires Sane(m) && (e.ApplicationFailed? || e.WorkerTransportFault?)
    ensures Evolves(m, e, OnApplicationFailed(m, e.id, e.error))
  {
    hide PrivacyOk;
    hide TextOf;
  }

  lemma FaultEvolves(m: Model, e: Event)
    requires Sane(m) && e.WorkerTransportFault?
    ensures Evolves(m, e, OnWorkerTransportFault(m, e.id, e.error))
  {
    hide PrivacyOk;
    hide TextOf;
    hide OnApplicationFailed;
    FailureEvolves(m, e);
  }

  lemma InvalidationEvolves(m: Model, e: Event)
    requires Sane(m) && e.PreparationInvalidated?
    ensures Evolves(m, e, OnPreparationInvalidated(m, e.id, e.error))
  {
    hide PrivacyOk;
  }

  lemma ResultEvolves(m: Model, e: Event)
    requires Sane(m) && e.PersistentCompleted?
    ensures Evolves(m, e, OnPersistentCompleted(m, e.id, e.result))
  {
    hide PrivacyOk;
    hide TextOf;
  }

  lemma InputEvolves(m: Model, e: Event)
    requires Sane(m)
    requires e.Navigate? || e.SetHelp? || e.SetDisclosure? || e.CompatibilityChanged?
    ensures Evolves(m, e, Update(m, e))
  {
    hide PrivacyOk;
  }

  lemma TypingEvolves(m: Model, e: Event)
    requires Sane(m)
    requires e.ConfigPathChanged? || e.BackupPathChanged? || e.ProfileTargetChanged? || e.ProfileConfirmationChanged?
    ensures Evolves(m, e, Update(m, e))
  {
    hide PrivacyOk;
  }

  lemma NothingEvolves(m: Model, e: Event)
    requires Sane(m) && !e.PreparedReceived? && !e.ReviewAcknowledged?
    ensures Evolves(m, e, (m, []))
  {
    hide PrivacyOk;
  }

  lemma StepEvolves(m: Model, e: Event)
    requires Sane(m)
    ensures Evolves(m, e, Update(m, e))
  {
    hide Evolves;
    hide Sane;
    hide ClearDisallowed;
    hide OnOperationRequested;
    hide OnRefreshRequested;
    hide OnPreparedReceived;
    hide OnEnterReview;
    hide OnReviewAcknowledged;
    hide OnConfirmationChanged;
    hide OnConfirmationSubmitted;
    hide OnPersistentProgress;
    hide OnCancellationRequested;
    hide OnCancellationAcknowledged;
    hide OnApplicationCompleted;
    hide OnApplicationFailed;
    hide OnWorkerTransportFault;
    hide OnPreparationInvalidated;
    hide OnPersistentCompleted;
    match e {
      case ChangePrivacySurface(privacy) => ClearingEvolves(m, e, privacy);
      case OperationRequested(_, _, _, _) => RequestEvolves(m, e);
      case RefreshRequested(_) => RefreshEvolves(m, e);
      case OperationStarted(id) =>
        NothingEvolves(m, e);
        if IsCurrent(m, id) {
          FlagsEvolve(m, e, m.active.value.(started := true), []);
        }
      case PreparedReceived(_, _) => ReceiptEvolves(m, e);
      case EnterReview(_) => EnteringEvolves(m, e);
      case ReviewAcknowledged(_, _) => AcknowledgingEvolves(m, e);
      case ConfirmationChanged(_, _) => ConfirmingEvolves(m, e);
      case ConfirmationSubmitted(_) => SubmissionEvolves(m, e);
      case PersistentProgress(_, _) => ProgressEvolves(m, e);
      case CancellationRequested(_) => CancellingEvolves(m, e);
      case CancellationAcknowledged(_) => CancellingEvolves(m, e);
      case ApplicationCompleted(_, _, _) => CompletionEvolves(m, e);
      case WorkerTransportFault(_, _) => FaultEvolves(m, e);
      case ApplicationFailed(_, _) => FailureEvolves(m, e);
      case PreparationInvalidated(_, _) => InvalidationEvolves(m, e);
      case PersistentCompleted(_, _) => ResultEvolves(m, e);
      case Navigate(_, _) => InputEvolves(m, e);
      case SetHelp(_) => InputEvolves(m, e);
      case SetDisclosure(_) => InputEvolves(m, e);
      case CompatibilityChanged(_, _) => InputEvolves(m, e);
      case ConfigPathChanged(_) => TypingEvolves(m, e);
      case BackupPathChanged(_) => TypingEvolves(m, e);
      case ProfileTargetChanged(_) => TypingEvolves(m, e);
      case ProfileConfirmationChanged(_) => TypingEvolves(m, e);
    }
  }

  // ---------------------------------------------------------------- whole runs

  function Init(events: seq<Event>): seq<Event>
    requires events != []
  {
    events[..|events| - 1]
  }

  function Last(events: seq<Event>): Event
    requires events != []
  {
    events[|events| - 1]
  }

  /** The last preparation taken for an operation. */
  function LastReceived(events: seq<Event>, id: OperationId): Option<Prepared> {
    if events == [] then None
    else if Last(events).PreparedReceived? && Last(events).id == id && Receives(After(Init(events)), Last(events))
    then Some(Last(events).prepared)
    else LastReceived(Init(events), id)
  }

  /** The last word on the review since that preparation was taken. */
  function LastAcknowledgement(events: seq<Event>, id: OperationId): bool {
    if events == [] then false
    else
      var e := Last(events);
      if e.PreparedReceived? && e.id == id && Receives(After(Init(events)), e) then false
      else if e.ReviewAcknowledged? && e.id == id then e.acknowledged
      else LastAcknowledgement(Init(events), id)
  }

  /** The prepared value on display is the last one received for the active operation, and
      it counts as acknowledged only if the user's last word since then was yes. */
  ghost predicate ReviewIsCurrent(events: seq<Event>) {
    var m := After(events);
    m.prepared.Some? && m.active.Some? ==>
      && LastReceived(events, m.active.value.id) == m.prepared
      && (m.acknowledged && !m.active.value.executing ==> LastAcknowledgement(events, m.active.value.id))
  }

  lemma {:induction false} ReviewStaysCurrent(events: seq<Event>)
    requires AllWellFormed(events)
    ensures ReviewIsCurrent(events)
  {
    if events != [] {
      var before, e := Init(events), Last(events);
      var m := After(before);
      ReachableModelsAreSane(before);
      ReachableModelsAreSane(events);
      ReviewStaysCurrent(before);
      StepEvolves(m, e);
      hide Update;
      hide TerminalEvolves;
      hide EffectsEvolve;
      hide PrivacyOk;
      hide TakesPrepared;
      hide TakesResult;
    }
  }

  /** MAIN RESULT. Whatever the events, an execution is asked for only with the value last
      received for that operation, after a review acknowledged since that receipt and not
      withdrawn, and with exactly its phrase typed. */
  lemma ExecutionIsGated(events: seq<Event>, e: Event)
    requires AllWellFormed(events)
    ensures forall x :: x in Update(After(events), e).1 && x.ExecutePrepared? ==>
              && e == ConfirmationSubmitted(x.id)
              && LastReceived(events, x.id) == Some(x.prepared)
              && LastAcknowledgement(events, x.id)
              && Strip(x.confirmation) == x.prepared.phrase
  {
    hide Update;
    hide Strip;
    hide PrivacyOk;
    ReachableModelsAreSane(events);
    ReviewStaysCurrent(events);
    StepEvolves(After(events), e);
  }

  /** The issuance numbers requested so far. */
  function Issuances(events: seq<Event>): set<nat> {
    if events == [] then {}
    else
      var e := Last(events);
      Issuances(Init(events)) + if e.OperationRequested? || e.RefreshRequested? then {e.id.issuance} else {}
  }

  /** Every request carries a new issuance number, as the counter behind `OperationId` gives. */
  predicate FreshRequests(events: seq<Event>) {
    events == [] ||
    (FreshRequests(Init(events)) &&
     var e := Last(events);
     (e.OperationRequested? || e.RefreshRequested? ==> e.id.issuance !in Issuances(Init(events))))
  }

  /** If the operation an execution was asked for is still active, it is under way. */
  predicate UnderWay(active: Option<Foreground>, x: Effect) {
    x.ExecutePrepared? && active.Some? && active.value.id.issuance == x.id.issuance ==> active.value.executing
  }

  predicate Distinct(effects: seq<Effect>) {
    forall i, j :: 0 <= i < j < |effects| && effects[i].ExecutePrepared? && effects[j].ExecutePrepared? ==>
      effects[i].id.issuance != effects[j].id.issuance
  }

  /** No two executions share an issuance, and one that was asked for is under way. */
  ghost predicate Single(events: seq<Event>) {
    var active := After(events).active;
    && (active.Some? ==> active.value.id.issuance in Issuances(events))
    && (forall x :: x in Effects(events) ==> UnderWay(active, x))
    && (forall x :: x in Effects(events) && x.ExecutePrepared? ==> x.id.issuance in Issuances(events))
    && Distinct(Effects(events))
  }

  lemma OneMoreEffect(effects: seq<Effect>, x: Effect)
    requires Distinct(effects)
    requires forall y :: y in effects && y.ExecutePrepared? && x.ExecutePrepared? ==> y.id.issuance != x.id.issuance
    ensures Distinct(effects + [x])
  {
    assert forall i :: 0 <= i < |effects| ==> effects[i] in effects;
  }

  /** Nothing asked for before is asked of a new operation, or again of the same one. */
  lemma EarlierStaysUnderWay(m: Model, e: Event, n: Model, x: Effect, issuances: set<nat>)
    requires ActiveEvolves(m, e, n) && UnderWay(m.active, x)
    requires x.ExecutePrepared? ==> x.id.issuance in issuances
    requires e.OperationRequested? || e.RefreshRequested? ==> e.id.issuance !in issuances
    ensures UnderWay(n.active, x)
  {
    hide NonCancellable;
    hide Concludes;
    hide PhaseEvolves;
  }

  lemma ExecutionStaysSingle(events: seq<Event>)
    requires events != [] && Single(Init(events)) && FreshRequests(events)
    requires Evolves(After(Init(events)), Last(events), Update(After(Init(events)), Last(events)))
    ensures Single(events)
  {
    hide Update;
    hide Strip;
    hide TerminalEvolves;
    hide PreparedEvolves;
    hide UnderWay;
    hide Distinct;
    var before, e := Init(events), Last(events);
    var m, n := After(before), After(events);
    var more := Update(m, e).1;
    assert Effects(events) == Effects(before) + more;
    forall x | x in Effects(before)
      ensures UnderWay(n.active, x)
    {
      EarlierStaysUnderWay(m, e, n, x, Issuances(before));
    }
    if more == [] {
      assert Effects(events) == Effects(before);
    } else {
      var x := more[0];
      assert more == [x];
      NewEffect(m, e, n, x, Effects(before));
      OneMoreEffect(Effects(before), x);
    }
  }

  lemma NewEffect(m: Model, e: Event, n: Model, x: Effect, earlier: seq<Effect>)
    requires Gated(m, e, x) && (x.ExecutePrepared? ==> n.active.Some? && n.active.value.executing)
    requires forall y :: y in earlier ==> UnderWay(m.active, y)
    ensures UnderWay(n.active, x)
    ensures forall y :: y in earlier && y.ExecutePrepared? && x.ExecutePrepared? ==> y.id.issuance != x.id.issuance
  {
    hide Strip;
  }

  /** MAIN RESULT. Whatever the events, each issuance asks for execution at most once. */
  lemma {:induction false} ExecutionIsSingle(events: seq<Event>)
    requires AllWellFormed(events) && FreshRequests(events)
    ensures Single(events)
  {
    if events != [] {
      ReachableModelsAreSane(Init(events));
      ExecutionIsSingle(Init(events));
      StepEvolves(After(Init(events)), Last(events));
      ExecutionStaysSingle(events);
    }
  }

  /** MAIN RESULT. In a non-cancellable phase only the operation's own result, of its own
      kind, ends it; and once execution is asked for, the phase moves one step at a time
      along the fixed chain while the operation and its kind stay the same. */
  lemma SafetyPhasesHold(events: seq<Event>, e: Event)
    requires AllWellFormed(events) && WellFormed(e) && After(events).active.Some?
    ensures var a, n := After(events).active.value, Update(After(events), e).0;
            && (n.active.None? && NonCancellable(a) ==>
                  e.PersistentCompleted? && e.id == a.id && a.executing && a.kind == Some(e.result.kind))
            && (n.active.Some? && a.executing ==>
                  n.active.value.id == a.id && n.active.value.kind == a.kind && n.active.value.executing &&
                  PhaseEvolves(a.phase, n.active.value.phase))
  {
    hide Update;
    hide PrivacyOk;
    ReachableModelsAreSane(events);
    StepEvolves(After(events), e);
  }

  /** MAIN RESULT. A persistent success on display carries all three evidence flags, and only
      a persistent result with its evidence can put it there while one is active. */
  lemma {:induction false} SuccessIsEvidenced(events: seq<Event>)
    requires AllWellFormed(events)
    ensures var t := After(events).terminal;
            t.Some? && t.value.success && t.value.phase.Some? ==> t.value.phase == Some(SUCCEEDED) && Evidenced(t.value)
  {
    if events != [] {
      hide Update;
      hide PrivacyOk;
      ReachableModelsAreSane(Init(events));
      SuccessIsEvidenced(Init(events));
      StepEvolves(After(Init(events)), Last(events));
    }
  }

  /** What an event asks for: at most one effect, and which one. */
  function Asked(m: Model, e: Event): seq<Effect> {
    match e
    case OperationRequested(id, action, _, kind) =>
      if m.active.Some? then []
      else (
        match action
        case PREPARE_PERSISTENT => (
          match kind
          case None => []
          case Some(ApplyConfig) => [PreparePersistent(id, ApplyConfig, NonEmpty(m.configPath), None)]
          case Some(RestoreBackup) => [PreparePersistent(id, RestoreBackup, None, NonEmpty(m.backupPath))]
          case Some(RestoreBaseline) => [PreparePersistent(id, RestoreBaseline, None, None)])
        case REFRESH => [RequestRefresh(id)]
        case PROFILE_SWITCH =>
          [StartForeground(id, PROFILE_SWITCH, None, Some(m.profileTarget), Some(m.profileConfirmation))]
        case PLAN => [StartForeground(id, PLAN, NonEmpty(m.configPath), None, None)]
        case other => [StartForeground(id, other, None, None, None)])
    case RefreshRequested(id) => if m.active.None? then [RequestRefresh(id)] else []
    case ConfirmationSubmitted(id) => if Submittable(m, id) then [ExecutePrepared(id, m.prepared.value, m.confirmation)]
                                      else []
    case CancellationRequested(id) =>
      if IsCurrent(m, id) && CancellationAvailable(m.active.value) && !NonCancellable(m.active.value) then
        [RequestCancellation(id)]
      else []
    case _ => []
  }

  /** Every gate of an execution is open. */
  predicate Submittable(m: Model, id: OperationId) {
    IsCurrent(m, id) && m.prepared.Some? && m.acknowledged && !m.active.value.executing &&
    !m.active.value.cancelRequested && m.active.value.phase == Some(CONFIRMING) &&
    Strip(m.confirmation) == m.prepared.value.phrase
  }

  /** Effects are asked for exactly as listed, with the inputs typed so far. */
  lemma EffectsAreExact(m: Model, e: Event)
    ensures Update(m, e).1 == Asked(m, e)
  {
    hide Strip;
    hide TextOf;
    hide ClearDisallowed;
  }

  /** A failure ends the operation it belongs to and is displayed with its code, unless the
      operation is in a safety phase or waits to be reviewed. */
  lemma FailureIsDisplayed(m: Model, id: OperationId, error: Error)
    requires IsCurrent(m, id) && !NonCancellable(m.active.value)
    ensures var n := Update(m, PreparationInvalidated(id, error)).0;
            && n.active.None? && n.prepared.None? && n.configPath == n.backupPath == "" && n.route == HOME
            && n.terminal == Some(TerminalState(false, Some(FAILED), Some(error.code), false, false, false))
            && n.lastResult.None? && n.lastError == if Allows(m.surface, error.privacy) then Some(error) else None
    ensures m.active.value.kind.None? || m.active.value.executing || m.active.value.phase == Some(PREPARING) ==>
              var n := Update(m, ApplicationFailed(id, error)).0;
              && n.active.None? && (m.active.value.kind.Some? ==> n.prepared.None?) && n.route == RESULT
              && n.terminal == Some(TerminalState(false, None, Some(error.code), false, false, false))
              && n.lastResult.None? && n.lastError == if Allows(m.surface, error.privacy) then Some(error) else None
    ensures Update(m, WorkerTransportFault(id, error)) == Update(m, ApplicationFailed(id, error))
  {
    hide TextOf;
  }

  /** The end that a result is displayed as. */
  function Display(r: ExecutionResult): TerminalState {
    if r.success && r.terminal == SUCCEEDED && r.writingStarted && r.reconciled && r.postValidated then
      TerminalState(true, Some(SUCCEEDED), None, true, true, true)
    else
      TerminalState(false, Some(FAILED), Some(if r.success || r.code.None? then BACKEND_FAILURE else r.code.value),
                    r.writingStarted, r.reconciled, r.postValidated)
  }

  /** A result that is taken is displayed with its own flags and code, as a success exactly if
      all its evidence agrees, and ends the operation. */
  lemma ResultIsDisplayed(m: Model, id: OperationId, r: ExecutionResult)
    requires IsCurrent(m, id) && m.active.value.executing
    requires m.active.value.kind.Some? ==> r.kind == m.active.value.kind.value
    ensures var n := Update(m, PersistentCompleted(id, r)).0;
            && n.terminal == Some(Display(r)) && n.active.None? && n.prepared.None? && n.route == RESULT
            && (Display(r).success ==> n.lastError.None?)
            && (!Display(r).success ==> n.lastResult.None?)
            && (!Display(r).success && Allows(m.surface, r.privacy) ==>
                  n.lastError.Some? && n.lastError.value.code == Display(r).code.value)
  {
  }

  /** A success shown while a persistent operation was active is that operation's own. */
  lemma PersistentSuccessIsItsOwn(events: seq<Event>, e: Event)
    requires AllWellFormed(events) && After(events).active.Some? && After(events).active.value.kind.Some?
    ensures var m, n := After(events), Update(After(events), e).0;
            n.terminal.Some? && n.terminal.value.success && n.terminal != m.terminal ==>
              && e.PersistentCompleted? && e.id == m.active.value.id && Some(e.result.kind) == m.active.value.kind
              && Consistent(e.result) && Evidenced(n.terminal.value)
  {
    hide Update;
    hide PrivacyOk;
    ReachableModelsAreSane(events);
    StepEvolves(After(events), e);
  }
}
