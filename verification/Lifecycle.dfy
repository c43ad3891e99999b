/** `_execute_accepted`: turning whatever a backend announced and returned into a result. */
module Lifecycle {
  import opened Bytes
  import opened Models
  import opened Device
  import opened Transaction
  import Backend
  import Persist
  import Validator

  /** How `backend.execute_persistent` ended; its flags are not yet believed. */
  datatype BackendEnd =
    | Returned(reconciled: bool, postValidated: bool)
    | RaisedCancellation
    | RaisedFailure(reconciled: bool, postValidated: bool)
    | RaisedOther

  /** `emit`: a phase repeated at once is recorded once. */
  function Emit(trace: seq<Phase>, phase: Phase): seq<Phase> {
    if trace == [] || trace[|trace| - 1] != phase then trace + [phase] else trace
  }

  /** Every phase announced, in order, with immediate repeats collapsed. */
  function EmitAll(trace: seq<Phase>, announced: seq<Phase>): seq<Phase> {
    if announced == [] then trace
    else Emit(EmitAll(trace, announced[..|announced| - 1]), announced[|announced| - 1])
  }

  predicate NoRepeats(trace: seq<Phase>) {
    forall i :: 0 <= i < |trace| - 1 ==> trace[i] != trace[i + 1]
  }

  /** The trace records exactly the announced phases and never the same one twice in a row. */
  lemma {:induction false} TraceIsFaithful(trace: seq<Phase>, announced: seq<Phase>, phase: Phase)
    requires NoRepeats(trace)
    ensures NoRepeats(EmitAll(trace, announced)) && trace <= EmitAll(trace, announced)
    ensures phase in EmitAll(trace, announced) <==> phase in trace || phase in announced
  {
    if announced != [] {
      var last := announced[|announced| - 1];
      TraceIsFaithful(trace, announced[..|announced| - 1], phase);
      assert announced == announced[..|announced| - 1] + [last];
    }
  }

  const ACCEPTED: seq<Phase> := [CONFIRMING, REVALIDATING]
  const REQUIRED: set<Phase> := {ARMED, WRITING, RECONCILING, POST_VALIDATING}

  /** `_terminal`. */
  function Terminal(kind: Kind, success: bool, status: Status, code: Option<ErrorCode>, message: string,
                    trace: seq<Phase>, writingStarted: bool, reconciled: bool, postValidated: bool)
    : (r: ExecutionResult)
    ensures r.trace != [] && r.trace[|r.trace| - 1] == r.terminal && trace <= r.trace <= trace + [r.terminal]
    ensures r.terminal == if success then SUCCEEDED else FAILED
  {
    var terminal := if success then SUCCEEDED else FAILED;
    ExecutionResult(kind, terminal, success, status, writingStarted, reconciled, postValidated, code, message,
                    Emit(trace, terminal), LOCAL_SENSITIVE)
  }

  const CANCELLED_EARLY := "operation cancelled during revalidation"
  const CANCELLED_LATE := "operation cancelled before the first persistent write"
  const REFUSED := "persistent operation refused or failed"
  const COMPLETED := "persistent operation completed and fully validated"

  /** The refusal shared by every failing end. */
  function Refused(kind: Kind, trace: seq<Phase>, reconciled: bool, postValidated: bool): ExecutionResult {
    Terminal(kind, false, if WRITING in trace then FailedAfterWrite else RevalidationRefused, Some(BACKEND_FAILURE),
             REFUSED, trace, WRITING in trace, reconciled, postValidated && reconciled)
  }

  /** The trace as the backend's announcements extend it. */
  method Observe(announced: seq<Phase>) returns (trace: seq<Phase>)
    ensures trace == EmitAll(ACCEPTED, announced)
    ensures forall p :: p in REQUIRED ==> (p in trace <==> p in announced)
  {
    trace := ACCEPTED;
    var i := 0;
    while i < |announced|
      invariant 0 <= i <= |announced|
      invariant trace == EmitAll(ACCEPTED, announced[..i])
    {
      trace := Emit(trace, announced[i]);
      assert announced[..i + 1][..i] == announced[..i];
      i := i + 1;
    }
    assert announced[..i] == announced;
    forall p | p in REQUIRED
      ensures p in trace <==> p in announced
    {
      TraceIsFaithful(ACCEPTED, announced, p);
    }
  }

  predicate ClaimsReconciled(end: BackendEnd) {
    (end.Returned? || end.RaisedFailure?) && end.reconciled
  }

  predicate ClaimsValidated(end: BackendEnd) {
    (end.Returned? || end.RaisedFailure?) && end.postValidated
  }

  /** `_execute_accepted`, for a backend that announces any phases in any order and ends in
      any way. */
  method ExecuteAccepted(kind: Kind, cancelled: bool, announced: seq<Phase>, end: BackendEnd)
    returns (r: ExecutionResult)
    ensures r.trace == Emit(EmitAll(ACCEPTED, if cancelled then [] else announced), r.terminal)
    ensures r.success <==> !cancelled && (forall p :: p in REQUIRED ==> p in announced) && end == Returned(true, true)
    ensures r.success <==> r.code == None
    ensures r.kind == kind && r.privacy == LOCAL_SENSITIVE
    ensures r.terminal == if r.success then SUCCEEDED else FAILED
    ensures r.reconciled <==> !cancelled && ClaimsReconciled(end)
    ensures r.postValidated <==> r.reconciled && ClaimsValidated(end)
    ensures r.writingStarted <==> !cancelled && WRITING in announced
    ensures r.code == if r.success then None
                      else if cancelled || end == RaisedCancellation then Some(CANCELLED) else Some(BACKEND_FAILURE)
    // The status says how far it came, the message what ended it.
    ensures r.status == if r.success then Completed
                        else if r.code == Some(CANCELLED) then CancelledBeforeWrite
                        else if r.writingStarted then FailedAfterWrite else RevalidationRefused
    ensures r.message == if r.success then COMPLETED
                         else if cancelled then CANCELLED_EARLY
                         else if end == RaisedCancellation then CANCELLED_LATE else REFUSED
  {
    hide Emit;
    var trace := ACCEPTED;
    if cancelled {
      r := Terminal(kind, false, CancelledBeforeWrite, Some(CANCELLED), CANCELLED_EARLY, trace, false, false, false);
    } else {
      trace := Observe(announced);
      var writing := WRITING in trace;
      match end {
        case RaisedCancellation =>
          r := Terminal(kind, false, CancelledBeforeWrite, Some(CANCELLED), CANCELLED_LATE, trace, writing, false,
                        false);
        case RaisedFailure(reconciled, postValidated) =>
          r := Refused(kind, trace, reconciled, postValidated);
        case RaisedOther =>
          r := Refused(kind, trace, false, false);
        case Returned(reconciled, postValidated) =>
          var complete := ARMED in trace && WRITING in trace && RECONCILING in trace && POST_VALIDATING in trace;
          r := if reconciled && postValidated && complete
          then Terminal(kind, true, Completed, None, COMPLETED, trace, true, true, true)
          else Refused(kind, trace, reconciled, postValidated);
      }
    }
  }

  /** How the real backend's outcome reaches this layer. */
  function EndOf(o: Backend.Outcome): BackendEnd {
    match o
    case Finished => Returned(true, true)
    case Stopped => RaisedCancellation
    case Failed(reconciled, postValidated) => RaisedFailure(reconciled, postValidated)
  }

  /** With the real backend's phases, success is reported exactly when the backend finished,
      and a cancelled operation never claims to have started writing. */
  method ReportReal(kind: Kind, phases: seq<Phase>, o: Backend.Outcome) returns (r: ExecutionResult)
    requires phases <= FULL_TRACE
    requires o.Finished? || (o.Failed? && o.reconciled) ==> phases == FULL_TRACE
    requires o.Stopped? ==> phases <= [ARMED]
    ensures r.success <==> o.Finished?
    ensures r.reconciled <==> o.Finished? || (o.Failed? && o.reconciled)
    ensures r.postValidated <==> o.Finished? || (o.Failed? && o.reconciled && o.postValidated)
    ensures r.code == Some(CANCELLED) <==> o.Stopped?
    ensures r.status == FailedAfterWrite <==> o.Failed? && WRITING in phases
    ensures r.status == RevalidationRefused <==> o.Failed? && WRITING !in phases
    ensures r.writingStarted <==> WRITING in phases
    ensures r.code == Some(CANCELLED) ==> !r.writingStarted
    ensures r.trace == ACCEPTED + phases + [r.terminal]
  {
    hide EmitAll;
    r := ExecuteAccepted(kind, false, phases, EndOf(o));
    var n := |phases|;
    assert phases == FULL_TRACE[..n];
    CollapsesNothing(n);
    if n > 0 {
      assert phases[n - 1] in FULL_TRACE;
    }
    assert EmitAll(ACCEPTED, phases) == ACCEPTED + phases;
  }

  lemma CollapsesNothing(n: nat)
    requires n <= 4
    ensures EmitAll(ACCEPTED, FULL_TRACE[..n]) == ACCEPTED + FULL_TRACE[..n]
  {
    if n > 0 {
      CollapsesNothing(n - 1);
      assert FULL_TRACE[..n][..n - 1] == FULL_TRACE[..n - 1];
    }
  }

  /** MAIN RESULT. An accepted operation from end to end, on any device and with any
      cancellation timing: what the result claims is true of the device. */
  method ExecuteAndReport(mouse: Mouse, hooks: Hooks, intent: Backend.Intent, world: Backend.World)
    returns (r: ExecutionResult)
    requires mouse.Valid() && Backend.WellFormed(intent, world) && hooks.phases == [] == hooks.polled && !hooks.seen
    modifies mouse, hooks
    // No claim of writing, and in particular no cancellation, without an untouched device.
    ensures !r.writingStarted ==> mouse.history == old(mouse.history)
    ensures r.code == Some(CANCELLED) ==> !r.writingStarted && mouse.sectors == old(mouse.sectors)
    ensures r.code == Some(CANCELLED) <==> hooks.seen
    // Reconciled means the target is there; success means the device validates as well.
    ensures r.reconciled ==> Persist.Holds(mouse.sectors, Backend.Aim(intent, world), world.baseline)
    ensures r.success ==> r.reconciled && r.postValidated && r.writingStarted
    ensures r.success ==> Validator.CleanImages(Persist.Whole(mouse.sectors), world.baseline)
    ensures r.trace == ACCEPTED + hooks.phases + [r.terminal]
  {
    hide Backend.WellFormed;
    hide Backend.Aim;
    hide Backend.Undisturbed;
    hide Backend.StillBound;
    hide Persist.Holds;
    hide Persist.SameManaged;
    hide Progress;
    hide Validator.CleanImages;
    hide EmitAll;
    ghost var staging;
    var o;
    o, staging := Backend.ExecuteReal(mouse, hooks, intent, world);
    r := ReportReal(intent.kind, hooks.phases, o);
  }
}
