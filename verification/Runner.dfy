/** `tui/runner.py`: effects are consumed once each, and cancellation is never lost. */
module Runner {
  import opened Bytes
  import opened Models
  import opened Tui
  import TuiRuns

  datatype EffectType = Starting | Preparing | Executing | Cancelling | Refreshing

  function TypeOf(e: Effect): EffectType {
    match e
    case StartForeground(_, _, _, _, _) => Starting
    case PreparePersistent(_, _, _, _) => Preparing
    case ExecutePrepared(_, _, _) => Executing
    case RequestCancellation(_) => Cancelling
    case RequestRefresh(_) => Refreshing
  }

  /** What the application facade answered, or that the call raised. */
  datatype Reply<T> = Answered(value: T) | Declined(error: Error) | Crashed

  datatype Done = Done(message: string, privacy: Privacy)

  const ADAPTER_FAULT :=
    Error(BACKEND_FAILURE, "TUI adapter worker failed before authoritative completion", SHAREABLE, None)

  /** `PersistentProgress` for each observed snapshot, in order. */
  function ProgressEvents(id: OperationId, observed: seq<Snapshot>): seq<Event> {
    if observed == [] then []
    else ProgressEvents(id, observed[..|observed| - 1]) + [PersistentProgress(id, observed[|observed| - 1])]
  }

  predicate InSafetyPhase(observed: seq<Snapshot>) {
    observed != [] &&
    (observed[|observed| - 1].phase.WRITING? || observed[|observed| - 1].phase.RECONCILING? ||
     observed[|observed| - 1].phase.POST_VALIDATING?)
  }

  /** The one event that ends an execution. */
  function ExecutionEnd(id: OperationId, observed: seq<Snapshot>, reply: Reply<ExecutionResult>): Event {
    match reply
    case Answered(result) => PersistentCompleted(id, result)
    case Declined(error) =>
      if InSafetyPhase(observed) then WorkerTransportFault(id, UNRESOLVED) else ApplicationFailed(id, error)
    case Crashed => WorkerTransportFault(id, if InSafetyPhase(observed) then UNRESOLVED else ADAPTER_FAULT)
  }

  /** What the backend announces first, up to `|observed|` phases, for this operation. */
  predicate InOrder(observed: seq<Snapshot>, kind: Kind) {
    |observed| <= 1 + |FULL_TRACE| && (observed != [] ==> observed[0].phase == REVALIDATING) &&
    (forall i :: 1 <= i < |observed| ==> observed[i].phase == FULL_TRACE[i - 1]) &&
    forall i :: 0 <= i < |observed| ==> observed[i].kind == kind
  }

  function PhaseAfter(observed: seq<Snapshot>): Phase {
    if observed == [] then CONFIRMING else observed[|observed| - 1].phase
  }

  predicate Following(m: Model, id: OperationId, kind: Kind, phase: Phase) {
    IsCurrent(m, id) && m.active.value.executing && m.active.value.kind == Some(kind) &&
    m.active.value.phase == Some(phase)
  }

  lemma EngineFollowsOne(m: Model, id: OperationId, s: Snapshot, phase: Phase)
    requires Sane(m) && Following(m, id, s.kind, phase) && NextPhase(phase) == Some(s.phase)
    ensures var n := Update(m, PersistentProgress(id, s)).0;
            Sane(n) && Following(n, id, s.kind, s.phase) && n.prepared == m.prepared
  {
    hide Sane;
    ExecutionIsSane(m, id, s);
  }

  /** The engine follows the phases announced in order, and its preparation stays. */
  lemma {:induction false} EngineFollows(m: Model, id: OperationId, observed: seq<Snapshot>, kind: Kind)
    requires Sane(m) && Following(m, id, kind, CONFIRMING) && InOrder(observed, kind)
    ensures var n := Then(m, ProgressEvents(id, observed));
            Sane(n) && Following(n, id, kind, PhaseAfter(observed)) && n.prepared == m.prepared
  {
    hide Sane;
    hide Update;
    hide Following;
    if observed != [] {
      var init, last := observed[..|observed| - 1], observed[|observed| - 1];
      EngineFollows(m, id, init, kind);
      var events := ProgressEvents(id, observed);
      assert events[..|events| - 1] == ProgressEvents(id, init);
      InOrderStep(observed, kind);
      EngineFollowsOne(Then(m, ProgressEvents(id, init)), id, last, PhaseAfter(init));
    }
  }

  lemma InOrderStep(observed: seq<Snapshot>, kind: Kind)
    requires observed != [] && InOrder(observed, kind)
    ensures NextPhase(PhaseAfter(observed[..|observed| - 1])) == Some(observed[|observed| - 1].phase)
  {
  }

  /** However the report reaches the engine: it keeps the operation open, unresolved, exactly
      if it has followed the execution into a non-cancellable phase. */
  lemma UnresolvedStaysOpen(m: Model, id: OperationId, observed: seq<Snapshot>, reply: Reply<ExecutionResult>)
    requires Sane(m) && IsCurrent(m, id) && m.active.value.executing && !reply.Answered? && InSafetyPhase(observed)
    ensures var n := Update(m, ExecutionEnd(id, observed, reply)).0;
            && (n.active.Some? <==> NonCancellable(m.active.value))
            && (n.active.Some? ==>
                  && IsCurrent(n, id) && n.active.value.unresolved && n.terminal.None?
                  && n.lastError == Some(UNRESOLVED) && n.prepared == m.prepared)
            && (n.active.None? ==> n.terminal.Some? && !n.terminal.value.success)
  {
    hide PrivacyOk;
    hide TextOf;
  }

  /** MAIN RESULT. An execution whose phases were announced in order and that stopped while
      writing is never reported as failed: its outcome is left unresolved. */
  lemma InterruptedWritingStaysOpen(m: Model, id: OperationId, observed: seq<Snapshot>, kind: Kind,
                                    reply: Reply<ExecutionResult>)
    requires Sane(m) && Following(m, id, kind, CONFIRMING)
    requires InOrder(observed, kind) && InSafetyPhase(observed) && !reply.Answered?
    ensures var n := Then(m, ProgressEvents(id, observed) + [ExecutionEnd(id, observed, reply)]);
            && IsCurrent(n, id) && n.active.value.unresolved && n.terminal.None?
            && n.lastError == Some(UNRESOLVED) && n.prepared == m.prepared
  {
    hide Sane;
    hide Update;
    var events := ProgressEvents(id, observed) + [ExecutionEnd(id, observed, reply)];
    assert events[..|events| - 1] == ProgressEvents(id, observed);
    EngineFollows(m, id, observed, kind);
    UnresolvedStaysOpen(Then(m, ProgressEvents(id, observed)), id, observed, reply);
  }

  /** MAIN RESULT. An execution that answers is displayed with the result's own flags and
      code, whatever phases the interface has followed before. */
  lemma AnswerIsDisplayed(m: Model, id: OperationId, observed: seq<Snapshot>, result: ExecutionResult)
    requires Sane(m) && Following(m, id, result.kind, CONFIRMING) && InOrder(observed, result.kind)
    ensures var n := Then(m, ProgressEvents(id, observed) + [ExecutionEnd(id, observed, Answered(result))]);
            n.terminal == Some(TuiRuns.Display(result)) && n.active.None? && n.prepared.None?
  {
    hide Sane;
    hide Update;
    hide TuiRuns.Display;
    var events := ProgressEvents(id, observed) + [ExecutionEnd(id, observed, Answered(result))];
    assert events[..|events| - 1] == ProgressEvents(id, observed);
    EngineFollows(m, id, observed, result.kind);
    TuiRuns.ResultIsDisplayed(Then(m, ProgressEvents(id, observed)), id, result);
  }

  class EffectRunner {
    var dispatched: map<nat, set<EffectType>>
    var retired: nat
    /** A token by issuance; true once cancelled. */
    var tokens: map<nat, bool>
    var pending: set<nat>
    var emitted: seq<Event>
    /** Every issuance and type ever claimed. */
    ghost var claimed: set<(nat, EffectType)>

    ghost predicate Valid()
      reads this
    {
      && (forall i :: i in dispatched ==> i > retired)
      && forall c :: c in claimed ==> c.0 <= retired || (c.0 in dispatched && c.1 in dispatched[c.0])
    }

    constructor ()
      ensures Valid() && claimed == {} && retired == 0 && emitted == [] && tokens == map[] && pending == {}
    {
      dispatched, retired, tokens, pending, emitted, claimed := map[], 0, map[], {}, [], {};
    }

    /** `_claim_effect`. */
    method ClaimEffect(issuance: nat, kind: EffectType) returns (ok: bool)
      requires Valid()
      modifies this`dispatched, this`claimed
      ensures Valid()
      ensures ok ==> (issuance, kind) !in old(claimed) && issuance > retired
      ensures ok <==> issuance > retired && !(issuance in old(dispatched) && kind in old(dispatched)[issuance])
      ensures claimed == if ok then old(claimed) + {(issuance, kind)} else old(claimed)
    {
      if issuance <= retired {
        return false;
      }
      var before := if issuance in dispatched then dispatched[issuance] else {};
      if kind in before {
        return false;
      }
      dispatched := dispatched[issuance := before + {kind}];
      claimed := claimed + {(issuance, kind)};
      return true;
    }

    /** `retire_operation`. */
    method RetireOperation(issuance: nat)
      requires Valid()
      modifies this`dispatched, this`retired, this`tokens, this`pending
      ensures Valid()
      ensures retired == if issuance > old(retired) then issuance else old(retired)
      ensures tokens == old(tokens) - {issuance} && pending == old(pending) - {issuance}
      ensures forall i :: i in dispatched <==> i in old(dispatched) && i > retired
    {
      if issuance > retired {
        retired := issuance;
      }
      dispatched := map i | i in dispatched && i > retired :: dispatched[i];
      tokens := tokens - {issuance};
      pending := pending - {issuance};
    }

    /** `_request_cancellation`: kept for the execution if it has not started yet. */
    method RequestCancellation(id: OperationId)
      modifies this`tokens, this`pending, this`emitted
      ensures id.issuance in old(tokens) ==> tokens == old(tokens)[id.issuance := true] && pending == old(pending)
      ensures id.issuance !in old(tokens) ==> tokens == old(tokens) && pending == old(pending) + {id.issuance}
      ensures emitted == old(emitted) + [CancellationAcknowledged(id)]
    {
      if id.issuance in tokens {
        tokens := tokens[id.issuance := true];
      } else {
        pending := pending + {id.issuance};
      }
      emitted := emitted + [CancellationAcknowledged(id)];
    }

    /** The opening region of `_run_execute`: a cancellation asked for earlier is already set. */
    method OpenToken(issuance: nat)
      modifies this`tokens, this`pending
      ensures tokens == old(tokens)[issuance := issuance in old(pending)]
      ensures pending == old(pending) - {issuance}
    {
      tokens := tokens[issuance := issuance in pending];
      pending := pending - {issuance};
    }

    /** `_run_execute`, for everything the facade may observe and answer. */
    method RunExecute(effect: Effect, observed: seq<Snapshot>, reply: Reply<ExecutionResult>)
      requires effect.ExecutePrepared?
      modifies this`tokens, this`pending, this`emitted
      ensures emitted == old(emitted) + ProgressEvents(effect.id, observed) + [ExecutionEnd(effect.id, observed, reply)]
      ensures tokens == old(tokens) - {effect.id.issuance} && pending == old(pending) - {effect.id.issuance}
    {
      OpenToken(effect.id.issuance);
      var k := 0;
      while k < |observed|
        invariant 0 <= k <= |observed|
        invariant emitted == old(emitted) + ProgressEvents(effect.id, observed[..k])
        invariant effect.id.issuance in tokens
        invariant tokens == old(tokens)[effect.id.issuance := tokens[effect.id.issuance]]
        invariant pending == old(pending) - {effect.id.issuance}
      {
        emitted := emitted + [PersistentProgress(effect.id, observed[k])];
        assert observed[..k + 1][..k] == observed[..k];
        k := k + 1;
      }
      assert observed[..k] == observed;
      emitted := emitted + [ExecutionEnd(effect.id, observed, reply)];
      tokens := tokens - {effect.id.issuance};
      pending := pending - {effect.id.issuance};
    }

    /** `run` for an execution: claimed once, then retired whatever happens. */
    method RunExecutionEffect(effect: Effect, observed: seq<Snapshot>, reply: Reply<ExecutionResult>)
      returns (ran: bool)
      requires Valid() && effect.ExecutePrepared?
      modifies this
      ensures Valid()
      ensures ran ==> (effect.id.issuance, Executing) !in old(claimed) && retired >= effect.id.issuance
      ensures (effect.id.issuance, Executing) in old(claimed) ==> !ran
      ensures !ran ==> emitted == old(emitted) && tokens == old(tokens) && pending == old(pending)
      ensures ran ==>
                emitted ==
                old(emitted) + ProgressEvents(effect.id, observed) + [ExecutionEnd(effect.id, observed, reply)]
      ensures claimed == if ran then old(claimed) + {(effect.id.issuance, Executing)} else old(claimed)
    {
      ran := ClaimEffect(effect.id.issuance, TypeOf(effect));
      if ran {
        RunExecute(effect, observed, reply);
        RetireOperation(effect.id.issuance);
      }
    }

    /** `run` for a cancellation request, which never retires its operation. */
    method RunCancellationEffect(effect: Effect) returns (ran: bool)
      requires Valid() && effect.RequestCancellation?
      modifies this
      ensures Valid() && retired == old(retired)
      ensures (effect.id.issuance, Cancelling) in old(claimed) ==> !ran
      ensures ran ==> emitted == old(emitted) + [CancellationAcknowledged(effect.id)]
      ensures !ran ==> emitted == old(emitted) && tokens == old(tokens) && pending == old(pending)
      ensures ran && effect.id.issuance !in old(tokens) ==> effect.id.issuance in pending
      ensures ran && effect.id.issuance in old(tokens) ==> effect.id.issuance in tokens && tokens[effect.id.issuance]
    {
      ran := ClaimEffect(effect.id.issuance, TypeOf(effect));
      if ran {
        RequestCancellation(effect.id);
      }
    }

    /** `run` for a preparation: only a successful one keeps its operation unretired. */
    method RunPrepareEffect(effect: Effect, reply: Reply<Prepared>) returns (ran: bool)
      requires Valid() && effect.PreparePersistent?
      modifies this
      ensures Valid()
      ensures (effect.id.issuance, Preparing) in old(claimed) ==> !ran
      ensures !ran ==> emitted == old(emitted) && retired == old(retired)
      ensures ran ==> emitted == old(emitted) + [OperationStarted(effect.id), PreparationEnd(effect, reply)]
      ensures ran ==> (retired >= effect.id.issuance <==> !PreparationEnd(effect, reply).PreparedReceived?)
    {
      ran := ClaimEffect(effect.id.issuance, TypeOf(effect));
      if ran {
        emitted := emitted + [OperationStarted(effect.id)];
        emitted := emitted + [PreparationEnd(effect, reply)];
        if !PreparationEnd(effect, reply).PreparedReceived? {
          RetireOperation(effect.id.issuance);
        }
      }
    }
  }

  const MISSING_CONFIG := Error(INVALID_INPUT, "config path is required for apply preparation", SHAREABLE, None)
  const MISSING_BACKUP := Error(INVALID_INPUT, "backup path is required for restore preparation", SHAREABLE, None)

  /** The event that ends a preparation; a missing path is refused before the facade is asked. */
  function PreparationEnd(effect: Effect, reply: Reply<Prepared>): Event
    requires effect.PreparePersistent?
  {
    if effect.kind == ApplyConfig && (effect.configPath == None || effect.configPath == Some("")) then
      ApplicationFailed(effect.id, MISSING_CONFIG)
    else if effect.kind == RestoreBackup && (effect.backupPath == None || effect.backupPath == Some("")) then
      ApplicationFailed(effect.id, MISSING_BACKUP)
    else
      match reply
      case Answered(prepared) => PreparedReceived(effect.id, prepared)
      case Declined(error) => ApplicationFailed(effect.id, error)
      case Crashed => WorkerTransportFault(effect.id, ADAPTER_FAULT)
  }
}
