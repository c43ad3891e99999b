/** Every interleaving of preparing, executing, evicting and losing owners: what the lock
    regions of the registry and the process-wide claim achieve together. */
module Issuance {
  import opened Bytes
  import opened Ids
  import opened Models
  import opened Registry
  import opened Text

  datatype Pc = Checked | Claimed | Executing(intent: string) | Ran | Leaving

  /** One call of `execute_prepared` that has passed its first checks. */
  datatype Call = Call(owner: nat, prepared: Prepared, confirmation: string, at: Pc)

  datatype Issue = Issue(owner: nat, public: Prepared, intent: string)

  /** One call of `backend.execute_persistent`. */
  datatype Execution = Execution(owner: nat, prepared: Prepared, confirmation: string, intent: string)

  /** The registry, the owners already collected, the holder of the coordinator's claim, the
      calls in progress by thread, and the history of issuances and executions. */
  datatype World = World(
    reg: State,
    dead: set<nat>,
    holder: Option<nat>,
    calls: map<nat, Call>,
    issued: map<string, Issue>,
    log: seq<Execution>)

  datatype Action =
    | Prepare(owner: nat, public: Prepared, intent: string)
    | OwnerDies(owner: nat)
    | Begin(thread: nat, owner: nat, prepared: Prepared, confirmation: string)
    | Claim(thread: nat)
    | AcceptCall(thread: nat)
    | Execute(thread: nat, cancelled: bool)
    | FinishCall(thread: nat)
    | Release(thread: nat)
    | ClaimElsewhere(thread: nat)
    | ReleaseElsewhere(thread: nat)

  function At(w: World, t: nat, pc: Pc): World
    requires t in w.calls
  {
    w.(calls := w.calls[t := w.calls[t].(at := pc)])
  }

  /** `_register`. */
  function DoPrepare(w: World, owner: nat, public: Prepared, intent: string): World {
    if owner in w.dead then w
    else
      var (reg, answer) := Register(w.reg, w.dead, owner, public, intent);
      match answer
      case Ok(issued) => w.(reg := reg, issued := w.issued[issued.id := Issue(owner, issued, intent)])
      case Err(_) => w.(reg := reg)
  }

  /** The confirmation check and the first locked region. */
  function DoBegin(w: World, t: nat, owner: nat, prepared: Prepared, confirmation: string): World {
    if t in w.calls || w.holder == Some(t) || owner in w.dead || Strip(confirmation) != prepared.phrase then w
    else
      var reg := Reclaim(w.reg, w.dead);
      if Check(reg, owner, prepared) != Passed then w.(reg := reg)
      else w.(reg := reg, calls := w.calls[t := Call(owner, prepared, confirmation, Checked)])
  }

  /** `coordinator.claim()`, which never waits. */
  function DoClaim(w: World, t: nat): World {
    if t !in w.calls || w.calls[t].at != Checked then w
    else if w.holder.Some? then w.(calls := w.calls - {t})
    else At(w, t, Claimed).(holder := Some(t))
  }

  /** The second locked region. */
  function DoAccept(w: World, t: nat): World {
    if t !in w.calls || w.calls[t].at != Claimed then w
    else
      var call := w.calls[t];
      var reg := Reclaim(w.reg, w.dead);
      var k := IndexOf(reg.active, call.prepared.id);
      if Recheck(reg, call.owner, call.prepared) != Passed || k == |reg.active| then At(w, t, Leaving).(reg := reg)
      else At(w, t, Executing(reg.active[k].intent)).(reg := Accept(reg, call.prepared.id))
  }

  /** `_execute_accepted`: the backend is called unless the token is already set. */
  function DoExecute(w: World, t: nat, cancelled: bool): World {
    if t !in w.calls || !w.calls[t].at.Executing? then w
    else
      var call := w.calls[t];
      var ran := At(w, t, Ran);
      if cancelled then ran
      else ran.(log := w.log + [Execution(call.owner, call.prepared, call.confirmation, call.at.intent)])
  }

  /** `_finish_accepted_record`, in the `finally` block. */
  function DoFinish(w: World, t: nat): World {
    if t !in w.calls || w.calls[t].at != Ran then w
    else At(w, t, Leaving).(reg := Finish(w.reg, w.dead, w.calls[t].prepared.id))
  }

  function Do(w: World, a: Action): World {
    match a
    case Prepare(owner, public, intent) => DoPrepare(w, owner, public, intent)
    case OwnerDies(owner) =>
      if exists t :: t in w.calls && w.calls[t].owner == owner then w else w.(dead := w.dead + {owner})
    case Begin(t, owner, prepared, confirmation) => DoBegin(w, t, owner, prepared, confirmation)
    case Claim(t) => DoClaim(w, t)
    case AcceptCall(t) => DoAccept(w, t)
    case Execute(t, cancelled) => DoExecute(w, t, cancelled)
    case FinishCall(t) => DoFinish(w, t)
    case Release(t) =>
      if t !in w.calls || w.calls[t].at != Leaving then w else w.(holder := None, calls := w.calls - {t})
    case ClaimElsewhere(t) => if t in w.calls || w.holder.Some? then w else w.(holder := Some(t))
    case ReleaseElsewhere(t) => if t in w.calls || w.holder != Some(t) then w else w.(holder := None)
  }

  /** Any finite run from the empty registry. */
  function Run(actions: seq<Action>): World {
    if actions == [] then World(State([], [], 0), {}, None, map[], map[], [])
    else Do(Run(actions[..|actions| - 1]), actions[|actions| - 1])
  }

  // ---------------------------------------------------------------- the invariant

  predicate Inside(call: Call) {
    call.at != Checked
  }

  /** An entry is executing only for the call that holds the claim. */
  predicate HeldBy(w: World, e: Entry) {
    w.holder.Some? && w.holder.value in w.calls &&
    var call := w.calls[w.holder.value];
    (call.at.Executing? || call.at.Ran?) && call.prepared.id == e.id
  }

  ghost predicate EntriesOk(w: World) {
    forall e :: e in w.reg.active ==>
      && e.id in w.issued && w.issued[e.id] == Issue(e.owner, e.public, e.intent)
      && (e.executing <==> e.consumed) && (e.executing ==> HeldBy(w, e))
  }

  /** A call about to execute owns its entry, which is the issued one and has not run. */
  ghost predicate CallOk(w: World, t: nat)
    requires t in w.calls
  {
    var call := w.calls[t];
    && Strip(call.confirmation) == call.prepared.phrase
    && (Inside(call) <==> w.holder == Some(t))
    && (call.at.Executing? ==>
          && Entry(call.prepared.id, call.owner, call.prepared, call.at.intent, true, true) in w.reg.active
          && forall x :: x in w.log ==> x.prepared.id != call.prepared.id)
  }

  ghost predicate CallsOk(w: World) {
    forall t :: t in w.calls ==> CallOk(w, t)
  }

  ghost predicate LogOk(w: World) {
    && (forall x :: x in w.log ==>
          && x.prepared.id in w.issued && w.issued[x.prepared.id] == Issue(x.owner, x.prepared, x.intent)
          && Strip(x.confirmation) == x.prepared.phrase
          && forall e :: e in w.reg.active && e.id == x.prepared.id ==> e.consumed)
    && forall i, j :: 0 <= i < j < |w.log| ==> w.log[i].prepared.id != w.log[j].prepared.id
  }

  ghost predicate IssuedOk(w: World) {
    forall id :: id in w.issued ==> SerialOf(id) < w.reg.next && w.issued[id].public.id == id
  }

  ghost predicate Inv(w: World) {
    Sound(w.reg) && EntriesOk(w) && CallsOk(w) && LogOk(w) && IssuedOk(w)
  }

  /** Regions that only drop idle entries keep everything. */
  lemma ShrinkingKeepsInv(w: World, reg: State)
    requires Inv(w) && Sound(reg) && Shrunk(w.reg, reg)
    ensures Inv(w.(reg := reg))
  {
    hide Sound;
    var v := w.(reg := reg);
    forall t | t in v.calls
      ensures CallOk(v, t)
    {
      assert CallOk(w, t);
    }
    assert forall e :: e in reg.active ==> HeldBy(v, e) == HeldBy(w, e);
  }

  lemma PrepareKeepsInv(w: World, owner: nat, public: Prepared, intent: string)
    requires Inv(w)
    ensures Inv(DoPrepare(w, owner, public, intent))
  {
    hide Sound;
    hide Register;
    hide SerialOf;
    var v := DoPrepare(w, owner, public, intent);
    RegisterIsSound(w.reg, w.dead, owner, public, intent);
    var (reg, answer) := Register(w.reg, w.dead, owner, public, intent);
    if owner in w.dead {
    } else if answer.Err? {
      ShrinkingKeepsInv(w, reg);
    } else {
      var entry := reg.active[|reg.active| - 1];
      SerialIsRecovered(public.id, w.reg.next);
      assert entry.id !in w.issued;
      forall t | t in v.calls
        ensures CallOk(v, t)
      {
        assert CallOk(w, t);
      }
      assert forall e :: e in w.reg.active ==> HeldBy(v, e) == HeldBy(w, e);
    }
  }

  lemma SameLog(w: World, v: World, u: World)
    requires LogOk(w) && LogOk(v) && u.log == v.log == w.log && u.issued == v.issued == w.issued
    requires u.reg == v.reg || u.reg == w.reg
    ensures LogOk(u)
  {
  }

  lemma BeginKeepsInv(w: World, t: nat, owner: nat, prepared: Prepared, confirmation: string)
    requires Inv(w)
    ensures Inv(DoBegin(w, t, owner, prepared, confirmation))
  {
    hide Sound;
    hide Reclaim;
    hide Strip;
    ReclaimIsSound(w.reg, w.dead);
    var v := w.(reg := Reclaim(w.reg, w.dead));
    ShrinkingKeepsInv(w, v.reg);
    var u := DoBegin(w, t, owner, prepared, confirmation);
    hide IssuedOk;
    hide LogOk;
    assert u.reg == w.reg || u.reg == v.reg;
    assert CallsOk(u) by {
      forall s | s in u.calls
        ensures CallOk(u, s)
      {
        if s in v.calls {
          assert CallOk(v, s) && CallOk(w, s);
        }
      }
    }
    assert EntriesOk(u) by {
      assert forall e :: e in u.reg.active ==> HeldBy(w, e) ==> HeldBy(u, e);
    }
    assert LogOk(u) by {
      SameLog(w, v, u);
    }
    hide CallsOk;
    hide EntriesOk;
  }

  lemma ClaimKeepsInv(w: World, t: nat)
    requires Inv(w)
    ensures Inv(DoClaim(w, t))
  {
    hide Sound;
    hide Strip;
    var v := DoClaim(w, t);
    forall s | s in v.calls
      ensures CallOk(v, s)
    {
      assert CallOk(w, s);
    }
    if t in w.calls {
      assert CallOk(w, t);
    }
    assert forall e :: e in w.reg.active ==> HeldBy(w, e) ==> HeldBy(v, e);
  }

  /** Acceptance of an entry nobody has consumed, once the dead are reclaimed. */
  lemma PassingKeepsInv(w: World, t: nat, e: Entry)
    requires Inv(w) && t in w.calls && w.calls[t].at == Claimed
    requires e in w.reg.active && !e.consumed && e.id == w.calls[t].prepared.id
    requires e.owner == w.calls[t].owner && e.public == w.calls[t].prepared
    ensures Inv(At(w, t, Executing(e.intent)).(reg := Accept(w.reg, e.id)))
  {
    hide Strip;
    hide Accept;
    hide Sound;
    AcceptIsSound(w.reg, e.id);
    IndexOfEntry(w.reg, e);
    assert CallOk(w, t);
    assert forall x :: x in w.reg.active ==> !x.executing;
    var v := At(w, t, Executing(e.intent)).(reg := Accept(w.reg, e.id));
    var accepted := e.(consumed := true, executing := true);
    forall x | x in v.reg.active && x.id == e.id
      ensures x == accepted
    {
      SameIdSameEntry(v.reg, x, accepted);
    }
    assert CallsOk(v) by {
      forall s | s in v.calls
        ensures CallOk(v, s)
      {
        assert CallOk(w, s);
      }
    }
    assert EntriesOk(v);
    hide CallsOk;
    hide EntriesOk;
  }

  lemma AcceptKeepsInv(w: World, t: nat)
    requires Inv(w)
    ensures Inv(DoAccept(w, t))
  {
    hide Sound;
    hide Strip;
    hide Reclaim;
    if t !in w.calls || w.calls[t].at != Claimed {
      return;
    }
    var reg := Reclaim(w.reg, w.dead);
    var u := w.(reg := reg);
    ReclaimIsSound(w.reg, w.dead);
    ShrinkingKeepsInv(w, reg);
    var k := IndexOf(reg.active, w.calls[t].prepared.id);
    if k < |reg.active| && Recheck(reg, w.calls[t].owner, w.calls[t].prepared) == Passed {
      PassingKeepsInv(u, t, reg.active[k]);
    } else {
      LeavingKeepsInv(u, t);
    }
  }

  /** Leaving without having executed. */
  lemma LeavingKeepsInv(w: World, t: nat)
    requires Inv(w) && t in w.calls && w.calls[t].at == Claimed
    ensures Inv(At(w, t, Leaving))
  {
    hide Sound;
    hide Strip;
    var v := At(w, t, Leaving);
    assert CallOk(w, t);
    forall s | s in v.calls
      ensures CallOk(v, s)
    {
      assert CallOk(w, s);
    }
    assert forall e :: e in w.reg.active ==> !e.executing;
  }

  lemma LogGrows(w: World, v: World, x: Execution)
    requires LogOk(w) && v.log == w.log + [x] && v.reg == w.reg && v.issued == w.issued
    requires x.prepared.id in w.issued && w.issued[x.prepared.id] == Issue(x.owner, x.prepared, x.intent)
    requires Strip(x.confirmation) == x.prepared.phrase
    requires forall y :: y in w.log ==> y.prepared.id != x.prepared.id
    requires forall e :: e in w.reg.active && e.id == x.prepared.id ==> e.consumed
    ensures LogOk(v)
  {
    hide Strip;
    assert forall i :: 0 <= i < |w.log| ==> w.log[i] in w.log;
  }

  lemma ExecuteKeepsInv(w: World, t: nat, cancelled: bool)
    requires Inv(w)
    ensures Inv(DoExecute(w, t, cancelled))
  {
    hide Strip;
    if t !in w.calls || !w.calls[t].at.Executing? {
      return;
    }
    assert CallOk(w, t);
    var v := DoExecute(w, t, cancelled);
    var call := w.calls[t];
    var mine := Entry(call.prepared.id, call.owner, call.prepared, call.at.intent, true, true);
    forall e | e in w.reg.active && e.id == mine.id
      ensures e == mine
    {
      SameIdSameEntry(w.reg, e, mine);
    }
    hide Sound;
    assert CallsOk(v) by {
      hide LogOk;
      forall s | s in v.calls
        ensures CallOk(v, s)
      {
        assert CallOk(w, s);
      }
    }
    assert EntriesOk(v) by {
      hide LogOk;
      assert forall e :: e in w.reg.active ==> HeldBy(w, e) ==> HeldBy(v, e);
    }
    assert mine in w.reg.active;
    if !cancelled {
      LogGrows(w, v, Execution(call.owner, call.prepared, call.confirmation, call.at.intent));
    }
    hide CallsOk;
    hide EntriesOk;
    hide IssuedOk;
    hide LogOk;
  }

  lemma FinishKeepsInv(w: World, t: nat)
    requires Inv(w)
    ensures Inv(DoFinish(w, t))
  {
    hide Sound;
    hide Strip;
    hide Finish;
    if t !in w.calls || w.calls[t].at != Ran {
      return;
    }
    assert CallOk(w, t);
    FinishIsSound(w.reg, w.dead, w.calls[t].prepared.id);
    var v := DoFinish(w, t);
    forall s | s in v.calls
      ensures CallOk(v, s)
    {
      assert CallOk(w, s);
    }
  }

  lemma ReleaseKeepsInv(w: World, t: nat)
    requires Inv(w)
    ensures Inv(Do(w, Release(t)))
  {
    hide Sound;
    hide Strip;
    if t in w.calls {
      assert CallOk(w, t);
    }
    var released := Do(w, Release(t));
    forall s | s in released.calls
      ensures CallOk(released, s)
    {
      assert CallOk(w, s);
    }
  }

  lemma ElsewhereKeepsInv(w: World, t: nat)
    requires Inv(w)
    ensures Inv(Do(w, ClaimElsewhere(t))) && Inv(Do(w, ReleaseElsewhere(t)))
  {
    hide Sound;
    hide Strip;
    var claimed, freed := Do(w, ClaimElsewhere(t)), Do(w, ReleaseElsewhere(t));
    forall s | s in w.calls
      ensures CallOk(claimed, s) && CallOk(freed, s)
    {
      assert CallOk(w, s);
    }
  }

  lemma StepKeepsInv(w: World, a: Action)
    requires Inv(w)
    ensures Inv(Do(w, a))
  {
    match a {
      case Prepare(owner, public, intent) => PrepareKeepsInv(w, owner, public, intent);
      case OwnerDies(owner) => DeathKeepsInv(w, owner);
      case Begin(t, owner, prepared, confirmation) => BeginKeepsInv(w, t, owner, prepared, confirmation);
      case Claim(t) => ClaimKeepsInv(w, t);
      case AcceptCall(t) => AcceptKeepsInv(w, t);
      case Execute(t, cancelled) => ExecuteKeepsInv(w, t, cancelled);
      case FinishCall(t) => FinishKeepsInv(w, t);
      case Release(t) => ReleaseKeepsInv(w, t);
      case ClaimElsewhere(t) => ElsewhereKeepsInv(w, t);
      case ReleaseElsewhere(t) => ElsewhereKeepsInv(w, t);
    }
  }

  lemma DeathKeepsInv(w: World, owner: nat)
    requires Inv(w)
    ensures Inv(w.(dead := w.dead + {owner}))
  {
    hide Sound;
    hide Strip;
    var v := w.(dead := w.dead + {owner});
    forall s | s in w.calls
      ensures CallOk(v, s)
    {
      assert CallOk(w, s);
    }
    assert forall e :: e in w.reg.active ==> HeldBy(w, e) ==> HeldBy(v, e);
  }

  lemma {:induction false} EveryRunKeepsInv(actions: seq<Action>)
    ensures Inv(Run(actions))
  {
    if actions != [] {
      EveryRunKeepsInv(actions[..|actions| - 1]);
      StepKeepsInv(Run(actions[..|actions| - 1]), actions[|actions| - 1]);
    }
  }

  // ---------------------------------------------------------------- what every run achieves

  /** MAIN RESULT. Over every interleaving, each issued intent reaches the backend at most
      once, only for the owner it was issued to, only with the prepared value it was issued
      with, and only after that value's phrase was typed. */
  lemma EachIntentRunsOnce(actions: seq<Action>, i: nat, j: nat)
    requires i < |Run(actions).log| && j < |Run(actions).log|
    ensures var w := Run(actions);
            var x := w.log[i];
            && (w.log[j].prepared.id == x.prepared.id ==> i == j)
            && x.prepared.id in w.issued && w.issued[x.prepared.id] == Issue(x.owner, x.prepared, x.intent)
            && Strip(x.confirmation) == x.prepared.phrase
  {
    hide Run;
    hide Strip;
    EveryRunKeepsInv(actions);
    var w := Run(actions);
    assert w.log[i] in w.log;
    assert i < j ==> w.log[i].prepared.id != w.log[j].prepared.id;
  }

  /** MAIN RESULT. The registry stays within its bounds, its two maps share no key, and the
      active entries stand in issuance order. */
  lemma EveryRunIsSound(actions: seq<Action>)
    ensures Sound(Run(actions).reg)
  {
    hide Sound;
    EveryRunKeepsInv(actions);
  }

  /** MAIN RESULT. Because one claim is shared by the whole process, at most one entry is
      ever executing; so registering for a living owner always finds room and never
      collides. */
  lemma RegistrationNeverFails(actions: seq<Action>, owner: nat, public: Prepared, intent: string)
    ensures var w := Run(actions);
            Register(w.reg, w.dead, owner, public, intent).1.Ok?
  {
    hide Run;
    hide Register;
    EveryRunKeepsInv(actions);
    var w := Run(actions);
    RegisterIsSound(w.reg, w.dead, owner, public, intent);
    OneExecutes(w);
  }

  lemma OneExecutes(w: World)
    requires Inv(w)
    ensures forall a, b :: a in w.reg.active && b in w.reg.active && a.executing && b.executing ==> a == b
    ensures |w.reg.active| == MAX_ACTIVE ==> exists e :: e in w.reg.active && !e.executing
  {
    hide SerialOf;
    forall a, b | a in w.reg.active && b in w.reg.active && a.executing && b.executing
      ensures a == b
    {
      assert HeldBy(w, a) && HeldBy(w, b);
      SameIdSameEntry(w.reg, a, b);
    }
    if |w.reg.active| == MAX_ACTIVE {
      var a, b := w.reg.active[0], w.reg.active[1];
      assert a in w.reg.active && b in w.reg.active;
      ByAge(w.reg.active, 0, 1);
      assert !a.executing || !b.executing;
    }
  }

  /** An entry that is executing survives every step but its own finish. */
  lemma ExecutingSurvives(w: World, a: Action, e: Entry)
    requires Inv(w) && e in w.reg.active && e.executing
    requires !a.FinishCall? || w.holder != Some(a.thread)
    ensures e in Do(w, a).reg.active
  {
    hide SerialOf;
    hide Register;
    hide Reclaim;
    hide Sound;
    hide Strip;
    hide Accept;
    hide Finish;
    ReclaimIsSound(w.reg, w.dead);
    assert HeldBy(w, e);
    match a {
      case Prepare(owner, public, intent) =>
        RegisterIsSound(w.reg, w.dead, owner, public, intent);
        assert Do(w, a).reg == if owner in w.dead then w.reg else Register(w.reg, w.dead, owner, public, intent).0;
      case AcceptCall(t) =>
        if t in w.calls {
          assert CallOk(w, t);
        }
      case FinishCall(t) =>
        if t in w.calls {
          assert CallOk(w, t);
        }
      case _ =>
    }
  }
}
