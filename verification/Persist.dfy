/** `apply_plan`, `restore_backup` and `restore_baseline`: what surrounds the shared writes. */
module Persist {
  import opened Bytes
  import opened Device
  import opened Directory
  import opened Models
  import opened Plan
  import opened Profile
  import opened Transaction
  import PlanValid
  import Validator

  /** Every managed sector holds its target, and the recovery sectors are the baseline's. */
  predicate Holds(m: Memory, target: Images, baseline: Images) {
    |m| == SECTOR_COUNT && (forall s :: s in PROGRAMMABLE ==> s in target && m[s] == target[s]) &&
    forall s :: s in RECOVERY ==> s in baseline && m[s] == baseline[s]
  }

  function Whole(m: Memory): Images {
    map s: nat | s < |m| :: m[s]
  }

  /** What every transaction keeps, however it ends: the run is safe up to wherever it
      stopped, writes begin only after WRITING has been announced and over a staging
      directory built from the baseline, a cancelled run has written nothing, and a normal
      return means the device holds the target. */
  ghost predicate Kept(start: Start, history: seq<Event>, now: Memory, phases: seq<Phase>,
                       baseline: Images, target: Images, staging: seq<byte>, r: Result<(), Failure>)
  {
    && Progress(start.history, start.memory, history, now, target, staging, STAGES)
    && start.phases <= phases <= start.phases + [WRITING, RECONCILING]
    && (history != start.history ==> 0 in baseline && DirectoryFor(staging, baseline[0], {1, 2}) && WRITING in phases)
    && (r == Err(Cancelled) ==> history == start.history && phases == start.phases)
    && (r.Ok? ==> Holds(now, target, baseline) && phases == start.phases + [WRITING, RECONCILING])
  }

  /** The token is never read once WRITING is announced, it was read just before, and a
      cancellation that was seen is the outcome. */
  predicate Honest(phases: seq<Phase>, polled: seq<Phase>, seen: bool, before: seq<Phase>, cancelled: bool) {
    WRITING !in polled && (WRITING in phases ==> polled == before) && (seen <==> cancelled)
  }

  /** Where a transaction begins. */
  datatype Start = Start(history: seq<Event>, memory: Memory, phases: seq<Phase>)

  /** The content behind two managed-target digests is the same. */
  predicate SameManaged(a: Images, b: Images) {
    forall s :: s in PROGRAMMABLE ==> s in a && s in b && a[s] == b[s]
  }

  /** The closing comparison. */
  method Reconcile(mouse: Mouse, hooks: Hooks, target: Images) returns (r: Result<Memory, Failure>)
    requires mouse.Valid() && Complete(target)
    modifies hooks`phases, mouse`strays, mouse`connected
    ensures mouse.Valid() && mouse.strays >= old(mouse.strays)
    ensures hooks.phases == old(hooks.phases) + [RECONCILING]
    ensures r.Ok? ==> r.value == mouse.sectors && forall s :: s in PROGRAMMABLE ==> mouse.sectors[s] == target[s]
    ensures r.Err? ==> r.error != Cancelled
    // A difference is an error, and with a quiet caller nothing but a stray failure is another.
    ensures hooks.quiet && mouse.strays == old(mouse.strays) ==>
              (r.Ok? <==> forall s :: s in PROGRAMMABLE ==> mouse.sectors[s] == target[s])
    ensures mouse.reliable ==> mouse.strays == old(mouse.strays)
  {
    var announced := hooks.Announce(RECONCILING);
    if announced.Err? {
      return Err(announced.error);
    }
    r := ReadAll(mouse);
    if r.Err? {
      return;
    }
    var sectors := PROGRAMMABLE;
    while sectors != {}
      invariant sectors <= PROGRAMMABLE && r.Ok?
      invariant forall s :: s in PROGRAMMABLE && s !in sectors ==> mouse.sectors[s] == target[s]
    {
      var sector :| sector in sectors;
      if r.value[sector] != target[sector] {
        return Err(Runtime);
      }
      sectors := sectors - {sector};
    }
  }

  /** The checks of the host, the baseline and the connected unit before anything is read. */
  method RequireEligible(mouse: Mouse, writeAllowed: bool) returns (r: Result<(), Failure>)
    modifies mouse`strays, mouse`connected
    ensures mouse.strays >= old(mouse.strays)
    ensures r.Ok? <==> writeAllowed && mouse.strays == old(mouse.strays)
    ensures r != Err(Cancelled)
    ensures mouse.reliable && writeAllowed ==> r.Ok?
  {
    r := mouse.Ask();
    if r.Err? {
      return;
    }
    if !writeAllowed {
      return Err(Refused);
    }
    r := mouse.Ask();
  }

  /** The current state must pass validation, SAFE must be active, and a backup is taken. */
  method RequireRecoverable(mouse: Mouse, baseline: Images) returns (r: Result<(), Failure>)
    requires mouse.Valid() && Complete(baseline)
    modifies mouse`strays, mouse`connected
    ensures mouse.Valid() && mouse.strays >= old(mouse.strays)
    ensures r.Ok? <==> RecoveryOk(mouse.sectors, baseline) && mouse.strays == old(mouse.strays)
    ensures r != Err(Cancelled)
    ensures mouse.reliable && RecoveryOk(mouse.sectors, baseline) ==> r.Ok?
  {
    r := ValidateRecoveryFresh(mouse, baseline);
    if r.Ok? {
      r := mouse.Ask();
    }
  }

  lemma ReadyHolds(m: Memory, target: Images, baseline: Images, staging: seq<byte>)
    requires Complete(target) && Complete(baseline)
    requires Ready(m, target, staging, STAGES) && RecoveryOk(m, baseline)
    ensures Holds(m, target, baseline)
  {
    hide DirectoryOk;
    forall s | s in PROGRAMMABLE
      ensures m[s] == target[s]
    {
      if s != 0 {
        assert StageSector(StageOf(s)) == s;
      }
    }
  }

  /** Writing and reconciling, once the reviewed target is settled. */
  method WriteAndReconcile(mouse: Mouse, hooks: Hooks, baseline: Images, target: Images, writeAllowed: bool)
    returns (r: Result<Memory, Failure>, ghost staging: seq<byte>)
    requires mouse.Valid() && Complete(baseline) && Complete(target)
    requires !hooks.seen && WRITING !in hooks.phases && WRITING !in hooks.polled
    modifies mouse, hooks
    ensures mouse.Valid()
    ensures Honest(hooks.phases, hooks.polled, hooks.seen, old(hooks.phases), r.Err? && r.error == Cancelled)
    ensures Kept(old(Start(mouse.history, mouse.sectors, hooks.phases)), mouse.history, mouse.sectors, hooks.phases,
                 baseline, target, staging, if r.Ok? then Ok(()) else Err(r.error))
    ensures r.Ok? ==> r.value == mouse.sectors && RecoveryOk(mouse.sectors, baseline)
    ensures mouse.strays >= old(mouse.strays)
    ensures mouse.strays == old(mouse.strays) &&
            Calm(old(mouse.sectors), hooks.quiet && writeAllowed, baseline, target) ==>
              r.Ok? || r.error in {Unchanged, Indeterminate}
    ensures Calm(old(mouse.sectors), mouse.reliable && hooks.quiet && writeAllowed, baseline, target) ==> r.Ok?
  {
    hide Ready;
    hide RecoveryOk;
    hide DirectoryFor;
    hide DirectoryOk;
    hide Progress;
    hide Calm;
    var built := BuildDirectory(baseline[0], {1, 2});
    CalmParts(mouse.sectors, mouse.reliable && hooks.quiet && writeAllowed, baseline, target);
    CalmParts(mouse.sectors, hooks.quiet && writeAllowed, baseline, target);
    staging := [];
    NoProgressYet(mouse.history, mouse.sectors, target, staging, STAGES);
    if built.Err? {
      r := Err(Other);
      return;
    }
    var directory := built.value;
    staging := directory;
    var written := WriteManaged(mouse, hooks, baseline, target, directory, writeAllowed);
    if written.Err? {
      r := Err(written.error);
      return;
    }
    ReadyHolds(mouse.sectors, target, baseline, staging);
    r := Reconcile(mouse, hooks, target);
  }

  lemma CalmParts(first: Memory, undisturbed: bool, baseline: Images, target: Images)
    requires Complete(baseline)
    ensures Calm(first, undisturbed, baseline, target) ==>
              undisturbed && RecoveryOk(first, baseline) && BaseEnabled(baseline[0])
  {
    if Calm(first, undisturbed, baseline, target) {
      assert !Managed(0x02) && !Managed(0x06);
    }
  }

  lemma NothingKept(start: Start, baseline: Images, target: Images, f: Failure)
    ensures Kept(start, start.history, start.memory, start.phases, baseline, target, [], Err(f))
  {
    NoProgressYet(start.history, start.memory, target, [], STAGES);
  }

  // ---------------------------------------------------------------- the three transactions

  /** A plan has a page for every sector it manages. */
  predicate Writable(baseline: Images, plan: Plan) {
    Complete(baseline) && (forall p :: 2 <= p <= 5 ==> p in plan.profiles) &&
    Complete(PlanValid.Overlay(baseline, plan))
  }

  /** `apply_plan`. */
  method ApplyPlan(mouse: Mouse, hooks: Hooks, baseline: Images, plan: Plan, writeAllowed: bool)
    returns (r: Result<(), Failure>, ghost staging: seq<byte>)
    requires mouse.Valid() && !hooks.seen && WRITING !in hooks.phases
    requires WRITING !in hooks.polled && Writable(baseline, plan)
    modifies mouse, hooks
    ensures mouse.Valid()
    ensures Honest(hooks.phases, hooks.polled, hooks.seen, old(hooks.phases), r.Err? && r.error == Cancelled)
    ensures Kept(old(Start(mouse.history, mouse.sectors, hooks.phases)), mouse.history, mouse.sectors, hooks.phases,
                 baseline, PlanValid.Overlay(baseline, plan), staging, r)
    ensures mouse.strays >= old(mouse.strays)
    ensures mouse.strays == old(mouse.strays) &&
            Calm(old(mouse.sectors), hooks.quiet && writeAllowed, baseline, PlanValid.Overlay(baseline, plan)) ==>
              r.Ok? || r.error in {Unchanged, Indeterminate}
    ensures (Calm(old(mouse.sectors), mouse.reliable && hooks.quiet && writeAllowed, baseline,
                  PlanValid.Overlay(baseline, plan))) ==> r.Ok?
  {
    hide Kept;
    hide RecoveryOk;
    var target := PlanValid.Overlay(baseline, plan);
    CalmParts(mouse.sectors, mouse.reliable && hooks.quiet && writeAllowed, baseline, target);
    CalmParts(mouse.sectors, hooks.quiet && writeAllowed, baseline, target);
    staging := [];
    r := RequireEligible(mouse, writeAllowed);
    if r.Ok? {
      r := RequireRecoverable(mouse, baseline);
    }
    if r.Err? {
      NothingKept(Start(mouse.history, mouse.sectors, hooks.phases), baseline, target, r.error);
      return;
    }
    var final;
    final, staging := WriteAndReconcile(mouse, hooks, baseline, target, writeAllowed);
    r := if final.Ok? then Ok(()) else Err(final.error);
  }

  /** `restore_backup`: the backup itself must validate against the baseline first, and
      its managed sectors must still be the reviewed ones. */
  method RestoreBackup(mouse: Mouse, hooks: Hooks, baseline: Images, target: Images, reviewed: Images,
                       writeAllowed: bool)
    returns (r: Result<(), Failure>, ghost staging: seq<byte>)
    requires mouse.Valid() && !hooks.seen && WRITING !in hooks.phases
    requires WRITING !in hooks.polled && Complete(baseline) && Complete(target)
    modifies mouse, hooks
    ensures mouse.Valid()
    ensures Honest(hooks.phases, hooks.polled, hooks.seen, old(hooks.phases), r.Err? && r.error == Cancelled)
    ensures Kept(old(Start(mouse.history, mouse.sectors, hooks.phases)), mouse.history, mouse.sectors, hooks.phases,
                 baseline, target, staging, r)
    ensures !Validator.CleanImages(target, baseline) || !SameManaged(target, reviewed) ==>
              r.Err? && mouse.history == old(mouse.history)
    ensures mouse.strays >= old(mouse.strays)
    ensures Validator.CleanImages(target, baseline) && SameManaged(target, reviewed) ==>
              (mouse.strays == old(mouse.strays) &&
               Calm(old(mouse.sectors), hooks.quiet && writeAllowed, baseline, target) ==>
                 r.Ok? || r.error in {Unchanged, Indeterminate})
    ensures Validator.CleanImages(target, baseline) && SameManaged(target, reviewed) ==>
              (Calm(old(mouse.sectors), mouse.reliable && hooks.quiet && writeAllowed, baseline, target) ==> r.Ok?)
  {
    hide Kept;
    hide RecoveryOk;
    hide DirectoryOk;
    hide Validator.CleanImages;
    CalmParts(mouse.sectors, mouse.reliable && hooks.quiet && writeAllowed, baseline, target);
    CalmParts(mouse.sectors, hooks.quiet && writeAllowed, baseline, target);
    staging := [];
    r := RequireEligible(mouse, writeAllowed);
    if r.Ok? {
      r := RequireRestorable(target, baseline);
    }
    if r.Ok? && !SameManaged(target, reviewed) {
      r := Err(Runtime);
    }
    if r.Ok? {
      r := RequireRecoverable(mouse, baseline);
    }
    if r.Err? {
      NothingKept(Start(mouse.history, mouse.sectors, hooks.phases), baseline, target, r.error);
      return;
    }
    var final;
    final, staging := WriteAndReconcile(mouse, hooks, baseline, target, writeAllowed);
    r := if final.Ok? then Ok(()) else Err(final.error);
  }

  /** The checks on a loaded backup: a clean report, baseline recovery sectors and an
      acceptable directory. */
  method RequireRestorable(target: Images, baseline: Images) returns (r: Result<(), Failure>)
    requires Complete(baseline) && Complete(target)
    ensures r.Ok? <==> Validator.CleanImages(target, baseline)
    ensures r.Err? ==> Raised(r.error)
  {
    hide DirectoryOk;
    hide Validator.ProfileFieldsOk;
    hide Validator.ProfileMacrosRun;
    var report := Validator.ValidateImages(target, baseline);
    if report.errors != [] {
      return Err(Runtime);
    }
    if target[1] != baseline[1] || target[6] != baseline[6] || target[7] != baseline[7] {
      return Err(Runtime);
    }
    var enabled := ValidateDirectory(target[0], baseline[0]);
    if enabled.Err? {
      return Err(Other);
    }
    return Ok(());
  }

  /** `restore_baseline`: the baseline is the target, and the final state is validated again. */
  method RestoreBaseline(mouse: Mouse, hooks: Hooks, baseline: Images, reviewed: Images, writeAllowed: bool)
    returns (r: Result<(), Failure>, ghost staging: seq<byte>)
    requires mouse.Valid() && !hooks.seen && WRITING !in hooks.phases && WRITING !in hooks.polled && Complete(baseline)
    modifies mouse, hooks
    ensures mouse.Valid()
    ensures Honest(hooks.phases, hooks.polled, hooks.seen, old(hooks.phases), r.Err? && r.error == Cancelled)
    ensures Kept(old(Start(mouse.history, mouse.sectors, hooks.phases)), mouse.history, mouse.sectors, hooks.phases,
                 baseline, baseline, staging, r)
    ensures !SameManaged(baseline, reviewed) ==> r.Err? && mouse.history == old(mouse.history)
    ensures mouse.strays >= old(mouse.strays)
    ensures SameManaged(baseline, reviewed) ==>
              (mouse.strays == old(mouse.strays) &&
               Calm(old(mouse.sectors), hooks.quiet && writeAllowed, baseline, baseline) ==>
                 r.Ok? || r.error in {Unchanged, Indeterminate})
    ensures SameManaged(baseline, reviewed) ==>
              (Calm(old(mouse.sectors), mouse.reliable && hooks.quiet && writeAllowed, baseline, baseline) ==> r.Ok?)
  {
    hide Kept;
    hide RecoveryOk;
    CalmParts(mouse.sectors, mouse.reliable && hooks.quiet && writeAllowed, baseline, baseline);
    CalmParts(mouse.sectors, hooks.quiet && writeAllowed, baseline, baseline);
    staging := [];
    r := RequireEligible(mouse, writeAllowed);
    if r.Ok? {
      r := RequireRecoverable(mouse, baseline);
    }
    if r.Ok? && !SameManaged(baseline, reviewed) {
      r := Err(Runtime);
    }
    if r.Err? {
      NothingKept(Start(mouse.history, mouse.sectors, hooks.phases), baseline, baseline, r.error);
      return;
    }
    var final;
    final, staging := WriteAndReconcile(mouse, hooks, baseline, baseline, writeAllowed);
    if final.Err? {
      r := Err(final.error);
      return;
    }
    var checked := ValidateRecoveryImages(final.value, baseline);
    r := if checked.Ok? then Ok(()) else Err(Runtime);
  }

  // ---------------------------------------------------------------- what a success means

  /** A successful run leaves exactly the target on the device. */
  lemma HoldsEverything(m: Memory, target: Images, baseline: Images)
    requires Holds(m, target, baseline) && Complete(target) && forall s :: s in target ==> s < SECTOR_COUNT
    requires forall s :: s in RECOVERY ==> s in baseline && target[s] == baseline[s]
    ensures Whole(m) == target
  {
    forall s: nat | s < SECTOR_COUNT
      ensures m[s] == target[s]
    {
      assert s in PROGRAMMABLE || s in RECOVERY;
    }
  }

  /** MAIN RESULT. While a compiled plan is being applied, in every memory the run passes
      through and wherever it stops: each macro route of a planned profile page runs its own
      bytecode and does what was asked for, unless the page was there before the run and the
      macro sectors were not. */
  lemma NewProfilePerforms(h: seq<Event>, first: Memory, last: Memory, staging: seq<byte>, m: Memory, config: Profiles,
                           baseline: Images, plan: Plan, p: nat, r: Route)
    requires ValidConfig(config) && Complete(baseline) && PlanDescribes(plan, config, baseline)
    requires Writable(baseline, plan) && |first| == SECTOR_COUNT
    requires SafeRun(h, first, last, PlanValid.Overlay(baseline, plan), staging) && Passed(h, last, m)
    requires 2 <= p <= 5 && p in config && IsRoute(r) && (p, r) in plan.items && plan.items[(p, r)].MacroItem?
    requires |m| > p && m[p] == plan.profiles[p]
    requires first[p] != m[p] || AtTarget(first, PlanValid.Overlay(baseline, plan), 8, 16)
    ensures SpecAt(config[p], r).Some?
    ensures PlanValid.RoutePerforms(Whole(m), p, r, plan.items[(p, r)].bytecode, SpecAt(config[p], r).value)
  {
    hide PlanDescribes;
    hide ValidConfig;
    hide SafeRun;
    hide Passed;
    hide PlanValid.RoutePerforms;
    var target := PlanValid.Overlay(baseline, plan);
    if first[p] != m[p] {
      NewProfileFindsMacros(h, first, last, target, staging, m, p);
    } else {
      MacrosStay(h, first, last, target, staging, m);
    }
    forall s | 8 <= s < 16
      ensures Whole(m)[s] == plan.store.images[s - 8]
    {
      assert m[s] == target[s];
    }
    assert PlanValid.Carries(Whole(m), plan, p);
    PlanValid.RouteRunsItsMacro(config, baseline, plan, Whole(m), p, r);
  }

  /** MAIN RESULT. From configuration to device: when applying a compiled plan returns
      normally, on any device and after any number of recovered faults, the whole device
      passes the validator if and only if the baseline suits the configuration. */
  lemma AppliedPlanValidates(m: Memory, config: Profiles, baseline: Images, plan: Plan)
    requires ValidConfig(config) && Complete(baseline) && PlanDescribes(plan, config, baseline)
    requires Writable(baseline, plan) && Holds(m, PlanValid.Overlay(baseline, plan), baseline)
    ensures Whole(m) == PlanValid.Overlay(baseline, plan)
    ensures Validator.CleanImages(Whole(m), baseline) <==> PlanValid.BaselineSuits(config, baseline)
  {
    hide PlanDescribes;
    hide ValidConfig;
    hide Holds;
    hide Validator.CleanImages;
    hide PlanValid.BaselineSuits;
    HoldsEverything(m, PlanValid.Overlay(baseline, plan), baseline);
    PlanValid.PlanValidates(config, baseline, plan);
  }

  /** A compiled plan can always be handed to `ApplyPlan`. */
  lemma CompiledPlanIsWritable(config: Profiles, baseline: Images, plan: Plan)
    requires ValidConfig(config) && Complete(baseline) && PlanDescribes(plan, config, baseline)
    ensures Writable(baseline, plan) && DirectoryOk(PlanValid.Overlay(baseline, plan)[0], baseline[0])
  {
    hide ValidConfig;
    hide DirectoryOk;
    PlanValid.OverlayIsComplete(config, baseline, plan);
  }
}
