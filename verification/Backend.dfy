/** `execute_real_persistent`: revalidation, cancellation points and phases around a
    device transaction. */
module Backend {
  import opened Actions
  import opened Bytes
  import opened Device
  import opened Directory
  import opened Models
  import opened Plan
  import opened Profile
  import opened Transaction
  import opened Persist
  import Frontend
  import PlanValid
  import Validator

  /** What was reviewed. `target` stands for the target digest: the managed content. */
  datatype Intent = Intent(kind: Kind, baselineBinding: string, unitBinding: string, managed: set<nat>,
                           plan: Option<Plan>, target: Images)

  /** What the host and the files answer at execution time; the backup file is read twice. */
  datatype World = World(baseline: Images, fingerprint: string, writeAllowed: bool,
                         recompiled: Option<Plan>, loaded: Images, reloaded: Images)

  datatype Outcome = Finished | Stopped | Failed(reconciled: bool, postValidated: bool)

  predicate WellFormed(intent: Intent, world: World) {
    && Complete(world.baseline) && Complete(world.loaded) && Complete(world.reloaded)
    && (intent.plan.Some? ==> Writable(world.baseline, intent.plan.value))
  }

  /** The image the transaction aims at. */
  function Aim(intent: Intent, world: World): Images
    requires WellFormed(intent, world)
  {
    match intent.kind
    case ApplyConfig =>
      if intent.plan.Some? then PlanValid.Overlay(world.baseline, intent.plan.value) else world.baseline
    case RestoreBackup => world.reloaded
    case RestoreBaseline => world.baseline
  }

  /** The current target is still the reviewed one. */
  ghost predicate StillReviewed(intent: Intent, world: World)
    requires WellFormed(intent, world)
  {
    match intent.kind
    case ApplyConfig => intent.plan.Some? && world.recompiled == intent.plan
    case RestoreBackup =>
      Validator.CleanImages(world.loaded, world.baseline) && SameManaged(world.loaded, intent.target) &&
      Validator.CleanImages(world.reloaded, world.baseline) && SameManaged(world.reloaded, intent.target)
    case RestoreBaseline => SameManaged(world.baseline, intent.target)
  }

  predicate StillBound(intent: Intent, world: World) {
    && world.fingerprint != "" && world.fingerprint == intent.baselineBinding && world.fingerprint == intent.unitBinding
    && intent.managed == PROGRAMMABLE && world.writeAllowed
  }

  /** Checks of the intent against the active baseline and the connected unit. */
  method Revalidate(mouse: Mouse, intent: Intent, world: World) returns (r: Result<(), Failure>)
    requires mouse.Valid() && WellFormed(intent, world)
    modifies mouse`strays, mouse`connected
    ensures mouse.Valid() && mouse.strays >= old(mouse.strays)
    ensures r.Ok? <==> mouse.strays == old(mouse.strays) && StillBound(intent, world) &&
                       RecoveryOk(mouse.sectors, world.baseline)
    ensures r != Err(Cancelled)
    ensures mouse.reliable && StillBound(intent, world) && RecoveryOk(mouse.sectors, world.baseline) ==> r.Ok?
  {
    r := mouse.Ask();
    if r.Err? {
      return;
    }
    if world.fingerprint == "" || world.fingerprint != intent.baselineBinding ||
       world.fingerprint != intent.unitBinding
    {
      return Err(Runtime);
    }
    r := RequireEligible(mouse, world.writeAllowed);
    if r.Err? {
      return;
    }
    if intent.managed != PROGRAMMABLE {
      return Err(Runtime);
    }
    if intent.managed * RECOVERY != {} {
      return Err(Runtime);
    }
    r := ValidateRecoveryFresh(mouse, world.baseline);
  }

  /** The target is derived again and compared with the reviewed one. */
  method ReloadTarget(mouse: Mouse, intent: Intent, world: World) returns (r: Result<(), Failure>)
    requires mouse.Valid() && WellFormed(intent, world)
    modifies mouse`strays, mouse`connected
    ensures mouse.Valid() && mouse.strays >= old(mouse.strays)
    ensures StillReviewed(intent, world) && RecoveryOk(mouse.sectors, world.baseline) ==>
              (r.Ok? <==> mouse.strays == old(mouse.strays))
    ensures r.Ok? && intent.kind.ApplyConfig? ==> intent.plan.Some? && world.recompiled == intent.plan
    ensures r != Err(Cancelled)
    ensures mouse.reliable && StillReviewed(intent, world) && RecoveryOk(mouse.sectors, world.baseline) ==> r.Ok?
  {
    hide RecoveryOk;
    hide Validator.CleanImages;
    match intent.kind {
      case ApplyConfig =>
        if intent.plan.None? || world.recompiled != intent.plan {
          return Err(Runtime);
        }
        r := mouse.Ask();
      case RestoreBackup =>
        r := RequireRestorable(world.loaded, world.baseline);
        if r.Err? {
          return;
        }
        if !SameManaged(world.loaded, intent.target) {
          return Err(Runtime);
        }
        r := RequireRecoverable(mouse, world.baseline);
      case RestoreBaseline =>
        if !SameManaged(world.baseline, intent.target) {
          return Err(Runtime);
        }
        r := RequireRecoverable(mouse, world.baseline);
    }
  }

  /** Everything up to and including the ARMED announcement. */
  method Arm(mouse: Mouse, hooks: Hooks, intent: Intent, world: World) returns (r: Result<(), Failure>)
    requires mouse.Valid() && WellFormed(intent, world) && hooks.phases == [] == hooks.polled && !hooks.seen
    modifies hooks, mouse`strays, mouse`connected
    ensures mouse.Valid() && mouse.strays >= old(mouse.strays)
    ensures r.Ok? ==> hooks.phases == [ARMED] && StillBound(intent, world)
    ensures r.Ok? && intent.kind.ApplyConfig? ==> intent.plan.Some? && world.recompiled == intent.plan
    ensures hooks.phases <= [ARMED] && hooks.polled <= [ARMED] && (hooks.seen <==> r == Err(Cancelled))
    ensures StillBound(intent, world) && StillReviewed(intent, world) && mouse.strays == old(mouse.strays) ==>
              (hooks.quiet && RecoveryOk(mouse.sectors, world.baseline) ==> r.Ok?)
    ensures StillBound(intent, world) && StillReviewed(intent, world) ==>
              (mouse.reliable && hooks.quiet && RecoveryOk(mouse.sectors, world.baseline) ==> r.Ok?)
  {
    hide RecoveryOk;
    hide StillReviewed;
    hide StillBound;
    r := mouse.Ask();
    if r.Err? {
      return;
    }
    r := hooks.CheckCancel();
    if r.Err? {
      return;
    }
    r := Revalidate(mouse, intent, world);
    if r.Err? {
      return;
    }
    r := hooks.CheckCancel();
    if r.Err? {
      return;
    }
    r := mouse.Ask();
    if r.Err? {
      return;
    }
    r := ReloadTarget(mouse, intent, world);
    if r.Err? {
      return;
    }
    r := hooks.CheckCancel();
    if r.Err? {
      return;
    }
    r := mouse.Ask();
    if r.Err? {
      return;
    }
    r := hooks.Announce(ARMED);
    if r.Err? {
      return;
    }
    r := hooks.CheckCancel();
  }

  /** The transaction of the intent's kind. */
  method Transact(mouse: Mouse, hooks: Hooks, intent: Intent, world: World)
    returns (r: Result<(), Failure>, ghost staging: seq<byte>)
    requires mouse.Valid() && WellFormed(intent, world)
    requires hooks.phases == [ARMED] && hooks.polled <= [ARMED] && !hooks.seen
    requires intent.kind.ApplyConfig? ==> intent.plan.Some?
    modifies mouse, hooks
    ensures mouse.Valid() && Honest(hooks.phases, hooks.polled, hooks.seen, [ARMED], r == Err(Cancelled))
    ensures Kept(old(Start(mouse.history, mouse.sectors, hooks.phases)), mouse.history, mouse.sectors, hooks.phases,
                 world.baseline, Aim(intent, world), staging, r)
    ensures r.Ok? && !intent.kind.ApplyConfig? ==> SameManaged(Aim(intent, world), intent.target)
    ensures mouse.strays >= old(mouse.strays)
    ensures StillReviewed(intent, world) && world.writeAllowed && mouse.strays == old(mouse.strays) ==>
              (Calm(old(mouse.sectors), hooks.quiet, world.baseline, Aim(intent, world)) ==>
                 r.Ok? || r.error in {Unchanged, Indeterminate})
    ensures StillReviewed(intent, world) && world.writeAllowed ==>
              (Calm(old(mouse.sectors), mouse.reliable && hooks.quiet, world.baseline, Aim(intent, world)) ==> r.Ok?)
  {
    hide Kept;
    hide Validator.CleanImages;
    hide RecoveryOk;
    match intent.kind {
      case ApplyConfig => r, staging := ApplyPlan(mouse, hooks, world.baseline, intent.plan.value, world.writeAllowed);
      case RestoreBackup =>
        r, staging := Persist.RestoreBackup(mouse, hooks, world.baseline, world.reloaded, intent.target,
                                            world.writeAllowed);
      case RestoreBaseline =>
        r, staging := Persist.RestoreBaseline(mouse, hooks, world.baseline, intent.target, world.writeAllowed);
    }
  }

  /** Full validation of the device, and the files stored beside the safety backup. */
  method PostValidate(mouse: Mouse, hooks: Hooks, baseline: Images) returns (o: Outcome)
    requires mouse.Valid() && Complete(baseline)
    modifies hooks`phases, mouse`strays, mouse`connected
    ensures mouse.Valid() && mouse.strays >= old(mouse.strays)
    ensures hooks.phases == old(hooks.phases) + [POST_VALIDATING]
    ensures o.Finished? || (o.Failed? && o.reconciled)
    ensures o.Finished? ==> Validator.CleanImages(Whole(mouse.sectors), baseline)
    // Undisturbed, validation runs to its end: the flag is set either way, and only the
    // outcome says whether the device validated.
    ensures mouse.reliable ==> mouse.strays == old(mouse.strays)
    ensures mouse.strays == old(mouse.strays) && hooks.quiet ==>
              o == if Validator.CleanImages(Whole(mouse.sectors), baseline) then Finished else Failed(true, true)
  {
    hide Validator.CleanImages;
    var announced := hooks.Announce(POST_VALIDATING);
    if announced.Err? {
      return Failed(true, false);
    }
    var images := ReadAll(mouse);
    if images.Err? {
      return Failed(true, false);
    }
    var report := Validator.ValidateImages(Whole(images.value), baseline);
    if report.errors != [] {
      return Failed(true, true);
    }
    var stored := mouse.Ask();
    if stored.Err? {
      return Failed(true, true);
    }
    return Finished;
  }

  /** Nothing stands in the way: the device and the caller are undisturbed, everything is
      still as reviewed, and the image aimed at may be written over this baseline. */
  ghost predicate Undisturbed(first: Memory, calm: bool, intent: Intent, world: World) {
    && calm && WellFormed(intent, world) && StillBound(intent, world) && StillReviewed(intent, world)
    && RecoveryOk(first, world.baseline)
    && var aim := Aim(intent, world);
    && (forall s :: s in aim ==> s < SECTOR_COUNT)
    && (forall s :: s in RECOVERY ==> s in aim && aim[s] == world.baseline[s])
    && DirectoryOk(aim[0], world.baseline[0])
  }

  lemma UndisturbedMeans(first: Memory, calm: bool, intent: Intent, world: World)
    ensures Undisturbed(first, calm, intent, world) ==>
              && calm && WellFormed(intent, world) && StillBound(intent, world) && StillReviewed(intent, world)
              && world.writeAllowed && Calm(first, calm, world.baseline, Aim(intent, world))
  {
  }

  lemma UndisturbedIsQuiet(first: Memory, calm: bool, quiet: bool, intent: Intent, world: World)
    requires Undisturbed(first, calm, intent, world) ==> calm
    requires calm ==> quiet
    ensures Undisturbed(first, calm, intent, world) ==> Undisturbed(first, quiet, intent, world)
  {
    hide DirectoryOk;
    hide StillReviewed;
    hide RecoveryOk;
  }

  /** On such a run the device ends with exactly the image aimed at. */
  lemma UndisturbedEndsWhole(first: Memory, calm: bool, intent: Intent, world: World, m: Memory)
    requires Undisturbed(first, calm, intent, world) && Holds(m, Aim(intent, world), world.baseline)
    ensures Whole(m) == Aim(intent, world)
  {
    hide Holds;
    hide StillReviewed;
    hide DirectoryOk;
    HoldsEverything(m, Aim(intent, world), world.baseline);
  }

  /** `execute_real_persistent`, on any device, with any cancellation timing. */
  method ExecuteReal(mouse: Mouse, hooks: Hooks, intent: Intent, world: World)
    returns (o: Outcome, ghost staging: seq<byte>)
    requires mouse.Valid() && WellFormed(intent, world) && hooks.phases == [] == hooks.polled && !hooks.seen
    modifies mouse, hooks
    ensures mouse.Valid()
    // Every run, finished or not, is a safe run of the transaction.
    ensures Progress(old(mouse.history), old(mouse.sectors), mouse.history, mouse.sectors, Aim(intent, world), staging,
                     STAGES)
    // Phases come in order, and writes only after WRITING.
    ensures hooks.phases <= FULL_TRACE
    ensures mouse.history != old(mouse.history) ==> WRITING in hooks.phases
    // Cancelled means untouched; a cancellation that was seen is honoured; the token is read
    // after ARMED, just before WRITING, and never again.
    ensures o.Stopped? ==> mouse.history == old(mouse.history) && mouse.sectors == old(mouse.sectors)
    ensures o.Stopped? ==> hooks.phases <= [ARMED]
    ensures o.Stopped? <==> hooks.seen
    ensures WRITING !in hooks.polled && (WRITING in hooks.phases ==> hooks.polled == [ARMED])
    // The evidence flags are true to the device.
    ensures o.Failed? && o.postValidated ==> o.reconciled
    ensures o.Finished? || (o.Failed? && o.reconciled) ==> Holds(mouse.sectors, Aim(intent, world), world.baseline)
    ensures o.Finished? || (o.Failed? && o.reconciled) ==> hooks.phases == FULL_TRACE
    // Success: the reviewed target is on the device and the whole device validates.
    ensures o.Finished? ==> StillBound(intent, world) && Validator.CleanImages(Whole(mouse.sectors), world.baseline)
    ensures o.Finished? && intent.kind.ApplyConfig? ==> world.recompiled == intent.plan
    ensures o.Finished? && !intent.kind.ApplyConfig? ==> SameManaged(Whole(mouse.sectors), intent.target)
    // Without a stray failure a run that nothing else stands in the way of fails only over a
    // sector that could not be written, or over a target that does not validate.
    ensures Undisturbed(old(mouse.sectors), hooks.quiet, intent, world) && mouse.strays == old(mouse.strays) ==>
              || o == Failed(false, false)
              || (Whole(mouse.sectors) == Aim(intent, world) &&
                  o == if Validator.CleanImages(Aim(intent, world), world.baseline) then Finished
                       else Failed(true, true))
    // When nothing stands in the way the target is written, and whether it validates is all
    // that decides: a target that does not is on the device, with both flags set.
    ensures Undisturbed(old(mouse.sectors), mouse.reliable && hooks.quiet, intent, world) ==>
              && Whole(mouse.sectors) == Aim(intent, world)
              && o == if Validator.CleanImages(Aim(intent, world), world.baseline) then Finished else Failed(true, true)
  {
    hide Kept;
    hide Progress;
    hide StillBound;
    hide StillReviewed;
    hide Writable;
    hide Aim;
    hide SameManaged;
    hide Holds;
    hide Undisturbed;
    hide Calm;
    hide Validator.CleanImages;
    hide RecoveryOk;
    ghost var start := Start(mouse.history, mouse.sectors, [ARMED]);
    staging := [];
    NoProgressYet(mouse.history, mouse.sectors, Aim(intent, world), staging, STAGES);
    ghost var calm, first := mouse.reliable && hooks.quiet, mouse.sectors;
    UndisturbedMeans(first, calm, intent, world);
    UndisturbedMeans(first, hooks.quiet, intent, world);
    CalmParts(first, calm, world.baseline, Aim(intent, world));
    CalmParts(first, hooks.quiet, world.baseline, Aim(intent, world));
    var armed := Arm(mouse, hooks, intent, world);
    if armed.Err? {
      return if armed.error == Cancelled then Stopped else Failed(false, false), staging;
    }
    var written;
    written, staging := Transact(mouse, hooks, intent, world);
    KeptMeans(start, mouse.history, mouse.sectors, hooks.phases, world.baseline, Aim(intent, world), staging, written);
    if written.Err? {
      return if written.error == Cancelled then Stopped else Failed(false, false), staging;
    }
    UndisturbedIsQuiet(first, calm, hooks.quiet, intent, world);
    if Undisturbed(first, hooks.quiet, intent, world) {
      UndisturbedEndsWhole(first, hooks.quiet, intent, world, mouse.sectors);
    }
    HeldIsReviewed(mouse.sectors, Aim(intent, world), world.baseline, intent.target);
    o := PostValidate(mouse, hooks, world.baseline);
  }

  lemma HeldIsReviewed(m: Memory, target: Images, baseline: Images, reviewed: Images)
    requires Holds(m, target, baseline)
    ensures SameManaged(target, reviewed) ==> SameManaged(Whole(m), reviewed)
  {
  }

  lemma KeptMeans(start: Start, history: seq<Event>, now: Memory, phases: seq<Phase>, baseline: Images, target: Images,
                  staging: seq<byte>, r: Result<(), Failure>)
    requires Kept(start, history, now, phases, baseline, target, staging, r) && start.phases == [ARMED]
    ensures Progress(start.history, start.memory, history, now, target, staging, STAGES)
    ensures phases <= FULL_TRACE
    ensures history != start.history ==> WRITING in phases
    ensures r == Err(Cancelled) ==> history == start.history && now == start.memory && phases == [ARMED]
    ensures r.Ok? ==> Holds(now, target, baseline) && phases == FULL_TRACE[..3]
  {
  }

  // ---------------------------------------------------------------- applying a compiled plan

  /** The reviewed intent of applying a compiled plan, which nothing has changed since. */
  ghost predicate Compiled(intent: Intent, world: World, config: Profiles) {
    && ValidConfig(config) && Complete(world.baseline) && intent.kind == ApplyConfig && intent.plan.Some?
    && PlanDescribes(intent.plan.value, config, world.baseline)
    && world.recompiled == intent.plan && Complete(world.loaded) && Complete(world.reloaded)
    && StillBound(intent, world)
  }

  lemma CompiledIsUndisturbed(first: Memory, intent: Intent, world: World, config: Profiles)
    requires Compiled(intent, world, config) && RecoveryOk(first, world.baseline)
    ensures WellFormed(intent, world) && Undisturbed(first, true, intent, world)
    ensures Validator.CleanImages(Aim(intent, world), world.baseline) <==>
              PlanValid.BaselineSuits(config, world.baseline)
  {
    hide ValidConfig;
    hide PlanDescribes;
    hide RecoveryOk;
    hide DirectoryOk;
    hide StillBound;
    hide Validator.CleanImages;
    hide PlanValid.BaselineSuits;
    CompiledPlanIsWritable(config, world.baseline, intent.plan.value);
    PlanValid.PlanValidates(config, world.baseline, intent.plan.value);
  }

  /** MAIN RESULT. On an undisturbed device, applying a compiled plan always writes it, and
      it finishes if and only if the baseline suits the configuration; otherwise it fails
      with both evidence flags set, and the plan that does not validate is on the device. */
  method ApplyCompiled(mouse: Mouse, hooks: Hooks, intent: Intent, world: World, ghost config: Profiles)
    returns (o: Outcome)
    requires mouse.Valid() && mouse.reliable && hooks.quiet && hooks.phases == [] == hooks.polled && !hooks.seen
    requires Compiled(intent, world, config) && RecoveryOk(mouse.sectors, world.baseline)
    modifies mouse, hooks
    ensures WellFormed(intent, world)
    ensures Whole(mouse.sectors) == PlanValid.Overlay(world.baseline, intent.plan.value)
    ensures o.Finished? <==> PlanValid.BaselineSuits(config, world.baseline)
    ensures !o.Finished? ==> o == Failed(true, true) && !Validator.CleanImages(Whole(mouse.sectors), world.baseline)
  {
    hide RecoveryOk;
    hide Compiled;
    hide Undisturbed;
    hide Validator.CleanImages;
    hide PlanValid.BaselineSuits;
    CompiledIsUndisturbed(mouse.sectors, intent, world, config);
    CompiledAim(intent, world, config);
    ghost var staging;
    o, staging := ExecuteReal(mouse, hooks, intent, world);
  }

  lemma CompiledAim(intent: Intent, world: World, config: Profiles)
    requires Compiled(intent, world, config) && WellFormed(intent, world)
    ensures intent.plan.Some? && Complete(world.baseline) && ValidConfig(config)
    ensures forall p :: 2 <= p <= 5 ==> p in intent.plan.value.profiles
    ensures Aim(intent, world) == PlanValid.Overlay(world.baseline, intent.plan.value)
  {
    hide ValidConfig;
    hide PlanDescribes;
    hide StillBound;
  }

  /** The failing family is not empty: a configuration whose only macro is an empty text is
      valid and suits no baseline at all. */
  lemma EmptyTextSuitsNothing(baseline: Images)
    requires Complete(baseline)
    ensures var config: Profiles := map[2 := EmptyTextBlock()];
            ValidConfig(config) && !PlanValid.BaselineSuits(config, baseline)
  {
    hide PlanValid.KeptBindingOk;
    Frontend.EmptyTextIsAccepted();
    var config: Profiles := map[2 := EmptyTextBlock()];
    assert SpecAt(config[2], Route(Normal, 0)) == Some(EmptyTextSpec());
    assert !PlanValid.RouteSuits(baseline[2], config[2], Route(Normal, 0));
  }

  function EmptyTextSpec(): Json {
    Obj(map["action" := Str("text"), "value" := Str("")])
  }

  function EmptyTextBlock(): Block {
    Block(Settings(None, None, None, None, None), map[0 := EmptyTextSpec()], None, map[])
  }
}
