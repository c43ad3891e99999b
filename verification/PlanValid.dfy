/** Compiled plans validate: the planned pages laid over the baseline pass the
    independent validator, exactly when the baseline and the configuration allow it. */
module PlanValid {
  import opened Bytes
  import opened Actions
  import opened Compile
  import opened Dedup
  import opened Profile
  import opened Directory
  import opened Plan
  import opened Validator
  import opened Macro
  import Allocator
  import Config
  import Emission
  import Frontend
  import Linking
  import Meaning
  import Sector
  import Store
  import Vm

  /** The device image once every planned page is written over the baseline. */
  function Overlay(golden: Images, plan: Plan): Images
    requires Complete(golden) && forall p :: 2 <= p <= 5 ==> p in plan.profiles
  {
    map s: nat | s < SECTOR_COUNT ::
      if s == 0 then plan.directory
      else if 2 <= s <= 5 then plan.profiles[s]
      else if 8 <= s then plan.store.images[s - 8]
      else golden[s]
  }

  // ---------------------------------------------------------------- the condition

  /** A baseline binding that stays acceptable in a profile that keeps it: pointers into
      sectors 6 to 15 are neutralized, every other macro pointer is refused. */
  predicate KeptBindingOk(b: seq<byte>)
    requires |b| == 4
  {
    match BindingKind(b)
    case Unknown => false
    case DirectBinding => DirectOk(b)
    case MacroBinding => 6 <= b[1] <= 15
    case _ => true
  }

  /** One route of a configured profile can be validated. */
  predicate RouteSuits(golden: seq<byte>, block: Block, r: Route) {
    match SpecAt(block, r)
    case Some(spec) => !Frontend.SaysNothing(spec)
    case None => r.layer == GShift || block.gShiftButton == Some(r.target) || KeptBindingOk(Binding(golden, r))
  }

  /** A configured profile can be validated over this baseline page. */
  ghost predicate ProfileSuits(golden: seq<byte>, block: Block)
    requires |golden| == SECTOR_SIZE
  {
    (block.settings.rate.Some? || KnownRate(golden[0])) &&
    (block.settings.defaultDpi.Some? || golden[1] <= 4) &&
    (block.settings.shiftDpi.Some? || golden[2] <= 4) &&
    forall r :: IsRoute(r) ==> RouteSuits(golden, block, r)
  }

  ghost predicate BaselineSuits(config: Profiles, golden: Images)
    requires Complete(golden)
  {
    forall p :: 2 <= p <= 5 ==>
      if p in config then ProfileSuits(golden[p], config[p]) else Sector.SectorCrcOk(golden[p])
  }

  // ---------------------------------------------------------------- settings bytes

  lemma IndexOfMember(values: seq<nat>, v: nat)
    requires v in values
    ensures IndexOf(values, v) < |values|
  {}

  lemma RatesAreKnown(rate: nat)
    ensures RateCode(rate).Some? ==> KnownRate(RateCode(rate).value)
  {}

  lemma SettingsBytes(page: seq<byte>, golden: seq<byte>, s: Settings)
    requires |page| == |golden| == SECTOR_SIZE && ValidSettings(s) && ChoicesExist(golden, s)
    requires page[0] == RateByte(golden[0], s)
    requires page[1] == SlotByte(golden[1], s.defaultDpi, EffectiveDpi(golden, s))
    requires page[2] == SlotByte(golden[2], s.shiftDpi, EffectiveDpi(golden, s))
    ensures KnownRate(page[0]) <==> s.rate.Some? || KnownRate(golden[0])
    ensures page[1] <= 4 <==> s.defaultDpi.Some? || golden[1] <= 4
    ensures page[2] <= 4 <==> s.shiftDpi.Some? || golden[2] <= 4
  {
    hide RateCode;
    hide EffectiveDpi;
    hide KnownRate;
    if s.rate.Some? {
      RatesAreKnown(s.rate.value);
    }
    if s.defaultDpi.Some? {
      IndexOfMember(EffectiveDpi(golden, s), s.defaultDpi.value);
    }
    if s.shiftDpi.Some? {
      IndexOfMember(EffectiveDpi(golden, s), s.shiftDpi.value);
    }
  }

  // ---------------------------------------------------------------- bindings

  /** Every direct binding the compiler emits is one the validator knows. */
  lemma DirectBindingIsKnown(spec: Json)
    requires CompileBinding(spec).Ok? && CompileBinding(spec).value.Direct?
    ensures var b := CompileBinding(spec).value.binding;
            |b| == 4 && BindingKind(b) == DirectBinding && DirectOk(b)
  {
    hide ActionCode;
    hide Kind;
    hide Alias;
    hide KeyUsage;
    hide ModifierOf;
    hide KnownUsage;
    var fields := Normalize(spec).value;
    if DirectKeyboard(fields).Some? {
      var names := Config.UpperNames(Get(fields, "keys", Null).items);
      UsagesAreKnown(names[|names| - 1]);
    } else if DirectConsumer(fields).Some? {
      ConsumersAreKnown(Lower(PyStr(Get(fields, "command", Str("")))));
    } else {
      MasksAreKnown(Lower(PyStr(Get(fields, "command", Str("")))));
    }
  }

  lemma ConsumersAreKnown(command: string)
    requires ConsumerUsage(command).Some?
    ensures ConsumerUsage(command).value in {0xE9, 0xEA}
  {}

  lemma MasksAreKnown(command: string)
    requires MouseMask(command).Some?
    ensures MouseMask(command).value in {0x01, 0x02, 0x04, 0x08, 0x10}
  {}

  lemma DefaultBindingOk(pages: Vm.Pages, golden: seq<byte>, block: Block, r: Route)
    requires SpecAt(block, r).None?
    ensures var b := DefaultBytes(golden, block, r);
            (BindingOk(pages, b) <==> RouteSuits(golden, block, r)) && (BindingOk(pages, b) ==> MacroRuns(pages, b))
  {
    hide Binding;
    hide KnownUsage;
    hide Vm.RunsToEnd;
    hide Sector.PayloadLimit;
  }

  /** A macro starts with END only if it is END alone. */
  lemma FirstByteIsEnd(bytecode: seq<byte>)
    requires Tokenize(bytecode).Ok? && Clean(Tokenize(bytecode).value)
    ensures bytecode != [] && (bytecode[0] == OP_END <==> bytecode == [OP_END])
  {
    hide Split;
    var tokens := Tokenize(bytecode).value;
    TokenizeMeans(bytecode, tokens);
    assert bytecode == tokens[0] + Flatten(tokens[1..]);
    assert IsToken(tokens[0]);
    if |tokens| == 1 {
      assert tokens[1..] == [];
    }
  }

  lemma FirstByteOnPage(images: Store.Images, a: Store.Allocation, bytecode: seq<byte>)
    requires Allocator.Allocated(images, a, bytecode)
    ensures 8 <= a.sector < 16 && a.offset < PAGE_DATA_SIZE
    ensures bytecode != [] && images[a.sector - 8][a.offset] == bytecode[0]
  {
    hide Split;
    var f := a.fragments[0];
    assert Store.Written(images, f);
    var payload := Store.Payload(images, f);
    assert Store.TextFrom(images, a.fragments, 0) == payload + Store.TextFrom(images, a.fragments, 1);
    assert payload[0] == images[f.sector - 8][f.offset];
  }

  /** The pointer written for a macro route, read back by the validator. */
  lemma PointerBindingOk(pages: Vm.Pages, images: Store.Images, a: Store.Allocation, bytecode: seq<byte>)
    requires Linking.Mounted(pages, images) && Allocator.Allocated(images, a, bytecode)
    requires 8 <= a.sector < 16 && a.offset < PAGE_DATA_SIZE
    requires Tokenize(bytecode).Ok? && Clean(Tokenize(bytecode).value)
    ensures var b := MacroPointer(a.sector, a.offset);
            && BindingKind(b) == MacroBinding && StartOf(b) == (a.sector, a.offset)
            && (BindingOk(pages, b) <==> bytecode != [OP_END])
            && Linking.Executes(pages, Vm.Walk(pages, StartOf(b)), Tokenize(bytecode).value)
            && MacroRuns(pages, b)
  {
    hide Tokenize;
    hide Clean;
    hide Store.Placed;
    hide Vm.WalkFrom;
    hide Vm.IsRun;
    FirstByteOnPage(images, a, bytecode);
    FirstByteIsEnd(bytecode);
    assert Linking.MountedAt(pages, images, a.sector);
    Linking.LinkedMacroRuns(pages, images, a.fragments, bytecode);
    Vm.WalkMeans(pages, (a.sector, a.offset));
  }

  // ---------------------------------------------------------------- the whole image

  lemma OverlayMounts(golden: Images, plan: Plan)
    requires Complete(golden) && forall p :: 2 <= p <= 5 ==> p in plan.profiles
    ensures Linking.Mounted(MacroPages(Overlay(golden, plan)), plan.store.images)
  {
    forall sector | 8 <= sector < 16
      ensures Linking.MountedAt(MacroPages(Overlay(golden, plan)), plan.store.images, sector)
    {}
  }

  /** MAIN RESULT. For every list of clean macros the allocator accepts, on the finished
      pages and from each allocated start, the independent walker executes exactly that
      macro's instructions. */
  lemma AllocatedMacroRuns(store: Allocator.MacroStore, unique: seq<seq<byte>>, pages: Vm.Pages, j: nat)
    requires Allocator.StoreDescribes(store, unique) && j < |unique| && Linking.Mounted(pages, store.images)
    requires Clean(Tokenize(unique[j]).value)
    ensures var a := store.allocations[j];
            Linking.Executes(pages, Vm.Walk(pages, (a.sector, a.offset)), Tokenize(unique[j]).value)
  {
    hide Linking.Mounted;
    hide Linking.Executes;
    hide Vm.Walk;
    hide Store.Placed;
    hide Store.Ordered;
    hide Store.Frontier;
    hide Allocator.FreeTail;
    hide Tokenize;
    hide Clean;
    hide Sector.SectorCrcOk;
    assert Allocator.Allocated(store.images, store.allocations[j], unique[j]);
    Linking.LinkedMacroRuns(pages, store.images, store.allocations[j].fragments, unique[j]);
  }

  /** A configured macro route: its bytecode, and where it was put. */
  lemma MacroRoute(config: Profiles, golden: Images, plan: Plan, k: Key)
    requires ValidConfig(config) && Complete(golden) && PlanDescribes(plan, config, golden)
    requires k in plan.items && plan.items[k].MacroItem?
    ensures k in plan.macroOf && plan.macroOf[k] < |plan.store.allocations|
    ensures var a := plan.store.allocations[plan.macroOf[k]];
            var bytecode := plan.items[k].bytecode;
            && Allocator.Allocated(plan.store.images, a, bytecode) && 8 <= a.sector < 16 && a.offset < PAGE_DATA_SIZE
            && Tokenize(bytecode).Ok? && Clean(Tokenize(bytecode).value)
  {
    hide CompileBinding;
    hide Tokenize;
    hide Clean;
    hide Store.Ordered;
    hide Store.Frontier;
    hide Allocator.Allocated;
    hide AllPagesFor;
    hide DirectoryFor;
    hide ValidBlock;
    assert Compiled(config[k.0], k.1, plan.items[k]);
    Emission.MacroIsClean(SpecAt(config[k.0], k.1).value);
  }

  lemma SpecsAreAccepted(block: Block, r: Route)
    requires ValidBlock(block)
    ensures SpecAt(block, r).Some? ==> Config.AcceptsAction(SpecAt(block, r).value)
  {
    hide Config.AcceptsAction;
  }

  /** One route of a configured profile is accepted exactly when it suits. */
  lemma RouteAccepted(config: Profiles, golden: Images, plan: Plan, pages: Vm.Pages, p: nat, r: Route)
    requires ValidConfig(config) && Complete(golden) && PlanDescribes(plan, config, golden)
    requires 2 <= p <= 5 && p in config && IsRoute(r) && Linking.Mounted(pages, plan.store.images)
    ensures var b := Expected(golden[p], config[p], p, plan.items, plan.macroOf, plan.store.allocations, r);
            |b| == 4 && (BindingOk(pages, b) <==> RouteSuits(golden[p], config[p], r))
            && (BindingOk(pages, b) ==> MacroRuns(pages, b))
  {
    hide CompileBinding;
    hide Frontend.SaysNothing;
    hide Config.AcceptsAction;
    hide BindingOk;
    hide MacroRuns;
    hide DefaultBytes;
    hide KeptBindingOk;
    hide Binding;
    hide Tokenize;
    hide Clean;
    hide Allocator.StoreDescribes;
    hide Allocator.Allocated;
    hide Linking.Mounted;
    hide Linking.Executes;
    hide AllPagesFor;
    hide DirectoryFor;
    hide ValidBlock;
    hide Deduplicated;
    hide Vm.Walk;
    var k: Key := (p, r);
    if k in plan.items {
      assert Compiled(config[p], r, plan.items[k]);
      var spec := SpecAt(config[p], r).value;
      SpecsAreAccepted(config[p], r);
      Frontend.BareEndSaysNothing(spec);
      match plan.items[k]
      case Direct(binding) =>
        DirectBindingIsKnown(spec);
        KnownDirect(pages, binding);
      case MacroItem(bytecode) =>
        MacroRoute(config, golden, plan, k);
        PointerBindingOk(pages, plan.store.images, plan.store.allocations[plan.macroOf[k]], bytecode);
    } else {
      assert SpecAt(config[p], r).None?;
      DefaultBindingOk(pages, golden[p], config[p], r);
    }
  }

  lemma KnownDirect(pages: Vm.Pages, b: seq<byte>)
    requires |b| == 4 && BindingKind(b) == DirectBinding && DirectOk(b)
    ensures BindingOk(pages, b) && MacroRuns(pages, b)
  {}

  /** An enabled, configured profile passes exactly when it suits. */
  lemma ProfileAccepted(config: Profiles, golden: Images, plan: Plan, images: Images, p: nat)
    requires ValidConfig(config) && Complete(golden) && PlanDescribes(plan, config, golden)
    requires 2 <= p <= 5 && p in config && p in images && images[p] == plan.profiles[p]
    requires Linking.Mounted(MacroPages(images), plan.store.images)
    ensures Sector.SectorCrcOk(images[p])
    ensures ProfileFieldsOk(images, p) <==> ProfileSuits(golden[p], config[p])
    ensures ProfileFieldsOk(images, p) ==> ProfileMacrosRun(images, p)
  {
    hide BindingOk;
    hide MacroRuns;
    hide RouteSuits;
    hide Expected;
    hide ItemsUpTo;
    hide Deduplicated;
    hide Allocator.StoreDescribes;
    hide DirectoryFor;
    hide Linking.Mounted;
    hide Binding;
    hide EffectiveDpi;
    hide DpiList;
    hide ChoicesExist;
    hide RateByte;
    hide SlotByte;
    hide KnownRate;
    hide ValidSettings;
    hide Pointable;
    assert PageFor(plan.profiles[p], config, golden, p, plan.items, plan.macroOf, plan.store.allocations);
    assert ValidBlock(config[p]);
    SettingsBytes(plan.profiles[p], golden[p], config[p].settings);
    forall r | IsRoute(r)
      ensures BindingOk(MacroPages(images), Binding(images[p], r)) <==> RouteSuits(golden[p], config[p], r)
      ensures BindingOk(MacroPages(images), Binding(images[p], r)) ==>
                MacroRuns(MacroPages(images), Binding(images[p], r))
    {
      RouteAccepted(config, golden, plan, MacroPages(images), p, r);
    }
  }

  /** MAIN RESULT. Laid over the baseline, a returned plan passes the validator if and
      only if the baseline suits the configuration: kept settings bytes and kept normal
      bindings are ones the validator knows, no configured macro is a bare END, and
      unconfigured profile pages carry valid checksums. */
  lemma PlanValidates(config: Profiles, golden: Images, plan: Plan)
    requires ValidConfig(config) && Complete(golden) && PlanDescribes(plan, config, golden)
    ensures CleanImages(Overlay(golden, plan), golden) <==> BaselineSuits(config, golden)
  {
    hide ItemsUpTo;
    hide Deduplicated;
    hide Allocator.StoreDescribes;
    hide Pointable;
    hide ProfileDescribes;
    hide ChoicesExist;
    hide ProfileSuits;
    hide ProfileFieldsOk;
    hide ProfileMacrosRun;
    hide Sector.SectorCrcOk;
    hide ValidBlock;
    hide DirectoryOk;
    hide MacroPages;
    var images := Overlay(golden, plan);
    OverlayMounts(golden, plan);
    OverlayIsComplete(config, golden, plan);
    forall p | 2 <= p <= 5
      ensures Sector.SectorCrcOk(images[p]) &&
              (Enabled(images[0], p) ==> ProfileFieldsOk(images, p) && ProfileMacrosRun(images, p))
         <==> (if p in config then ProfileSuits(golden[p], config[p]) else Sector.SectorCrcOk(golden[p]))
    {
      assert PageFor(plan.profiles[p], config, golden, p, plan.items, plan.macroOf, plan.store.allocations);
      if p in config {
        ProfileAccepted(config, golden, plan, images, p);
      }
    }
  }

  lemma OverlayIsComplete(config: Profiles, golden: Images, plan: Plan)
    requires ValidConfig(config) && Complete(golden) && PlanDescribes(plan, config, golden)
    ensures var images := Overlay(golden, plan);
            && Complete(images) && RecoveryUntouched(images, golden) && DirectoryOk(images[0], golden[0])
            && forall p :: 2 <= p <= 5 ==> (Enabled(images[0], p) <==> p in config)
  {
    hide ItemsUpTo;
    hide Deduplicated;
    hide Allocator.StoreDescribes;
    hide Pointable;
    hide ChoicesExist;
    hide ValidBlock;
    forall p | 2 <= p <= 5
      ensures p in plan.profiles && |plan.profiles[p]| == SECTOR_SIZE
    {
      assert PageFor(plan.profiles[p], config, golden, p, plan.items, plan.macroOf, plan.store.allocations);
    }
  }

  /** These images hold the planned macro pages and the planned page of profile `p`. */
  ghost predicate Carries(images: Images, plan: Plan, p: nat) {
    p in images && p in plan.profiles && images[p] == plan.profiles[p] &&
    forall sector :: 8 <= sector < 16 ==> sector in images && images[sector] == plan.store.images[sector - 8]
  }

  lemma CarriesMounts(images: Images, plan: Plan, p: nat)
    requires Carries(images, plan, p)
    ensures Linking.Mounted(MacroPages(images), plan.store.images)
  {
    forall sector | 8 <= sector < 16
      ensures Linking.MountedAt(MacroPages(images), plan.store.images, sector)
    {}
  }

  lemma OverlayCarries(golden: Images, plan: Plan, p: nat)
    requires Complete(golden) && (forall q :: 2 <= q <= 5 ==> q in plan.profiles) && 2 <= p <= 5
    ensures Carries(Overlay(golden, plan), plan, p)
  {
  }

  /** The stored pointer of this route starts a run of its own bytecode, and that makes the
      host notice what the route's specification asks for. */
  ghost predicate RoutePerforms(images: Images, p: nat, r: Route, bytecode: seq<byte>, spec: Json)
    requires p in images
  {
    Tokenize(bytecode).Ok? && Meaning.Performs(Tokenize(bytecode).value, spec) &&
    Linking.Executes(MacroPages(images), Vm.Walk(MacroPages(images), StartOf(Binding(images[p], r))),
                     Tokenize(bytecode).value)
  }

  /** MAIN RESULT. From the text of a specification to the pages: on any images with the
      planned macro pages and the planned profile page, each configured macro route runs its
      own bytecode and does what was asked for. */
  lemma RouteRunsItsMacro(config: Profiles, golden: Images, plan: Plan, images: Images, p: nat, r: Route)
    requires ValidConfig(config) && Complete(golden) && PlanDescribes(plan, config, golden)
    requires 2 <= p <= 5 && p in config && IsRoute(r) && Carries(images, plan, p)
    requires (p, r) in plan.items && plan.items[(p, r)].MacroItem?
    ensures SpecAt(config[p], r).Some?
    ensures RoutePerforms(images, p, r, plan.items[(p, r)].bytecode, SpecAt(config[p], r).value)
  {
    hide ItemsUpTo;
    hide Deduplicated;
    hide Allocator.StoreDescribes;
    hide DirectoryFor;
    hide ChoicesExist;
    hide ValidBlock;
    hide Binding;
    hide EffectiveDpi;
    hide DpiList;
    hide Linking.Mounted;
    hide Linking.Executes;
    hide Vm.Walk;
    hide Allocator.Allocated;
    hide Tokenize;
    hide MacroPages;
    hide CompileBinding;
    hide Meaning.Performs;
    assert PageFor(plan.profiles[p], config, golden, p, plan.items, plan.macroOf, plan.store.allocations);
    CarriesMounts(images, plan, p);
    MacroRoute(config, golden, plan, (p, r));
    MacroMeans(config, plan, (p, r));
    PointerBindingOk(MacroPages(images), plan.store.images,
                     plan.store.allocations[plan.macroOf[(p, r)]], plan.items[(p, r)].bytecode);
  }

  lemma MacroMeans(config: Profiles, plan: Plan, k: Key)
    requires ItemsUpTo(config, plan.items, 6, 0) && k in plan.items && plan.items[k].MacroItem?
    ensures k.0 in config && SpecAt(config[k.0], k.1).Some? && Tokenize(plan.items[k].bytecode).Ok?
    ensures Meaning.Performs(Tokenize(plan.items[k].bytecode).value, SpecAt(config[k.0], k.1).value)
  {
    hide CompileBinding;
    hide Tokenize;
    hide Meaning.Performs;
    assert Compiled(config[k.0], k.1, plan.items[k]);
    Meaning.MacroPerforms(SpecAt(config[k.0], k.1).value);
  }
}
