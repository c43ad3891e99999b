/** `build_plan`: from a validated configuration to the pages to be written. */
module Plan {
  import opened Bytes
  import opened Actions
  import opened Config
  import opened Compile
  import opened Dedup
  import opened Profile
  import opened Directory
  import Macro
  import Emission
  import Frontend
  import Store
  import Allocator
  import Sector

  // ---------------------------------------------------------------- validated configurations

  /** One profile of a validated configuration; targets are positions in the target order. */
  datatype Block = Block(
    settings: Settings,
    buttons: map<nat, Json>,
    gShiftButton: Option<nat>,
    gShift: map<nat, Json>)

  type Profiles = map<nat, Block>

  function SpecAt(block: Block, r: Route): Option<Json> {
    var layer := if r.layer == Normal then block.buttons else block.gShift;
    if r.target in layer then Some(layer[r.target]) else None
  }

  /** What `validate_config` has established about one profile. */
  predicate ValidBlock(block: Block) {
    ValidSettings(block.settings) &&
    (forall t :: t in block.buttons ==>
       t < TARGETS && t != WHEEL_DOWN && t != WHEEL_UP && AcceptsAction(block.buttons[t])) &&
    (forall t :: t in block.gShift ==> t < TARGETS && AcceptsAction(block.gShift[t])) &&
    (forall t :: t in block.gShift && t in {WHEEL_DOWN, WHEEL_UP} ==> IsConsumerSpec(block.gShift[t])) &&
    (match block.gShiftButton
     case Some(t) => t < WHEEL_DOWN && t !in block.buttons
     case None => block.gShift == map[])
  }

  predicate ValidConfig(config: Profiles) {
    2 in config && forall p :: p in config ==> 2 <= p <= 5 && ValidBlock(config[p])
  }

  /** A complete device image: sixteen sectors of full size. */
  type Images = map<nat, seq<byte>>

  predicate Complete(images: Images) {
    forall s: nat :: s < SECTOR_COUNT ==> s in images && |images[s]| == SECTOR_SIZE
  }

  datatype PlanError =
    | CannotCompile(profile: nat, route: Route, reason: CompileError)
    | CannotAllocate(why: Allocator.AllocError, sourceBytes: nat)
    | NoSuchDpi(profile: nat)
    | BadDirectory(fault: DirectoryError)

  // ---------------------------------------------------------------- compiling every route

  ghost predicate Compiled(block: Block, r: Route, item: Item) {
    IsRoute(r) && SpecAt(block, r).Some? && CompileBinding(SpecAt(block, r).value) == Ok(item)
  }

  /** Items for exactly the configured routes of the profiles below `p`, and for the
      first `n` routes of profile `p`. */
  ghost predicate ItemsUpTo(config: Profiles, items: map<Key, Item>, p: nat, n: nat) {
    (forall k :: k in items ==> k.0 in config && Compiled(config[k.0], k.1, items[k])) &&
    forall q, r {:trigger (q, r) in items} ::
      q in config && IsRoute(r) && SpecAt(config[q], r).Some? && (q < p || (q == p && RouteNumber(r) < n)) ==>
        (q, r) in items
  }

  method CompileProfile(config: Profiles, p: nat, before: map<Key, Item>) returns (r: Result<map<Key, Item>, PlanError>)
    requires p in config && ItemsUpTo(config, before, p, 0)
    ensures r.Ok? ==> ItemsUpTo(config, r.value, p + 1, 0)
    ensures r.Err? ==> r.error.CannotCompile? && r.error.profile == p && IsRoute(r.error.route) &&
                       SpecAt(config[p], r.error.route).Some? &&
                       CompileBinding(SpecAt(config[p], r.error.route).value) == Err(r.error.reason)
  {
    hide CompileBinding;
    var items := before;
    for n := 0 to 2 * TARGETS
      invariant ItemsUpTo(config, items, p, n)
    {
      var route := NthRoute(n);
      assert RouteNumber(route) == n && forall s :: IsRoute(s) && RouteNumber(s) == n ==> s == route;
      match SpecAt(config[p], route) {
        case None =>
        case Some(spec) =>
          match CompileBinding(spec) {
            case Err(e) => return Err(CannotCompile(p, route, e));
            case Ok(item) => items := items[(p, route) := item];
          }
      }
    }
    return Ok(items);
  }

  /** The named route is configured and its specification does not compile. */
  predicate Uncompilable(config: Profiles, p: nat, r: Route, reason: CompileError) {
    p in config && IsRoute(r) && SpecAt(config[p], r).Some? && CompileBinding(SpecAt(config[p], r).value) == Err(reason)
  }

  ghost predicate EverySpecCompiles(config: Profiles) {
    forall p, r {:trigger SpecAt(config[p], r)} ::
      p in config && IsRoute(r) && SpecAt(config[p], r).Some? ==> CompileBinding(SpecAt(config[p], r).value).Ok?
  }

  lemma ItemsShowCompilation(config: Profiles, items: map<Key, Item>)
    requires ValidConfig(config) && ItemsUpTo(config, items, 6, 0)
    ensures EverySpecCompiles(config)
  {
    hide CompileBinding;
    hide ValidBlock;
    forall p, r | p in config && IsRoute(r) && SpecAt(config[p], r).Some?
      ensures CompileBinding(SpecAt(config[p], r).value).Ok?
    {
      assert (p, r) in items;
      assert Compiled(config[p], r, items[(p, r)]);
    }
  }

  /** By what is written in the specifications: they all compile unless one contains a
      character without a key or a mouse action not spelled in lower case. */
  lemma CompilationByText(config: Profiles)
    requires ValidConfig(config)
    ensures EverySpecCompiles(config) <==>
              forall p, r {:trigger SpecAt(config[p], r)} :: p in config && IsRoute(r) && SpecAt(config[p], r).Some? ==>
                var spec := SpecAt(config[p], r).value;
                !Frontend.HasUnavailableText(spec) && !(IsMouse(spec) && !Frontend.SpelledMouse(spec))
  {
    hide CompileBinding;
    hide Frontend.HasUnavailableText;
    hide Frontend.SpelledMouse;
    hide IsMouse;
    hide AcceptsAction;
    forall p, r | p in config && IsRoute(r) && SpecAt(config[p], r).Some?
      ensures var spec := SpecAt(config[p], r).value;
              CompileBinding(spec).Err? <==>
                Frontend.HasUnavailableText(spec) || (IsMouse(spec) && !Frontend.SpelledMouse(spec))
    {
      Frontend.BindingFails(SpecAt(config[p], r).value);
    }
  }

  method CompileAll(config: Profiles) returns (r: Result<map<Key, Item>, PlanError>)
    requires ValidConfig(config)
    ensures r.Ok? ==> ItemsUpTo(config, r.value, 6, 0) && EverySpecCompiles(config)
    ensures r.Err? ==> r.error.CannotCompile? && Uncompilable(config, r.error.profile, r.error.route, r.error.reason)
  {
    hide ValidBlock;
    hide EverySpecCompiles;
    hide CompileBinding;
    var items: map<Key, Item> := map[];
    for p := 2 to 6
      invariant ItemsUpTo(config, items, p, 0)
    {
      if p in config {
        var compiled := CompileProfile(config, p, items);
        match compiled {
          case Err(e) => return Err(e);
          case Ok(all) => items := all;
        }
      }
    }
    ItemsShowCompilation(config, items);
    return Ok(items);
  }

  // ---------------------------------------------------------------- profile pages

  /** `macro_pointer`. */
  function MacroPointer(sector: byte, offset: nat): (r: seq<byte>)
    ensures |r| == 4 && r[0] == 0 && r[1] == sector
    ensures offset < 0x1_0000 ==> UnpackBE(r[2], r[3]) == offset
  {
    [0, sector, offset / 256 % 256, offset % 256]
  }

  type Allocations = seq<Store.Allocation>

  /** Every macro route has an allocation, in the global store, that a pointer can name. */
  ghost predicate Pointable(items: map<Key, Item>, macroOf: map<Key, nat>, allocations: Allocations) {
    (forall k :: k in items ==>
       (items[k].Direct? ==> |items[k].binding| == 4) && (items[k].MacroItem? ==> k in macroOf)) &&
    (forall k :: k in macroOf ==> macroOf[k] < |allocations|) &&
    forall i :: 0 <= i < |allocations| ==> 8 <= allocations[i].sector < 16 && allocations[i].offset < PAGE_DATA_SIZE
  }

  /** The four bytes a configured route gets. */
  function RouteBytes(items: map<Key, Item>, macroOf: map<Key, nat>, allocations: Allocations, k: Key): (r: seq<byte>)
    requires Pointable(items, macroOf, allocations) && k in items
    ensures |r| == 4
  {
    match items[k]
    case Direct(binding) => binding
    case MacroItem(_) => MacroPointer(allocations[macroOf[k]].sector, allocations[macroOf[k]].offset)
  }

  /** The four bytes of a route nobody configured. */
  function DefaultBytes(golden: seq<byte>, block: Block, r: Route): (b: seq<byte>)
    ensures |b| == 4
  {
    if r.layer == GShift then NOOP
    else if block.gShiftButton == Some(r.target) then GSHIFT
    else Neutral(Binding(golden, r))
  }

  function Expected(golden: seq<byte>, block: Block, p: nat, items: map<Key, Item>, macroOf: map<Key, nat>,
                    allocations: Allocations, r: Route): seq<byte>
    requires Pointable(items, macroOf, allocations)
  {
    if (p, r) in items then RouteBytes(items, macroOf, allocations, (p, r)) else DefaultBytes(golden, block, r)
  }

  /** A profile page built for a block, field by field. */
  ghost predicate ProfileDescribes(data: seq<byte>, golden: seq<byte>, block: Block, p: nat, items: map<Key, Item>,
                                   macroOf: map<Key, nat>, allocations: Allocations)
    requires Pointable(items, macroOf, allocations) && ValidSettings(block.settings)
  {
    |golden| == SECTOR_SIZE && Sector.SectorCrcOk(data) &&
    (forall r :: IsRoute(r) ==> Binding(data, r) == Expected(golden, block, p, items, macroOf, allocations, r)) &&
    data[0] == RateByte(golden[0], block.settings) &&
    data[1] == SlotByte(golden[1], block.settings.defaultDpi, EffectiveDpi(golden, block.settings)) &&
    data[2] == SlotByte(golden[2], block.settings.shiftDpi, EffectiveDpi(golden, block.settings)) &&
    DpiList(data) == EffectiveDpi(golden, block.settings) &&
    data[0xA0..0xD0] == (match block.settings.name case Some(n) => PadName(n) case None => golden[0xA0..0xD0]) &&
    forall i :: 0 <= i < PAGE_DATA_SIZE && !InBindings(i) && !InSettings(i) ==> data[i] == golden[i]
  }

  /** Overwrite the whole shifted layer, then mark the G-Shift button. */
  method WriteDefaults(out: array<byte>, golden: seq<byte>, block: Block)
    requires out.Length == SECTOR_SIZE && golden == out[..] && ValidBlock(block)
    modifies out
    ensures SameElsewhere(golden, out[..])
    ensures forall r :: IsRoute(r) ==> Binding(out[..], r) == DefaultBytes(golden, block, r)
  {
    hide Binding;
    hide SameElsewhere;
    NeutralizeMacroPointers(out);
    for target := 0 to TARGETS
      invariant SameElsewhere(golden, out[..])
      invariant forall r :: IsRoute(r) ==>
        Binding(out[..], r) == (if r.layer == GShift && r.target < target then NOOP else Neutral(Binding(golden, r)))
    {
      ghost var before := out[..];
      SetBinding(out, Route(GShift, target), NOOP);
      ElsewhereTransitive(golden, before, out[..]);
    }
    if block.gShiftButton.Some? {
      ghost var before := out[..];
      SetBinding(out, Route(Normal, block.gShiftButton.value), GSHIFT);
      ElsewhereTransitive(golden, before, out[..]);
    }
  }

  lemma ElsewhereTransitive(a: seq<byte>, b: seq<byte>, c: seq<byte>)
    requires SameElsewhere(a, b) && SameElsewhere(b, c)
    ensures SameElsewhere(a, c)
  {}

  method SetBinding(out: array<byte>, r: Route, b: seq<byte>)
    requires out.Length == SECTOR_SIZE && IsRoute(r) && |b| == 4
    modifies out
    ensures SameElsewhere(old(out[..]), out[..])
    ensures forall s :: IsRoute(s) ==> Binding(out[..], s) == if s == r then b else Binding(old(out[..]), s)
  {
    hide Binding;
    ghost var before := out[..];
    Put(out, Offset(r), b);
    forall s | IsRoute(s)
      ensures Binding(out[..], s) == if s == r then b else Binding(before, s)
    {
      OneSlot(before, r, b, s);
    }
    SlotIsBinding(before, r, b);
  }

  /** Write every configured route of the profile. */
  method WriteRoutes(out: array<byte>, golden: seq<byte>, block: Block, p: nat, items: map<Key, Item>,
                     macroOf: map<Key, nat>, allocations: Allocations)
    requires out.Length == SECTOR_SIZE && Pointable(items, macroOf, allocations)
    requires SameElsewhere(golden, out[..])
    requires forall r :: IsRoute(r) ==> Binding(out[..], r) == DefaultBytes(golden, block, r)
    modifies out
    ensures SameElsewhere(golden, out[..])
    ensures forall r :: IsRoute(r) ==> Binding(out[..], r) == Expected(golden, block, p, items, macroOf, allocations, r)
  {
    hide Binding;
    hide SameElsewhere;
    hide DefaultBytes;
    hide Pointable;
    for n := 0 to 2 * TARGETS
      invariant SameElsewhere(golden, out[..])
      invariant forall r :: IsRoute(r) ==>
        Binding(out[..], r) == (if SortedNumber(r) < n then Expected(golden, block, p, items, macroOf, allocations, r)
                                else DefaultBytes(golden, block, r))
    {
      var route := SortedRoute(n);
      SortedIsOneToOne(n);
      if (p, route) in items {
        ghost var before := out[..];
        SetBinding(out, route, RouteBytes(items, macroOf, allocations, (p, route)));
        ElsewhereTransitive(golden, before, out[..]);
      }
    }
    SortedIsOneToOne(0);
  }

  lemma SettingsMissBindings(before: seq<byte>, after: seq<byte>, r: Route)
    requires |before| == |after| == SECTOR_SIZE && IsRoute(r)
    requires forall i :: 0 <= i < SECTOR_SIZE && !InSettings(i) ==> after[i] == before[i]
    ensures Binding(after, r) == Binding(before, r)
  {}

  lemma CrcMissesFields(data: seq<byte>)
    requires |data| == SECTOR_SIZE
    ensures forall i :: 0 <= i < PAGE_DATA_SIZE ==> Sector.WithCrc(data)[i] == data[i]
    ensures forall r :: IsRoute(r) ==> Binding(Sector.WithCrc(data), r) == Binding(data, r)
    ensures Sector.WithCrc(data)[0xA0..0xD0] == data[0xA0..0xD0]
  {
    forall i | 0 <= i < PAGE_DATA_SIZE
      ensures Sector.WithCrc(data)[i] == data[i]
    {
      assert Sector.WithCrc(data)[..PAGE_DATA_SIZE][i] == data[..PAGE_DATA_SIZE][i];
    }
  }

  /** Settings bytes of a page that differs only in binding slots. */
  lemma SettingsBytesKept(golden: seq<byte>, data: seq<byte>, s: Settings)
    requires |golden| == SECTOR_SIZE && SameElsewhere(golden, data)
    ensures data[0] == golden[0] && data[1] == golden[1] && data[2] == golden[2]
    ensures EffectiveDpi(data, s) == EffectiveDpi(golden, s) && data[0xA0..0xD0] == golden[0xA0..0xD0]
  {
    assert forall i :: 0 <= i < 13 || 0xA0 <= i < 0xD0 ==> data[i] == golden[i];
  }

  /** The profile loop of `build_plan`; `None` where `_apply_settings` raises. */
  method BuildProfile(golden: seq<byte>, block: Block, p: nat, items: map<Key, Item>, macroOf: map<Key, nat>,
                      allocations: Allocations) returns (r: Option<seq<byte>>)
    requires |golden| == SECTOR_SIZE && ValidBlock(block) && Pointable(items, macroOf, allocations)
    ensures r.Some? <==> ChoicesExist(golden, block.settings)
    ensures r.Some? ==> ProfileDescribes(r.value, golden, block, p, items, macroOf, allocations)
  {
    hide Binding;
    hide Pointable;
    hide Expected;
    hide EffectiveDpi;
    hide DpiList;
    var out := new byte[SECTOR_SIZE](i requires 0 <= i < SECTOR_SIZE => golden[i]);
    assert out[..] == golden;
    WriteDefaults(out, golden, block);
    WriteRoutes(out, golden, block, p, items, macroOf, allocations);
    ghost var routed := out[..];
    SettingsBytesKept(golden, routed, block.settings);
    var ok := ApplySettings(out, block.settings);
    if !ok {
      return None;
    }
    ghost var applied := out[..];
    forall r | IsRoute(r)
      ensures Binding(applied, r) == Expected(golden, block, p, items, macroOf, allocations, r)
    {
      SettingsMissBindings(routed, applied, r);
    }
    CrcMissesFields(applied);
    var data := Sector.WithCrc(out[..]);
    SameDpi(applied, data);
    return Some(data);
  }

  // ---------------------------------------------------------------- the whole plan

  datatype Plan = Plan(
    items: map<Key, Item>,
    macroOf: map<Key, nat>,
    unique: seq<seq<byte>>,
    store: Allocator.MacroStore,
    profiles: map<nat, seq<byte>>,
    directory: seq<byte>)

  /** Profiles 1 and 2, and every configured profile from 3 on. */
  function EnabledSet(config: Profiles): set<nat> {
    {1, 2} + set p | p in config && p >= 3
  }

  /** The page planned for profile `p`: built if configured, the baseline page if not. */
  ghost predicate PageFor(page: seq<byte>, config: Profiles, golden: Images, p: nat, items: map<Key, Item>,
                          macroOf: map<Key, nat>, allocations: Allocations)
    requires ValidConfig(config) && Complete(golden) && Pointable(items, macroOf, allocations)
  {
    p in golden &&
    if p in config then
      |golden[p]| == SECTOR_SIZE && ChoicesExist(golden[p], config[p].settings) &&
      ProfileDescribes(page, golden[p], config[p], p, items, macroOf, allocations)
    else page == golden[p]
  }

  ghost predicate AllPagesFor(pages: map<nat, seq<byte>>, config: Profiles, golden: Images, limit: nat,
                              items: map<Key, Item>, macroOf: map<Key, nat>, allocations: Allocations)
    requires ValidConfig(config) && Complete(golden) && Pointable(items, macroOf, allocations)
  {
    (forall p :: p in pages ==> 2 <= p < limit) &&
    forall p :: 2 <= p < limit ==> p in pages && PageFor(pages[p], config, golden, p, items, macroOf, allocations)
  }

  /** Everything a returned plan promises. */
  ghost predicate PlanDescribes(plan: Plan, config: Profiles, golden: Images)
    requires ValidConfig(config) && Complete(golden)
  {
    && ItemsUpTo(config, plan.items, 6, 0)
    && Deduplicated(plan.items, plan.unique, plan.macroOf) && InRouteOrder(plan.items, plan.macroOf)
    && Allocator.StoreDescribes(plan.store, plan.unique)
    && Pointable(plan.items, plan.macroOf, plan.store.allocations)
    && AllPagesFor(plan.profiles, config, golden, 6, plan.items, plan.macroOf, plan.store.allocations)
    && DirectoryFor(plan.directory, golden[0], EnabledSet(config))
  }

  lemma DirectBindingsAreFourBytes(spec: Json)
    requires CompileBinding(spec).Ok? && CompileBinding(spec).value.Direct?
    ensures |CompileBinding(spec).value.binding| == 4
  {
    hide ActionCode;
    hide Kind;
    hide Alias;
    hide UpperNames;
    hide KeyUsage;
    hide ModifierOf;
  }

  lemma ItemsArePointable(config: Profiles, items: map<Key, Item>, unique: seq<seq<byte>>, macroOf: map<Key, nat>,
                          store: Allocator.MacroStore)
    requires ItemsUpTo(config, items, 6, 0) && Deduplicated(items, unique, macroOf)
    requires InRouteOrder(items, macroOf) && Allocator.StoreDescribes(store, unique)
    ensures Pointable(items, macroOf, store.allocations)
  {
    hide CompileBinding;
    hide Allocator.StoreDescribes;
    forall k | k in items
      ensures items[k].Direct? ==> |items[k].binding| == 4
    {
      assert Compiled(config[k.0], k.1, items[k]);
      if items[k].Direct? {
        DirectBindingsAreFourBytes(SpecAt(config[k.0], k.1).value);
      }
    }
    StoreIsPointable(store, unique);
  }

  lemma StoreIsPointable(store: Allocator.MacroStore, unique: seq<seq<byte>>)
    requires Allocator.StoreDescribes(store, unique)
    ensures |store.allocations| == |unique|
    ensures forall i :: 0 <= i < |store.allocations| ==>
              8 <= store.allocations[i].sector < 16 && store.allocations[i].offset < PAGE_DATA_SIZE
  {
    hide Store.Frontier;
    hide Store.Ordered;
    forall i | 0 <= i < |store.allocations|
      ensures 8 <= store.allocations[i].sector < 16 && store.allocations[i].offset < PAGE_DATA_SIZE
    {
      var a := store.allocations[i];
      assert Allocator.Allocated(store.images, a, unique[i]);
      assert Store.Written(store.images, a.fragments[0]);
    }
  }

  /** Compiled macros meet the allocator's precondition for completeness. */
  lemma CompiledMacrosAreShort(config: Profiles, items: map<Key, Item>, unique: seq<seq<byte>>, macroOf: map<Key, nat>)
    requires ItemsUpTo(config, items, 6, 0) && Deduplicated(items, unique, macroOf)
    ensures Allocator.Tokenizable(unique) && Allocator.AllShort(unique)
    ensures forall i :: 0 <= i < |unique| ==>
              Macro.Tokenize(unique[i]).Ok? && Macro.Clean(Macro.Tokenize(unique[i]).value)
  {
    hide CompileBinding;
    hide Macro.Tokenize;
    hide Macro.Clean;
    hide Macro.ShortTokens;
    forall i | 0 <= i < |unique|
      ensures Macro.Tokenize(unique[i]).Ok? && Macro.ShortTokens(Macro.Tokenize(unique[i]).value)
           && Macro.Clean(Macro.Tokenize(unique[i]).value)
    {
      assert Used(macroOf, i);
      var k :| k in macroOf && macroOf[k] == i;
      assert Compiled(config[k.0], k.1, items[k]);
      Emission.MacroIsClean(SpecAt(config[k.0], k.1).value);
    }
  }

  /** The profile part of `build_plan`. */
  method BuildProfiles(config: Profiles, golden: Images, items: map<Key, Item>, macroOf: map<Key, nat>,
                       allocations: Allocations) returns (r: Result<map<nat, seq<byte>>, PlanError>)
    requires ValidConfig(config) && Complete(golden) && Pointable(items, macroOf, allocations)
    ensures r.Ok? ==> AllPagesFor(r.value, config, golden, 6, items, macroOf, allocations)
    ensures r.Ok? ==> forall p :: p in config ==> ChoicesExist(golden[p], config[p].settings)
    ensures r.Err? ==>
      (r.error.NoSuchDpi? && r.error.profile in config && r.error.profile in golden &&
       !ChoicesExist(golden[r.error.profile], config[r.error.profile].settings))
  {
    hide Pointable;
    hide ProfileDescribes;
    hide ChoicesExist;
    hide AllPagesFor;
    hide ValidBlock;
    var profiles: map<nat, seq<byte>> := map[];
    NoPagesYet(config, golden, items, macroOf, allocations);
    for p := 2 to 6
      invariant AllPagesFor(profiles, config, golden, p, items, macroOf, allocations)
    {
      var page := golden[p];
      if p in config {
        var built := BuildProfile(golden[p], config[p], p, items, macroOf, allocations);
        match built {
          case None => return Err(NoSuchDpi(p));
          case Some(b) => page := b;
        }
      }
      PageAdded(profiles, page, config, golden, p, items, macroOf, allocations);
      profiles := profiles[p := page];
    }
    PagesShowChoices(profiles, config, golden, items, macroOf, allocations);
    return Ok(profiles);
  }

  lemma PagesShowChoices(pages: map<nat, seq<byte>>, config: Profiles, golden: Images, items: map<Key, Item>,
                         macroOf: map<Key, nat>, allocations: Allocations)
    requires ValidConfig(config) && Complete(golden) && Pointable(items, macroOf, allocations)
    requires AllPagesFor(pages, config, golden, 6, items, macroOf, allocations)
    ensures forall p :: p in config ==> ChoicesExist(golden[p], config[p].settings)
  {
    hide Pointable;
    hide ChoicesExist;
    hide ProfileDescribes;
    hide ValidBlock;
    forall p | p in config
      ensures ChoicesExist(golden[p], config[p].settings)
    {
      assert PageFor(pages[p], config, golden, p, items, macroOf, allocations);
    }
  }

  lemma NoPagesYet(config: Profiles, golden: Images, items: map<Key, Item>, macroOf: map<Key, nat>,
                   allocations: Allocations)
    requires ValidConfig(config) && Complete(golden) && Pointable(items, macroOf, allocations)
    ensures AllPagesFor(map[], config, golden, 2, items, macroOf, allocations)
  {
    hide Pointable;
    hide PageFor;
    hide ValidBlock;
  }

  lemma PageAdded(pages: map<nat, seq<byte>>, page: seq<byte>, config: Profiles, golden: Images, p: nat,
                  items: map<Key, Item>, macroOf: map<Key, nat>, allocations: Allocations)
    requires ValidConfig(config) && Complete(golden) && Pointable(items, macroOf, allocations)
    requires AllPagesFor(pages, config, golden, p, items, macroOf, allocations)
    requires PageFor(page, config, golden, p, items, macroOf, allocations) && p >= 2
    ensures AllPagesFor(pages[p := page], config, golden, p + 1, items, macroOf, allocations)
  {
    hide Pointable;
    hide PageFor;
    hide ValidBlock;
  }

  /** The DPI values every configured profile chooses are in its list. */
  ghost predicate AllChoicesExist(config: Profiles, golden: Images)
    requires Complete(golden) && ValidConfig(config)
  {
    forall p :: p in config ==> ChoicesExist(golden[p], config[p].settings)
  }

  /** The distinct macros of this configuration are at most 1970 bytes. */
  ghost predicate SmallEnough(config: Profiles) {
    forall items, unique, macroOf :: ItemsUpTo(config, items, 6, 0) && Deduplicated(items, unique, macroOf) ==>
      Allocator.TotalLength(unique) <= Allocator.SAFE_CAPACITY
  }

  /** The macros of this configuration, in the order in which they are stored, have a store. */
  ghost predicate StoreHolds(config: Profiles) {
    exists items, unique, macroOf :: Stored(config, items, unique, macroOf) && Allocator.Packable(unique)
  }

  ghost predicate Stored(config: Profiles, items: map<Key, Item>, unique: seq<seq<byte>>, macroOf: map<Key, nat>) {
    ItemsUpTo(config, items, 6, 0) && Deduplicated(items, unique, macroOf) && InRouteOrder(items, macroOf)
  }

  lemma ItemsAreUnique(config: Profiles, a: map<Key, Item>, b: map<Key, Item>)
    requires ValidConfig(config) && ItemsUpTo(config, a, 6, 0) && ItemsUpTo(config, b, 6, 0)
    ensures a == b
  {
    hide CompileBinding;
    hide ValidBlock;
    forall k | k in a
      ensures k in b && a[k] == b[k]
    {
      assert Compiled(config[k.0], k.1, a[k]) && (k.0, k.1) in b;
      assert Compiled(config[k.0], k.1, b[k]);
    }
    forall k | k in b
      ensures k in a
    {
      assert Compiled(config[k.0], k.1, b[k]) && (k.0, k.1) in a;
    }
  }

  /** The configuration alone decides what is to be stored. */
  lemma StoredIsUnique(config: Profiles, items: map<Key, Item>, unique: seq<seq<byte>>, macroOf: map<Key, nat>)
    requires ValidConfig(config) && Stored(config, items, unique, macroOf)
    ensures StoreHolds(config) <==> Allocator.Packable(unique)
  {
    hide ItemsUpTo;
    hide Deduplicated;
    hide InRouteOrder;
    hide ValidBlock;
    hide Allocator.Packable;
    if StoreHolds(config) {
      var others, v, l :| Stored(config, others, v, l) && Allocator.Packable(v);
      ItemsAreUnique(config, items, others);
      DedupIsUnique(items, unique, macroOf, v, l);
    }
  }

  /** Each error of `build_plan` has its reason in the configuration or the baseline. */
  ghost predicate Explained(config: Profiles, golden: Images, e: PlanError)
    requires Complete(golden) && ValidConfig(config)
  {
    match e
    case CannotCompile(p, r, reason) => Uncompilable(config, p, r, reason) && !EverySpecCompiles(config)
    case CannotAllocate(_, bytes) => !StoreHolds(config) && bytes > Allocator.SAFE_CAPACITY && !SmallEnough(config)
    case NoSuchDpi(p) => p in config && !ChoicesExist(golden[p], config[p].settings)
    case BadDirectory(_) => !BaseEnabled(golden[0])
  }

  lemma TooMuch(config: Profiles, items: map<Key, Item>, unique: seq<seq<byte>>, macroOf: map<Key, nat>)
    requires ItemsUpTo(config, items, 6, 0) && Deduplicated(items, unique, macroOf)
    requires Allocator.TotalLength(unique) > Allocator.SAFE_CAPACITY
    ensures !SmallEnough(config)
  {
    hide ItemsUpTo;
    hide Deduplicated;
  }

  lemma NotAll(config: Profiles, p: nat, r: Route, reason: CompileError)
    requires Uncompilable(config, p, r, reason)
    ensures !EverySpecCompiles(config)
  {
    hide CompileBinding;
  }

  /** `build_plan`, on a validated configuration and a complete baseline. */
  method BuildPlan(config: Profiles, golden: Images) returns (r: Result<Plan, PlanError>)
    requires ValidConfig(config) && Complete(golden)
    ensures r.Ok? ==> PlanDescribes(r.value, config, golden)
    // It succeeds exactly if four things hold, each of them about its inputs alone.
    ensures r.Ok? <==> EverySpecCompiles(config) && StoreHolds(config) && AllChoicesExist(config, golden) &&
                       BaseEnabled(golden[0])
    ensures r.Err? ==> Explained(config, golden, r.error)
    ensures (EverySpecCompiles(config) && AllChoicesExist(config, golden) &&
             BaseEnabled(golden[0]) && SmallEnough(config)) ==> r.Ok?
  {
    hide EverySpecCompiles;
    hide CompileBinding;
    hide Allocator.TotalLength;
    hide Allocator.SAFE_CAPACITY;
    hide ItemsUpTo;
    hide Deduplicated;
    hide InRouteOrder;
    hide StoreHolds;
    hide Allocator.StoreDescribes;
    hide Allocator.Packable;
    hide Allocator.Tokenizable;
    hide Allocator.AllShort;
    hide Pointable;
    hide ProfileDescribes;
    hide ChoicesExist;
    hide ValidBlock;
    hide DirectoryFor;
    var items: map<Key, Item>;
    var compiled := CompileAll(config);
    match compiled {
      case Err(e) =>
        NotAll(config, e.profile, e.route, e.reason);
        return Err(e);
      case Ok(all) => items := all;
    }
    ItemKeys(config, items);
    var unique, macroOf := Deduplicate(items);
    CompiledMacrosAreShort(config, items, unique, macroOf);
    StoredIsUnique(config, items, unique, macroOf);
    var store: Allocator.MacroStore;
    var allocated' := Allocator.AllocateUniqueMacros(unique);
    match allocated' {
      case Err(e) =>
        TooMuch(config, items, unique, macroOf);
        return Err(CannotAllocate(e, Allocator.TotalLength(unique)));
      case Ok(s) => store := s;
    }
    ItemsArePointable(config, items, unique, macroOf, store);
    var profiles: map<nat, seq<byte>>;
    var built := BuildProfiles(config, golden, items, macroOf, store.allocations);
    match built {
      case Err(e) => return Err(e);
      case Ok(pages) => profiles := pages;
    }
    var directory := BuildDirectory(golden[0], EnabledSet(config));
    match directory {
      case Err(e) => return Err(BadDirectory(e));
      case Ok(d) => return Ok(Plan(items, macroOf, unique, store, profiles, d));
    }
  }

  lemma ItemKeys(config: Profiles, items: map<Key, Item>)
    requires ValidConfig(config) && ItemsUpTo(config, items, 6, 0)
    ensures forall k :: k in items ==> 2 <= k.0 <= 5 && IsRoute(k.1)
  {
    hide CompileBinding;
    hide ValidBlock;
  }

  // ---------------------------------------------------------------- what is on a planned page

  /** A little-endian word. */
  function WordAt(data: seq<byte>, i: nat): nat
    requires i + 1 < |data|
  {
    UnpackBE(data[i + 1], data[i])
  }

  /** The four bytes `b` of a configured route: its binding, or a zero, the sector and the
      big-endian offset of its macro. */
  ghost predicate Routed(b: seq<byte>, items: map<Key, Item>, macroOf: map<Key, nat>, allocations: Allocations, k: Key)
    requires Pointable(items, macroOf, allocations) && k in items
  {
    match items[k]
    case Direct(binding) => b == binding
    case MacroItem(_) =>
      |b| == 4 && b[0] == 0 && b[1] == allocations[macroOf[k]].sector &&
      UnpackBE(b[2], b[3]) == allocations[macroOf[k]].offset
  }

  /** MAIN RESULT. A planned page, byte by byte: thirteen four-byte slots from 0x20 and from
      0x60 on. A shifted slot nobody configured does nothing, the G-Shift button is marked,
      other normal slots are the baseline's unless they point into the macro store. */
  lemma SlotBytes(data: seq<byte>, golden: seq<byte>, block: Block, p: nat, items: map<Key, Item>,
                  macroOf: map<Key, nat>, allocations: Allocations, t: nat)
    requires Pointable(items, macroOf, allocations) && ValidSettings(block.settings) && t < TARGETS
    requires ProfileDescribes(data, golden, block, p, items, macroOf, allocations)
    ensures |data| == |golden| == SECTOR_SIZE
    ensures var normal, kept := data[0x20 + 4 * t..0x24 + 4 * t], golden[0x20 + 4 * t..0x24 + 4 * t];
            if (p, Route(Normal, t)) in items then Routed(normal, items, macroOf, allocations, (p, Route(Normal, t)))
            else if block.gShiftButton == Some(t) then normal == [0x90, 0x0B, 0, 0]
            else normal == if kept[0] == 0 && 6 <= kept[1] <= 15 then [0x90, 0, 0, 0] else kept
    ensures var shifted := data[0x60 + 4 * t..0x64 + 4 * t];
            if (p, Route(GShift, t)) in items then Routed(shifted, items, macroOf, allocations, (p, Route(GShift, t)))
            else shifted == [0x90, 0, 0, 0]
  {
    hide EffectiveDpi;
    hide DpiList;
    hide RateByte;
    hide SlotByte;
    hide PadName;
    hide Sector.Checksum;
    var n, g := Route(Normal, t), Route(GShift, t);
    assert IsRoute(n) && IsRoute(g);
    assert Binding(data, n) == data[0x20 + 4 * t..0x24 + 4 * t] && Binding(data, g) == data[0x60 + 4 * t..0x64 + 4 * t];
    assert Binding(data, n) == Expected(golden, block, p, items, macroOf, allocations, n);
    assert Binding(data, g) == Expected(golden, block, p, items, macroOf, allocations, g);
    assert Binding(golden, n) == golden[0x20 + 4 * t..0x24 + 4 * t];
  }

  /** The settings of a planned page, byte by byte: the report interval in milliseconds, five
      little-endian DPI words from byte 3 on, the slots of the default and the shifted DPI, and
      48 bytes of name padded with zeros. What is not configured is the baseline's. */
  lemma SettingsOnPage(data: seq<byte>, golden: seq<byte>, block: Block, p: nat, items: map<Key, Item>,
                       macroOf: map<Key, nat>, allocations: Allocations, i: nat)
    requires Pointable(items, macroOf, allocations) && ValidSettings(block.settings)
    requires ProfileDescribes(data, golden, block, p, items, macroOf, allocations)
    requires ChoicesExist(golden, block.settings)
    ensures |data| == |golden| == SECTOR_SIZE
    ensures var s := block.settings;
            && (if s.rate.Some? then data[0] * s.rate.value == 1000 else data[0] == golden[0])
            && (i < 5 ==> WordAt(data, 3 + 2 * i) ==
                            if s.dpi.None? then WordAt(golden, 3 + 2 * i)
                            else if i < |s.dpi.value| then s.dpi.value[i] else 0)
            && (if s.defaultDpi.Some? then data[1] < 5 && WordAt(data, 3 + 2 * data[1]) == s.defaultDpi.value
                else data[1] == golden[1])
            && (if s.shiftDpi.Some? then data[2] < 5 && WordAt(data, 3 + 2 * data[2]) == s.shiftDpi.value
                else data[2] == golden[2])
            && (i < 48 ==> data[0xA0 + i] == if s.name.None? then golden[0xA0 + i]
                                             else if i < |s.name.value| then s.name.value[i] else 0)
  {
    hide Pointable;
    hide Expected;
    hide Binding;
    hide EffectiveDpi;
    hide DpiList;
    hide WordAt;
    hide Profile.IndexOf;
    hide Sector.Checksum;
    hide RateCode;
    var s := block.settings;
    var dpi := EffectiveDpi(golden, s);
    if s.rate.Some? {
      Interval(s.rate.value);
    }
    WordsAre(data);
    if s.defaultDpi.Some? {
      FoundAt(dpi, s.defaultDpi.value);
    }
    if s.shiftDpi.Some? {
      FoundAt(dpi, s.shiftDpi.value);
    }
    if i < 5 {
      EffectiveAt(golden, s, i);
    }
    if i < 48 {
      assert data[0xA0 + i] == data[0xA0..0xD0][i] && golden[0xA0 + i] == golden[0xA0..0xD0][i];
    }
  }

  lemma WordsAre(data: seq<byte>)
    requires |data| == SECTOR_SIZE
    ensures forall j: nat :: j < 5 ==> WordAt(data, 3 + 2 * j) == DpiList(data)[j]
  {
    forall j: nat | j < 5
      ensures WordAt(data, 3 + 2 * j) == DpiList(data)[j]
    {
      assert DpiList(data)[j] == Dpi(data, j);
    }
  }

  lemma Interval(rate: nat)
    requires RateCode(rate).Some?
    ensures RateCode(rate).value * rate == 1000
  {
  }

  lemma FoundAt(values: seq<nat>, v: nat)
    requires v in values
    ensures Profile.IndexOf(values, v) < |values|
  {
  }

  lemma EffectiveAt(golden: seq<byte>, s: Settings, i: nat)
    requires |golden| == SECTOR_SIZE && i < 5
    ensures EffectiveDpi(golden, s)[i] ==
            if s.dpi.None? then WordAt(golden, 3 + 2 * i) else if i < |s.dpi.value| then s.dpi.value[i] else 0
  {
    assert DpiList(golden)[i] == Dpi(golden, i);
  }

  // ---------------------------------------------------------------- one plan for one configuration

  lemma SlotOf(data: seq<byte>, i: nat) returns (r: Route)
    requires |data| == SECTOR_SIZE && InBindings(i)
    ensures IsRoute(r) && Offset(r) <= i < Offset(r) + 4 && data[i] == Binding(data, r)[i - Offset(r)]
  {
    r := if i < 0x60 then Route(Normal, (i - 0x20) / 4) else Route(GShift, (i - 0x60) / 4);
  }

  lemma DpiBytes(a: seq<byte>, b: seq<byte>)
    requires |a| == |b| == SECTOR_SIZE && DpiList(a) == DpiList(b)
    ensures forall i :: 3 <= i < 13 ==> a[i] == b[i]
  {
    forall slot: nat | slot < 5
      ensures a[4 + 2 * slot] == b[4 + 2 * slot] && a[3 + 2 * slot] == b[3 + 2 * slot]
    {
      assert DpiList(a)[slot] == Dpi(a, slot) && DpiList(b)[slot] == Dpi(b, slot);
    }
    forall i | 3 <= i < 13
      ensures a[i] == b[i]
    {
      assert i == 3 + 2 * ((i - 3) / 2) || i == 4 + 2 * ((i - 3) / 2);
    }
  }

  lemma PageIsUnique(a: seq<byte>, b: seq<byte>, golden: seq<byte>, block: Block, p: nat, items: map<Key, Item>,
                     macroOf: map<Key, nat>, allocations: Allocations)
    requires Pointable(items, macroOf, allocations) && ValidSettings(block.settings)
    requires ProfileDescribes(a, golden, block, p, items, macroOf, allocations)
    requires ProfileDescribes(b, golden, block, p, items, macroOf, allocations)
    ensures a == b
  {
    hide Pointable;
    hide Expected;
    hide EffectiveDpi;
    hide DpiList;
    hide RateByte;
    hide SlotByte;
    hide PadName;
    hide Binding;
    hide Sector.Checksum;
    DpiBytes(a, b);
    forall i: nat | i < PAGE_DATA_SIZE
      ensures a[i] == b[i]
    {
      if InBindings(i) {
        var r := SlotOf(a, i);
        var s := SlotOf(b, i);
        assert r == s;
      } else if 0xA0 <= i < 0xD0 {
        assert a[i] == a[0xA0..0xD0][i - 0xA0] == b[0xA0..0xD0][i - 0xA0] == b[i];
      }
    }
    assert a[..PAGE_DATA_SIZE] == b[..PAGE_DATA_SIZE];
    assert a == a[..PAGE_DATA_SIZE] + [a[253], a[254]];
    assert b == b[..PAGE_DATA_SIZE] + [b[253], b[254]];
  }

  /** MAIN RESULT. Planning is deterministic: compiling an unchanged configuration over an
      unchanged baseline again gives the same plan to the last byte, so a reviewed plan is
      never taken for a changed one. */
  lemma PlanIsUnique(config: Profiles, golden: Images, a: Plan, b: Plan)
    requires ValidConfig(config) && Complete(golden)
    requires PlanDescribes(a, config, golden) && PlanDescribes(b, config, golden)
    ensures a == b
  {
    hide ItemsUpTo;
    hide Deduplicated;
    hide InRouteOrder;
    hide Allocator.StoreDescribes;
    hide Pointable;
    hide ProfileDescribes;
    hide ChoicesExist;
    hide ValidBlock;
    hide DirectoryFor;
    ItemsAreUnique(config, a.items, b.items);
    DedupIsUnique(a.items, a.unique, a.macroOf, b.unique, b.macroOf);
    Allocator.StoreIsUnique(a.store, b.store, a.unique);
    DirectoryIsUnique(a.directory, b.directory, golden[0], EnabledSet(config));
    forall p | 2 <= p < 6
      ensures p in a.profiles && p in b.profiles && a.profiles[p] == b.profiles[p]
    {
      assert PageFor(a.profiles[p], config, golden, p, a.items, a.macroOf, a.store.allocations);
      assert PageFor(b.profiles[p], config, golden, p, b.items, b.macroOf, b.store.allocations);
      if p in config {
        BlockSettings(config, p);
        PageIsUnique(a.profiles[p], b.profiles[p], golden[p], config[p], p, a.items, a.macroOf, a.store.allocations);
      }
    }
    assert a.profiles == b.profiles;
  }

  lemma BlockSettings(config: Profiles, p: nat)
    requires ValidConfig(config) && p in config
    ensures ValidSettings(config[p].settings)
  {
  }
}
