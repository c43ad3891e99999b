/** `validate_images`: the checker of a complete sixteen-sector image. */
module Validator {
  import opened Bytes
  import opened Actions
  import opened Profile
  import opened Directory
  import opened Plan
  import Sector
  import Vm

  datatype BindingClass = Unused | DirectBinding | Special | MacroBinding | Unknown

  function BindingKind(b: seq<byte>): BindingClass
    requires |b| == 4
  {
    if b == [0xFF, 0xFF, 0xFF, 0xFF] then Unused
    else if b[0] == 0x80 && b[1] in {0x01, 0x02, 0x03} then DirectBinding
    else if b[0] == 0x90 then Special
    else if b[0] == 0x00 then MacroBinding
    else Unknown
  }

  datatype Problem =
    | MissingSectors
    | WrongSize(sector: nat)
    | RecoveryChanged(sector: nat)
    | DirectoryProblem(reason: DirectoryError)
    | CrcInvalid(profile: nat)
    | UnknownRate(profile: nat)
    | DpiIndexOutOfRange(profile: nat)
    | BadBinding(profile: nat, route: Route)
    | BadMacro(start: Vm.Address)

  // ---------------------------------------------------------------- what a clean image is

  /** A direct binding of a subtype and value the program knows. */
  predicate DirectOk(b: seq<byte>)
    requires |b| == 4
  {
    if b[1] == 0x01 then UnpackBE(b[2], b[3]) in {0x01, 0x02, 0x04, 0x08, 0x10}
    else if b[1] == 0x02 then KnownUsage(b[3])
    else UnpackBE(b[2], b[3]) in {0xE9, 0xEA}
  }

  /** A macro pointer into the readable store that does not start on END. */
  predicate PointerOk(pages: Vm.Pages, b: seq<byte>)
    requires |b| == 4
  {
    var sector, offset: nat := b[1], UnpackBE(b[2], b[3]);
    6 <= sector <= 15 && sector in pages &&
    match Sector.PayloadLimit(pages[sector])
    case None => false
    case Some(limit) => offset < limit <= |pages[sector]| && pages[sector][offset] != 0xFF
  }

  /** What the validator demands of one binding, apart from walking its macro. */
  predicate BindingOk(pages: Vm.Pages, b: seq<byte>)
    requires |b| == 4
  {
    match BindingKind(b)
    case Unknown => false
    case DirectBinding => DirectOk(b)
    case MacroBinding => PointerOk(pages, b)
    case _ => true
  }

  function StartOf(b: seq<byte>): Vm.Address
    requires |b| == 4
  {
    (b[1], UnpackBE(b[2], b[3]))
  }

  ghost predicate MacroRuns(pages: Vm.Pages, b: seq<byte>)
    requires |b| == 4
  {
    BindingKind(b) == MacroBinding ==> Vm.RunsToEnd(pages, StartOf(b))
  }

  /** The macro-capable sectors 6 to 15. */
  function MacroPages(images: Images): (pages: Vm.Pages) {
    map s | s in images && 6 <= s < 16 :: images[s]
  }

  /** Settings bytes and bindings of an enabled profile, before any macro is walked. */
  ghost predicate ProfileFieldsOk(images: Images, p: nat)
    requires p in images && |images[p]| == SECTOR_SIZE
  {
    KnownRate(images[p][0]) && images[p][1] <= 4 && images[p][2] <= 4 &&
    forall r :: IsRoute(r) ==> BindingOk(MacroPages(images), Binding(images[p], r))
  }

  ghost predicate ProfileMacrosRun(images: Images, p: nat)
    requires p in images
  {
    forall r :: IsRoute(r) ==> MacroRuns(MacroPages(images), Binding(images[p], r))
  }

  predicate RecoveryUntouched(images: Images, baseline: Images)
    requires Complete(images) && Complete(baseline)
  {
    images[1] == baseline[1] && images[6] == baseline[6] && images[7] == baseline[7]
  }

  /** A clean image, stated without the validator's loops. */
  ghost predicate CleanImages(images: Images, baseline: Images)
    requires Complete(baseline)
  {
    Complete(images) && RecoveryUntouched(images, baseline) && DirectoryOk(images[0], baseline[0]) &&
    forall p :: 2 <= p <= 5 ==>
      Sector.SectorCrcOk(images[p]) &&
      (Enabled(images[0], p) ==> ProfileFieldsOk(images, p) && ProfileMacrosRun(images, p))
  }

  // ---------------------------------------------------------------- the validator

  /** `ValidationReport`: grows while the image is examined. */
  class Report {
    var errors: seq<Problem>
    var starts: set<Vm.Address>

    constructor ()
      ensures errors == [] && starts == {}
    {
      errors, starts := [], {};
    }
  }

  /** One route of an enabled profile: an error, a macro start to walk, or nothing. */
  method CheckRoute(report: Report, pages: Vm.Pages, p: nat, route: Route, b: seq<byte>)
    requires |b| == 4
    modifies report
    ensures report.errors == old(report.errors) + (if BindingOk(pages, b) then [] else [BadBinding(p, route)])
    ensures report.starts == old(report.starts) +
              (if BindingOk(pages, b) && BindingKind(b) == MacroBinding then {StartOf(b)} else {})
  {
    var ok := true;
    match BindingKind(b) {
      case Unknown => ok := false;
      case DirectBinding =>
        if b[1] == 0x01 {
          ok := UnpackBE(b[2], b[3]) in {0x01, 0x02, 0x04, 0x08, 0x10};
        } else if b[1] == 0x02 {
          ok := KnownUsage(b[3]);
        } else {
          ok := UnpackBE(b[2], b[3]) in {0xE9, 0xEA};
        }
      case MacroBinding =>
        var sector, offset: nat := b[1], UnpackBE(b[2], b[3]);
        match Vm.LimitOf(pages, sector) {
          case None => ok := false;
          case Some(limit) =>
            if offset >= limit {
              ok := false;
            } else if pages[sector][offset] == 0xFF {
              ok := false;
            } else {
              report.starts := report.starts + {(sector, offset)};
            }
        }
      case _ =>
    }
    if !ok {
      report.errors := report.errors + [BadBinding(p, route)];
    }
  }

  /** Some route of profile `p` is a macro starting at `a`. */
  ghost predicate StartsAt(images: Images, p: nat, a: Vm.Address)
    requires p in images
  {
    exists r :: IsRoute(r) && BindingKind(Binding(images[p], r)) == MacroBinding && a == StartOf(Binding(images[p], r))
  }

  ghost predicate BindingsOkBelow(images: Images, p: nat, n: nat)
    requires p in images
  {
    forall r :: IsRoute(r) && RouteNumber(r) < n ==> BindingOk(MacroPages(images), Binding(images[p], r))
  }

  /** `a` is the start of a macro route among the first `n` routes. */
  ghost predicate StartsBelow(images: Images, p: nat, n: nat, a: Vm.Address)
    requires p in images
  {
    exists r :: IsRoute(r) && RouteNumber(r) < n && BindingKind(Binding(images[p], r)) == MacroBinding
             && a == StartOf(Binding(images[p], r))
  }

  lemma NextRoute(images: Images, p: nat, n: nat)
    requires p in images && n < 2 * TARGETS
    ensures var b := Binding(images[p], NthRoute(n));
            && IsRoute(NthRoute(n)) && RouteNumber(NthRoute(n)) == n
            && (BindingsOkBelow(images, p, n + 1) <==>
                  BindingsOkBelow(images, p, n) && BindingOk(MacroPages(images), b))
            && forall a :: StartsBelow(images, p, n + 1, a) <==>
                 (StartsBelow(images, p, n, a) || (BindingKind(b) == MacroBinding && a == StartOf(b)))
  {
    hide Binding;
    hide BindingOk;
    hide BindingKind;
    hide StartOf;
    assert forall r :: IsRoute(r) && RouteNumber(r) == n ==> r == NthRoute(n);
    assert IsRoute(NthRoute(n)) && RouteNumber(NthRoute(n)) == n;
    var b := Binding(images[p], NthRoute(n));
    forall a
      ensures StartsBelow(images, p, n + 1, a) <==>
                (StartsBelow(images, p, n, a) || (BindingKind(b) == MacroBinding && a == StartOf(b)))
    {
      if StartsBelow(images, p, n + 1, a) {
        var r :| IsRoute(r) && RouteNumber(r) < n + 1 && BindingKind(Binding(images[p], r)) == MacroBinding
                 && a == StartOf(Binding(images[p], r));
        assert r == NthRoute(n) || RouteNumber(r) < n;
      }
    }
  }

  /** The route loop for one enabled profile. */
  method CheckBindings(report: Report, images: Images, p: nat)
    requires Complete(images) && 2 <= p <= 5
    modifies report
    ensures report.errors == [] <==> old(report.errors) == [] && BindingsOkBelow(images, p, 2 * TARGETS)
    ensures report.errors == [] ==> forall a :: a in report.starts <==>
              a in old(report.starts) || StartsAt(images, p, a)
  {
    hide BindingOk;
    hide BindingKind;
    hide Binding;
    hide BindingsOkBelow;
    hide StartsBelow;
    hide MacroPages;
    hide Complete;
    NoRouteYet(images, p);
    var pages := MacroPages(images);
    for n := 0 to 2 * TARGETS
      invariant report.errors == [] <==> old(report.errors) == [] && BindingsOkBelow(images, p, n)
      invariant report.errors == [] ==>
                  forall a :: a in report.starts <==> a in old(report.starts) || StartsBelow(images, p, n, a)
    {
      NextRoute(images, p, n);
      CheckRoute(report, pages, p, NthRoute(n), Binding(images[p], NthRoute(n)));
    }
    AllRoutes(images, p);
  }

  lemma NoRouteYet(images: Images, p: nat)
    requires Complete(images) && p < SECTOR_COUNT
    ensures p in images && BindingsOkBelow(images, p, 0) && forall a :: !StartsBelow(images, p, 0, a)
  {}

  lemma AllRoutes(images: Images, p: nat)
    requires p in images
    ensures forall a :: StartsBelow(images, p, 2 * TARGETS, a) <==> StartsAt(images, p, a)
    ensures BindingsOkBelow(images, p, 2 * TARGETS) <==>
              forall r :: IsRoute(r) ==> BindingOk(MacroPages(images), Binding(images[p], r))
  {
    hide BindingOk;
    hide BindingKind;
    hide Binding;
    assert forall r :: IsRoute(r) ==> RouteNumber(r) < 2 * TARGETS;
  }

  /** Settings bytes and bindings of one enabled profile. */
  method CheckProfile(report: Report, images: Images, p: nat)
    requires Complete(images) && 2 <= p <= 5
    modifies report
    ensures report.errors == [] <==> old(report.errors) == [] && ProfileFieldsOk(images, p)
    ensures report.errors == [] ==> forall a :: a in report.starts <==>
              a in old(report.starts) || StartsAt(images, p, a)
  {
    hide BindingOk;
    hide StartsAt;
    hide Binding;
    hide BindingsOkBelow;
    var data := images[p];
    if !KnownRate(data[0]) {
      report.errors := report.errors + [UnknownRate(p)];
    }
    if data[1] > 4 {
      report.errors := report.errors + [DpiIndexOutOfRange(p)];
    }
    if data[2] > 4 {
      report.errors := report.errors + [DpiIndexOutOfRange(p)];
    }
    CheckBindings(report, images, p);
    AllRoutes(images, p);
  }

  /** Every macro start found is walked. */
  method WalkStarts(report: Report, pages: Vm.Pages)
    modifies report
    ensures report.starts == old(report.starts)
    ensures report.errors == [] <==>
              old(report.errors) == [] && forall a :: a in report.starts ==> Vm.RunsToEnd(pages, a)
  {
    hide Vm.RunsToEnd;
    hide Vm.IsRun;
    var todo := report.starts;
    while todo != {}
      invariant todo <= report.starts && report.starts == old(report.starts)
      invariant report.errors == [] <==>
                  old(report.errors) == [] && forall a :: a in report.starts - todo ==> Vm.RunsToEnd(pages, a)
      decreases |todo|
    {
      var a :| a in todo;
      todo := todo - {a};
      assert forall b :: b in report.starts - todo <==> b == a || b in report.starts - (todo + {a});
      var chain := Vm.WalkMacro(pages, a);
      if chain.Err? {
        report.errors := report.errors + [BadMacro(a)];
      }
    }
  }

  // ---------------------------------------------------------------- the whole image

  /** The checks on sectors rather than routes. */
  predicate SectorsOk(images: Images, baseline: Images)
    requires Complete(images) && Complete(baseline)
  {
    RecoveryUntouched(images, baseline) && DirectoryOk(images[0], baseline[0]) &&
    forall p :: 2 <= p <= 5 ==> Sector.SectorCrcOk(images[p])
  }

  method CheckSizes(report: Report, images: Images) returns (complete: bool)
    modifies report
    ensures complete <==> Complete(images)
    ensures complete ==> report.errors == old(report.errors) && report.starts == old(report.starts)
    ensures !complete ==> report.errors != []
  {
    for sector := 0 to SECTOR_COUNT
      invariant report.errors == old(report.errors) && report.starts == old(report.starts)
      invariant forall s: nat :: s < sector ==> s in images
    {
      if sector !in images {
        report.errors := report.errors + [MissingSectors];
        return false;
      }
    }
    complete := true;
    for sector := 0 to SECTOR_COUNT
      invariant forall s: nat :: s < SECTOR_COUNT ==> s in images
      invariant complete <==> forall s: nat :: s < sector ==> |images[s]| == SECTOR_SIZE
      invariant complete ==> report.errors == old(report.errors)
      invariant report.starts == old(report.starts)
      invariant !complete ==> report.errors != []
    {
      if |images[sector]| != SECTOR_SIZE {
        report.errors := report.errors + [WrongSize(sector)];
        complete := false;
      }
    }
  }

  method CheckSectors(report: Report, images: Images, baseline: Images) returns (enabled: seq<nat>)
    requires Complete(images) && Complete(baseline) && report.errors == []
    modifies report
    ensures report.starts == old(report.starts)
    ensures report.errors == [] <==> SectorsOk(images, baseline)
    ensures report.errors == [] ==> enabled == EnabledUpTo(images[0], 5)
  {
    hide DirectoryOk;
    hide Sector.SectorCrcOk;
    hide EnabledUpTo;
    if images[1] != baseline[1] {
      report.errors := report.errors + [RecoveryChanged(1)];
    }
    if images[6] != baseline[6] {
      report.errors := report.errors + [RecoveryChanged(6)];
    }
    if images[7] != baseline[7] {
      report.errors := report.errors + [RecoveryChanged(7)];
    }
    enabled := [];
    var directory := ValidateDirectory(images[0], baseline[0]);
    match directory {
      case Ok(profiles) => enabled := profiles;
      case Err(e) => report.errors := report.errors + [DirectoryProblem(e)];
    }
    for p := 2 to 6
      invariant report.starts == old(report.starts)
      invariant report.errors == [] <==>
                  RecoveryUntouched(images, baseline) && DirectoryOk(images[0], baseline[0]) &&
                  forall q :: 2 <= q < p ==> Sector.SectorCrcOk(images[q])
    {
      if !Sector.SectorCrcOk(images[p]) {
        report.errors := report.errors + [CrcInvalid(p)];
      }
    }
  }

  /** Every start of an enabled profile below `p`, and no other. */
  ghost predicate StartsCollected(images: Images, enabled: seq<nat>, p: nat, starts: set<Vm.Address>)
    requires Complete(images)
  {
    (forall a :: a in starts ==> exists q :: 2 <= q < p <= 6 && q in enabled && StartsAt(images, q, a)) &&
    forall q, a :: 2 <= q < p <= 6 && q in enabled && StartsAt(images, q, a) ==> a in starts
  }

  ghost predicate FieldsOkBelow(images: Images, enabled: seq<nat>, p: nat)
    requires Complete(images)
  {
    forall q :: 2 <= q < p <= 6 && q in enabled ==> ProfileFieldsOk(images, q)
  }

  method CheckProfiles(report: Report, images: Images, enabled: seq<nat>)
    requires Complete(images) && report.starts == {}
    modifies report
    ensures report.errors == [] <==> old(report.errors) == [] && FieldsOkBelow(images, enabled, 6)
    ensures report.errors == [] ==> StartsCollected(images, enabled, 6, report.starts)
  {
    hide ProfileFieldsOk;
    hide StartsAt;
    hide Complete;
    for p := 2 to 6
      invariant report.errors == [] <==> old(report.errors) == [] && FieldsOkBelow(images, enabled, p)
      invariant report.errors == [] ==> StartsCollected(images, enabled, p, report.starts)
    {
      if p in enabled {
        CheckProfile(report, images, p);
      }
    }
  }

  /** `validate_images`. It reports no error exactly on clean images. */
  method ValidateImages(images: Images, baseline: Images) returns (report: Report)
    requires Complete(baseline)
    ensures fresh(report)
    ensures report.errors == [] <==> CleanImages(images, baseline)
  {
    hide ProfileFieldsOk;
    hide ProfileMacrosRun;
    hide RecoveryUntouched;
    hide DirectoryOk;
    hide EnabledUpTo;
    report := new Report();
    var complete := CheckSizes(report, images);
    if !complete {
      return;
    }
    var enabled := CheckSectors(report, images, baseline);
    ghost var sectorsOk := report.errors == [];
    CheckProfiles(report, images, enabled);
    ghost var fieldsOk := report.errors == [];
    WalkStarts(report, MacroPages(images));
    if sectorsOk {
      forall p | 2 <= p <= 5
        ensures p in enabled <==> Enabled(images[0], p)
      {
        EnabledMembers(images[0], 5, p);
      }
      if fieldsOk {
        WalksAreMacros(images, enabled, report.starts);
      }
    }
  }

  /** Walking all collected starts is walking every macro route of every enabled profile. */
  lemma WalksAreMacros(images: Images, enabled: seq<nat>, starts: set<Vm.Address>)
    requires Complete(images) && StartsCollected(images, enabled, 6, starts)
    ensures (forall a :: a in starts ==> Vm.RunsToEnd(MacroPages(images), a))
       <==> (forall p :: 2 <= p <= 5 && p in enabled ==> ProfileMacrosRun(images, p))
  {
    hide Binding;
    hide BindingKind;
    hide StartOf;
    hide Vm.RunsToEnd;
    if forall a :: a in starts ==> Vm.RunsToEnd(MacroPages(images), a) {
      forall p, r | 2 <= p <= 5 && p in enabled && IsRoute(r)
        ensures MacroRuns(MacroPages(images), Binding(images[p], r))
      {
        if BindingKind(Binding(images[p], r)) == MacroBinding {
          assert StartsAt(images, p, StartOf(Binding(images[p], r)));
        }
      }
    }
    if forall p :: 2 <= p <= 5 && p in enabled ==> ProfileMacrosRun(images, p) {
      forall a | a in starts
        ensures Vm.RunsToEnd(MacroPages(images), a)
      {
        var q :| 2 <= q < 6 && q in enabled && StartsAt(images, q, a);
        assert ProfileMacrosRun(images, q);
        var r :| IsRoute(r) && BindingKind(Binding(images[q], r)) == MacroBinding &&
          a == StartOf(Binding(images[q], r));
        assert MacroRuns(MacroPages(images), Binding(images[q], r));
      }
    }
  }
}
