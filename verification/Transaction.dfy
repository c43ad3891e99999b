/** The persistent transaction of `device.py`: fourteen reconciled sector writes with a
    validation after each, shared by `apply_plan`, `restore_backup` and `restore_baseline`. */
module Transaction {
  import opened Bytes
  import opened Device
  import opened Directory
  import opened Models
  import opened Plan

  // ---------------------------------------------------------------- phases and cancellation

  /** The hooks a transaction is given: the callback that records a phase, and the
      cancellation token, which another thread may set at any time. A `quiet` caller never
      cancels and its callback never raises. */
  class Hooks {
    const quiet: bool
    var phases: seq<Phase>
    /** The phases already recorded when the token was last read, and whether it was set. */
    ghost var polled: seq<Phase>
    ghost var seen: bool

    constructor (quiet: bool)
      ensures this.quiet == quiet && phases == [] && polled == [] && !seen
    {
      this.quiet, phases, polled, seen := quiet, [], [], false;
    }

    /** `_check_cancel`. */
    method CheckCancel() returns (r: Result<(), Failure>)
      modifies this`polled, this`seen
      ensures if seen then r == Err(Cancelled) else r.Ok?
      ensures polled == phases
      ensures quiet ==> r.Ok?
    {
      polled, seen := phases, false;
      r := Ok(());
      if !quiet {
        if * {
          r, seen := Err(Cancelled), true;
        }
      }
    }

    /** `phase_callback`. */
    method Announce(phase: Phase) returns (r: Result<(), Failure>)
      modifies this`phases
      ensures phases == old(phases) + [phase]
      ensures r.Err? ==> Raised(r.error)
      ensures quiet ==> r.Ok?
    {
      phases := phases + [phase];
      r := Ok(());
      if !quiet {
        if * {
          r := Err(Runtime);
        } else if * {
          r := Err(Other);
        }
      }
    }
  }

  // ---------------------------------------------------------------- the stages

  const STAGES: nat := 14
  const LAST: nat := 13

  /** Staging directory, macro sectors 8 to 15, profiles 3, 4, 5 and 2, final directory. */
  function StageSector(stage: nat): (sector: nat)
    requires stage < STAGES
    ensures sector in PROGRAMMABLE
  {
    if stage == 0 || stage == LAST then 0
    else if stage <= 8 then 7 + stage
    else if stage == 12 then 2
    else stage - 6
  }

  function StageOf(sector: nat): (stage: nat)
    requires sector in PROGRAMMABLE && sector != 0
    ensures 1 <= stage < LAST && StageSector(stage) == sector
  {
    if sector >= 8 then sector - 7 else if sector == 2 then 12 else sector + 6
  }

  function StageTarget(target: Images, staging: seq<byte>, stage: nat): seq<byte>
    requires stage < STAGES
  {
    if stage == 0 then staging else if StageSector(stage) in target then target[StageSector(stage)] else []
  }

  /** The macro and profile sectors of the stages before `stage` hold their targets. */
  ghost predicate Settled(m: Memory, target: Images, stage: nat) {
    |m| == SECTOR_COUNT && forall i :: 1 <= i < stage && i < LAST ==> m[StageSector(i)] == StageTarget(target, [], i)
  }

  /** What holds whenever a write call is made. */
  ghost predicate CallOk(e: Event, target: Images, staging: seq<byte>) {
    && e.stage < STAGES && e.sector == StageSector(e.stage) && Confined(e)
    && Settled(e.before, target, e.stage)
    && (1 <= e.stage < LAST ==> e.before[0] == staging)
  }

  ghost predicate AllCallsOk(h: seq<Event>, target: Images, staging: seq<byte>) {
    forall k :: 0 <= k < |h| ==> CallOk(h[k], target, staging)
  }

  predicate InOrder(h: seq<Event>) {
    forall k, l :: 0 <= k < l < |h| ==> h[k].stage <= h[l].stage
  }

  /** The first call of the final stage finds the staging directory still in place. */
  ghost predicate FinalOpens(h: seq<Event>, staging: seq<byte>) {
    forall k {:trigger h[k]} :: 0 <= k < |h| && h[k].stage == LAST && (forall j :: 0 <= j < k ==> h[j].stage < LAST) ==>
      |h[k].before| == SECTOR_COUNT && h[k].before[0] == staging
  }

  /** The first call of a stage. */
  predicate Opens(h: seq<Event>, k: int) {
    0 <= k < |h| && (k == 0 || h[k - 1].stage != h[k].stage)
  }

  /** A stage opens only on a sector that does not hold its target already. */
  ghost predicate Needful(h: seq<Event>, target: Images, staging: seq<byte>) {
    forall k :: Opens(h, k) ==> Missing(h[k].before, target, staging, h[k].stage)
  }

  ghost predicate Missing(m: Memory, target: Images, staging: seq<byte>, stage: nat) {
    stage < STAGES && |m| == SECTOR_COUNT && m[StageSector(stage)] != StageTarget(target, staging, stage)
  }

  /** A run of the transaction, complete or cut short anywhere. */
  ghost predicate SafeRun(h: seq<Event>, first: Memory, last: Memory, target: Images, staging: seq<byte>) {
    Chain(h, first, last) && AllCallsOk(h, target, staging) && InOrder(h) && FinalOpens(h, staging) &&
    Needful(h, target, staging)
  }

  // ---------------------------------------------------------------- one stage after another

  /** Calls confined to one sector leave every memory they pass through alike elsewhere. */
  lemma {:induction false} BeforesAgree(d: seq<Event>, m: Memory, now: Memory, stage: nat, sector: nat)
    requires Chain(d, m, now) && AllIn(d, stage, sector)
    ensures SameExcept(m, now, sector)
    ensures forall k :: 0 <= k < |d| ==> SameExcept(m, d[k].before, sector)
    ensures d != [] ==> d[0].before == m
  {
    if d != [] {
      var e := d[|d| - 1];
      assert e in d;
      BeforesAgree(d[..|d| - 1], m, e.before, stage, sector);
      forall k | 0 <= k < |d|
        ensures SameExcept(m, d[k].before, sector)
      {
        if k < |d| - 1 {
          assert d[..|d| - 1][k] == d[k];
        }
      }
    }
  }

  lemma FinalOpensAfter(h: seq<Event>, d: seq<Event>, m: Memory, staging: seq<byte>, stage: nat)
    requires FinalOpens(h, staging) && |m| == SECTOR_COUNT && (stage >= 1 ==> m[0] == staging)
    requires forall e :: e in d ==> e.stage == stage
    requires d != [] ==> d[0].before == m
    ensures FinalOpens(h + d, staging)
  {
    var all := h + d;
    if d != [] {
      assert d[0] in d && all[|h|] == d[0];
    }
    forall k {:trigger all[k]}
      | 0 <= k < |all| && all[k].stage == LAST && forall j :: 0 <= j < k ==> all[j].stage < LAST
      ensures |all[k].before| == SECTOR_COUNT && all[k].before[0] == staging
    {
      if k < |h| {
        forall j | 0 <= j < k
          ensures h[j].stage < LAST
        {
          assert all[j] == h[j];
        }
        assert all[k] == h[k];
      }
    }
  }

  lemma NeedfulAfter(h: seq<Event>, d: seq<Event>, m: Memory, target: Images, staging: seq<byte>, stage: nat)
    requires Needful(h, target, staging) && forall e :: e in d ==> e.stage == stage
    requires d != [] ==> d[0].before == m && Missing(m, target, staging, stage)
    ensures Needful(h + d, target, staging)
  {
    hide Missing;
    var all := h + d;
    forall i | |h| <= i < |all|
      ensures all[i].stage == stage
    {
      assert d[i - |h|] in d;
    }
    forall k | Opens(all, k)
      ensures Missing(all[k].before, target, staging, all[k].stage)
    {
      if k < |h| {
        assert Opens(h, k);
      }
    }
  }

  lemma CallsOkAfter(h: seq<Event>, d: seq<Event>, m: Memory, now: Memory, target: Images, staging: seq<byte>,
                     stage: nat)
    requires stage < STAGES && |m| == SECTOR_COUNT && (stage >= 1 ==> m[0] == staging)
    requires AllCallsOk(h, target, staging) && Settled(m, target, stage)
    requires Chain(d, m, now) && AllIn(d, stage, StageSector(stage))
    ensures AllCallsOk(h + d, target, staging) && (d != [] ==> d[0].before == m)
  {
    hide Chain;
    BeforesAgree(d, m, now, stage, StageSector(stage));
    forall k | 0 <= k < |h + d|
      ensures CallOk((h + d)[k], target, staging)
    {
      if k >= |h| {
        assert d[k - |h|] in d;
      }
    }
  }

  lemma InOrderAfter(h: seq<Event>, d: seq<Event>, stage: nat)
    requires InOrder(h) && (forall k :: 0 <= k < |h| ==> h[k].stage < stage) && forall e :: e in d ==> e.stage == stage
    ensures InOrder(h + d) && forall k :: 0 <= k < |h + d| ==> (h + d)[k].stage <= stage
  {
    forall k | |h| <= k < |h + d|
      ensures (h + d)[k].stage == stage
    {
      assert d[k - |h|] in d;
    }
  }

  /** A stage started on settled ground keeps the run safe. */
  lemma StageKeepsRun(h: seq<Event>, d: seq<Event>, first: Memory, m: Memory, now: Memory, target: Images,
                      staging: seq<byte>, stage: nat)
    requires stage < STAGES && |m| == SECTOR_COUNT
    requires SafeRun(h, first, m, target, staging) && (forall k :: 0 <= k < |h| ==> h[k].stage < stage)
    requires stage >= 1 ==> m[0] == staging
    requires Settled(m, target, stage)
    requires Chain(d, m, now) && AllIn(d, stage, StageSector(stage))
    requires d != [] ==> Missing(m, target, staging, stage)
    ensures SafeRun(h + d, first, now, target, staging)
    ensures forall k :: 0 <= k < |h + d| ==> (h + d)[k].stage <= stage
  {
    hide Chain;
    hide AllCallsOk;
    hide InOrder;
    hide FinalOpens;
    hide Needful;
    hide Settled;
    hide Missing;
    ChainConcat(h, d, first, m, now);
    CallsOkAfter(h, d, m, now, target, staging, stage);
    InOrderAfter(h, d, stage);
    FinalOpensAfter(h, d, m, staging, stage);
    NeedfulAfter(h, d, m, target, staging, stage);
  }

  /** The stage's sector holds what the stage writes. */
  ghost predicate Written(now: Memory, target: Images, staging: seq<byte>, stage: nat) {
    stage < STAGES && |now| == SECTOR_COUNT && now[StageSector(stage)] == StageTarget(target, staging, stage)
  }

  /** The stage's own sector is the only one the next stage finds changed. */
  lemma StageSettles(m: Memory, now: Memory, target: Images, staging: seq<byte>, stage: nat)
    requires Written(now, target, staging, stage)
    requires Settled(m, target, stage) && SameExcept(m, now, StageSector(stage))
    ensures Settled(now, target, stage + 1)
  {
  }

  // ---------------------------------------------------------------- what a safe run means

  predicate Spares(e: Event, sector: nat) {
    Confined(e) && e.sector != sector && |e.before| > sector
  }

  lemma {:induction false} ChainSpares(h: seq<Event>, first: Memory, last: Memory, k: nat, sector: nat)
    requires Chain(h, first, last) && k < |h| && |first| > sector
    requires forall j :: 0 <= j < |h| ==> Spares(h[j], sector)
    ensures |h[k].before| > sector && |h[k].after| > sector && |last| > sector
    ensures h[k].before[sector] == first[sector] == h[k].after[sector] == last[sector]
    decreases |h|
  {
    var init := h[..|h| - 1];
    assert Spares(h[|h| - 1], sector);
    if init != [] {
      ChainSpares(init, first, h[|h| - 1].before, if k < |init| then k else 0, sector);
    }
  }

  /** MAIN RESULT. In every memory a run passes through, whatever fails and wherever it
      stops, the recovery sectors are as they were. */
  lemma RecoveryIsNeverWritten(h: seq<Event>, first: Memory, last: Memory, target: Images, staging: seq<byte>,
                               k: nat, sector: nat)
    requires SafeRun(h, first, last, target, staging) && |first| == SECTOR_COUNT
    requires k < |h| && sector in RECOVERY
    ensures |h[k].before| > sector && |h[k].after| > sector && |last| > sector
    ensures h[k].before[sector] == first[sector] == h[k].after[sector] == last[sector]
  {
    hide Chain;
    hide InOrder;
    hide FinalOpens;
    forall j | 0 <= j < |h|
      ensures Spares(h[j], sector)
    {
      assert CallOk(h[j], target, staging);
    }
    ChainSpares(h, first, last, k, sector);
  }

  /** MAIN RESULT. While any macro or profile sector is being written, and until the final
      directory write begins, the directory in place enables profiles 1 and 2 alone. */
  lemma DirectoryIsStagedDuringWrites(h: seq<Event>, first: Memory, last: Memory, target: Images,
                                      staging: seq<byte>, golden: seq<byte>, k: nat)
    requires SafeRun(h, first, last, target, staging) && DirectoryFor(staging, golden, {1, 2})
    requires k < |h| && 1 <= h[k].stage
    requires h[k].stage == LAST ==> forall j :: 0 <= j < k ==> h[j].stage < LAST
    ensures forall p :: 1 <= p <= 5 ==> (Enabled(h[k].before[0], p) <==> p <= 2)
    ensures h[k].stage < LAST ==> h[k].after[0] == h[k].before[0]
  {
    hide Chain;
    hide DirectoryOk;
    assert CallOk(h[k], target, staging);
  }

  /** These sectors of a memory hold their targets. */
  predicate AtTarget(m: Memory, target: Images, low: nat, high: nat) {
    |m| == SECTOR_COUNT && forall s :: low <= s < high && s < SECTOR_COUNT ==> s in target && m[s] == target[s]
  }

  /** MAIN RESULT. By sector: a profile is written only over macro sectors that all hold their
      targets, and profile 2, the one the staging directory keeps enabled, only when the other
      profiles hold theirs as well. */
  lemma MacrosComeFirst(h: seq<Event>, first: Memory, last: Memory, target: Images, staging: seq<byte>, k: nat)
    requires Complete(target) && SafeRun(h, first, last, target, staging)
    requires k < |h| && 2 <= h[k].sector <= 5
    ensures AtTarget(h[k].before, target, 8, 16) && AtTarget(h[k].after, target, 8, 16)
    ensures h[k].sector == 2 ==> AtTarget(h[k].before, target, 3, 6) && AtTarget(h[k].after, target, 3, 6)
  {
    hide Chain;
    var e := h[k];
    assert CallOk(e, target, staging);
    forall s | 8 <= s < 16 || (e.sector == 2 && 3 <= s < 6)
      ensures e.before[s] == target[s] == e.after[s]
    {
      assert StageSector(StageOf(s)) == s;
    }
  }

  /** The order in which the sectors between the two directories are written. */
  const ORDER: seq<nat> := [8, 9, 10, 11, 12, 13, 14, 15, 3, 4, 5, 2]

  /** A sector is written only when every sector before it in the order holds its target. */
  lemma WritesKeepOrder(h: seq<Event>, first: Memory, last: Memory, target: Images, staging: seq<byte>, k: nat,
                        i: nat, j: nat)
    requires Complete(target) && SafeRun(h, first, last, target, staging)
    requires k < |h| && i < j < |ORDER| && h[k].sector == ORDER[j]
    ensures AtTarget(h[k].before, target, ORDER[i], ORDER[i] + 1)
  {
    hide Chain;
    hide Needful;
    hide FinalOpens;
    assert CallOk(h[k], target, staging);
    assert StageOf(ORDER[i]) == i + 1 && StageOf(ORDER[j]) == j + 1;
    assert StageSector(StageOf(ORDER[i])) == ORDER[i];
  }

  /** A memory the run passes through. */
  ghost predicate Passed(h: seq<Event>, last: Memory, m: Memory) {
    m == last || exists k :: 0 <= k < |h| && (m == h[k].before || m == h[k].after)
  }

  /** The sector has been addressed before a memory that no longer holds what it held first. */
  lemma {:induction false} ChangedWasWritten(h: seq<Event>, first: Memory, last: Memory, m: Memory, sector: nat)
      returns (k: nat)
    requires Chain(h, first, last) && (forall j :: 0 <= j < |h| ==> Confined(h[j]))
    requires Passed(h, last, m) && |first| > sector && (|m| > sector ==> m[sector] != first[sector])
    ensures k < |h| && h[k].sector == sector
    ensures m == last || exists j :: k <= j < |h| && ((m == h[j].before && k < j) || m == h[j].after)
  {
    if h == [] {
      assert false;
    } else {
      var e, init := h[|h| - 1], h[..|h| - 1];
      assert Confined(e);
      assert forall j :: 0 <= j < |init| ==> init[j] == h[j];
      if e.sector == sector && (m == e.after || m == last) {
        k := |h| - 1;
      } else {
        var at := if m == last || m == e.after then e.before else m;
        k := ChangedWasWritten(init, first, e.before, at, sector);
      }
    }
  }

  /** A profile page that the run has put in place stands over macro sectors that all hold
      their targets. */
  lemma NewProfileFindsMacros(h: seq<Event>, first: Memory, last: Memory, target: Images, staging: seq<byte>,
                              m: Memory, p: nat)
    requires Complete(target) && SafeRun(h, first, last, target, staging) && Passed(h, last, m)
    requires |first| == SECTOR_COUNT && 2 <= p <= 5 && (|m| > p ==> m[p] != first[p])
    ensures AtTarget(m, target, 8, 16)
  {
    hide Chain;
    hide FinalOpens;
    hide Complete;
    forall j | 0 <= j < |h|
      ensures Confined(h[j])
    {
      assert CallOk(h[j], target, staging);
    }
    var k := ChangedWasWritten(h, first, last, m, p);
    assert CallOk(h[k], target, staging);
    forall j | k <= j < |h|
      ensures h[j].stage > 8 && AtTarget(h[j].before, target, 8, 16) && AtTarget(h[j].after, target, 8, 16)
    {
      assert CallOk(h[j], target, staging) && h[k].stage <= h[j].stage;
      MacrosSettled(h[j], target, staging);
    }
    if m == last {
      LastIsAfter(h, first, last);
    }
  }

  /** Macro sectors that all hold their targets are not written again. */
  lemma MacrosStay(h: seq<Event>, first: Memory, last: Memory, target: Images, staging: seq<byte>, m: Memory)
    requires Complete(target) && SafeRun(h, first, last, target, staging) && Passed(h, last, m)
    requires AtTarget(first, target, 8, 16)
    ensures AtTarget(m, target, 8, 16)
  {
    hide Chain;
    hide FinalOpens;
    hide Complete;
    hide Needful;
    hide Settled;
    forall j | 0 <= j < |h|
      ensures Confined(h[j]) && !(8 <= h[j].sector < 16)
    {
      assert CallOk(h[j], target, staging);
      if 8 <= h[j].sector < 16 {
        MacroSectorNotWritten(h, first, last, target, staging, j);
      }
    }
    SizesStay(h, first, last, m);
    forall s: nat | 8 <= s < 16
      ensures m[s] == first[s]
    {
      if m[s] != first[s] {
        var k := ChangedWasWritten(h, first, last, m, s);
      }
    }
  }

  lemma {:induction false} SizesStay(h: seq<Event>, first: Memory, last: Memory, m: Memory)
    requires Chain(h, first, last) && (forall j :: 0 <= j < |h| ==> Confined(h[j])) && Passed(h, last, m)
    ensures |m| == |first|
  {
    if h != [] {
      var e, init := h[|h| - 1], h[..|h| - 1];
      assert Confined(e);
      assert forall j :: 0 <= j < |init| ==> init[j] == h[j];
      SizesStay(init, first, e.before, if m == last || m == e.after then e.before else m);
    }
  }

  /** Where the stage of call `k` opens. */
  lemma {:induction false} OpeningOf(h: seq<Event>, k: nat) returns (open: nat)
    requires k < |h|
    ensures open <= k && Opens(h, open) && h[open].stage == h[k].stage
  {
    open := k;
    if !Opens(h, k) {
      open := OpeningOf(h, k - 1);
    }
  }

  lemma {:induction false} ChainPrefix(h: seq<Event>, first: Memory, last: Memory, k: nat)
    requires Chain(h, first, last) && k < |h|
    ensures Chain(h[..k], first, h[k].before)
  {
    var init := h[..|h| - 1];
    if k < |init| {
      ChainPrefix(init, first, h[|h| - 1].before, k);
      assert init[..k] == h[..k];
    }
  }

  lemma MacroStage(stage: nat)
    requires stage < STAGES
    ensures 8 <= StageSector(stage) < 16 ==> StageSector(stage) == stage + 7
  {
  }

  /** Before its stage opens, a macro sector is not addressed. */
  lemma NotAddressedYet(h: seq<Event>, target: Images, staging: seq<byte>, open: nat, j: nat, s: nat)
    requires AllCallsOk(h, target, staging) && InOrder(h) && Opens(h, open) && j < open
    requires 8 <= s < 16 && h[open].stage + 7 == s
    ensures Confined(h[j]) && h[j].sector != s
  {
    hide Settled;
    hide StageSector;
    hide Confined;
    assert CallOk(h[j], target, staging);
    assert h[j].stage <= h[open - 1].stage <= h[open].stage;
    MacroStage(h[j].stage);
  }

  /** A call to a macro sector that held its target from the start would open its stage
      needlessly. */
  lemma MacroSectorNotWritten(h: seq<Event>, first: Memory, last: Memory, target: Images, staging: seq<byte>, k: nat)
    requires Complete(target) && SafeRun(h, first, last, target, staging) && AtTarget(first, target, 8, 16)
    requires k < |h|
    ensures !(8 <= h[k].sector < 16)
  {
    hide Chain;
    hide FinalOpens;
    hide Complete;
    hide Settled;
    hide InOrder;
    hide SameExcept;
    if 8 <= h[k].sector < 16 {
      var s := h[k].sector;
      var open := OpeningOf(h, k);
      assert CallOk(h[k], target, staging) && Missing(h[open].before, target, staging, h[open].stage);
      MacroStage(h[k].stage);
      var prior := h[..open];
      forall j | 0 <= j < |prior|
        ensures Confined(prior[j]) && prior[j].sector != s
      {
        NotAddressedYet(h, target, staging, open, j, s);
      }
      ChainPrefix(h, first, last, open);
      var j := ChangedWasWritten(prior, first, h[open].before, h[open].before, s);
      assert false;
    }
  }

  /** A run from `first` that shows profile page `p` over macro sectors not at target. */
  ghost predicate Dangles(h: seq<Event>, first: Memory, last: Memory, target: Images, staging: seq<byte>, m: Memory,
                          p: nat)
    requires p in target
  {
    SafeRun(h, first, last, target, staging) && Passed(h, last, m) && |m| > p && m[p] == target[p] &&
    !AtTarget(m, target, 8, 16)
  }

  /** MAIN RESULT. Whether a run can show the target page of a profile over macro sectors that
      do not hold their targets is settled before it starts: it can exactly if the page was
      there already and some macro sector was not. */
  lemma ProfileDanglesOnlyIfThere(first: Memory, target: Images, staging: seq<byte>, p: nat)
    requires Complete(target) && |first| == SECTOR_COUNT && 2 <= p <= 5
    ensures (exists h, last, m :: Dangles(h, first, last, target, staging, m, p)) <==>
              first[p] == target[p] && !AtTarget(first, target, 8, 16)
  {
    hide SafeRun;
    if first[p] == target[p] && !AtTarget(first, target, 8, 16) {
      NothingRuns(first, target, staging);
      assert Dangles([], first, first, target, staging, first, p);
    }
    forall h, last, m | SafeRun(h, first, last, target, staging) && Passed(h, last, m)
      ensures Dangles(h, first, last, target, staging, m, p) ==>
                first[p] == target[p] && !AtTarget(first, target, 8, 16)
    {
      if AtTarget(first, target, 8, 16) {
        MacrosStay(h, first, last, target, staging, m);
      } else if |m| > p && m[p] != first[p] {
        NewProfileFindsMacros(h, first, last, target, staging, m, p);
      }
    }
  }

  lemma NothingRuns(first: Memory, target: Images, staging: seq<byte>)
    ensures SafeRun([], first, first, target, staging)
  {
  }

  lemma MacrosSettled(e: Event, target: Images, staging: seq<byte>)
    requires Complete(target) && CallOk(e, target, staging) && e.stage > 8
    ensures AtTarget(e.before, target, 8, 16) && AtTarget(e.after, target, 8, 16)
  {
    forall s | 8 <= s < 16
      ensures e.before[s] == target[s] == e.after[s]
    {
      assert StageSector(StageOf(s)) == s;
    }
  }

  lemma LastIsAfter(h: seq<Event>, first: Memory, last: Memory)
    requires Chain(h, first, last) && h != []
    ensures last == h[|h| - 1].after
  {
  }

  /** MAIN RESULT. The final directory write begins only when all twelve macro and profile
      sectors already hold their targets, and they keep them from then on. */
  lemma FinalWriteFindsTargets(h: seq<Event>, first: Memory, last: Memory, target: Images, staging: seq<byte>, k: nat)
    requires Complete(target) && SafeRun(h, first, last, target, staging)
    requires k < |h| && h[k].stage == LAST
    ensures AtTarget(h[k].before, target, 2, 6) && AtTarget(h[k].before, target, 8, 16)
    ensures AtTarget(h[k].after, target, 2, 6) && AtTarget(h[k].after, target, 8, 16)
  {
    hide Chain;
    hide Needful;
    hide FinalOpens;
    var e := h[k];
    assert CallOk(e, target, staging);
    forall s | 2 <= s < 6 || 8 <= s < 16
      ensures e.before[s] == target[s] == e.after[s]
    {
      assert StageSector(StageOf(s)) == s;
    }
  }

  // ---------------------------------------------------------------- reading and validating

  predicate RecoveryOk(m: Memory, baseline: Images) {
    |m| == SECTOR_COUNT && {0, 1, 6, 7} <= baseline.Keys &&
    m[1] == baseline[1] && m[6] == baseline[6] && m[7] == baseline[7] && DirectoryOk(m[0], baseline[0])
  }

  /** `read_all`. */
  method ReadAll(mouse: Mouse) returns (r: Result<Memory, Failure>)
    requires mouse.Valid()
    modifies mouse`strays, mouse`connected
    ensures mouse.Valid() && mouse.strays == old(mouse.strays) + if r.Err? then 1 else 0
    ensures r.Ok? ==> r.value == mouse.sectors
    ensures r.Err? ==> Raised(r.error)
    ensures mouse.reliable ==> r.Ok?
  {
    var connection := mouse.Connect();
    if connection.Err? {
      return Err(connection.error);
    }
    var images: Memory := [];
    for sector := 0 to SECTOR_COUNT
      invariant images == mouse.sectors[..sector] && mouse.Valid() && mouse.connected
      invariant mouse.strays == old(mouse.strays)
    {
      var page := mouse.ReadSector(sector);
      if page.Err? {
        return Err(page.error);
      }
      images := images + [page.value];
    }
    return Ok(images);
  }

  /** `validate_recovery_images`. */
  method ValidateRecoveryImages(images: Memory, baseline: Images) returns (r: Result<(), Failure>)
    requires |images| == SECTOR_COUNT && Complete(baseline)
    ensures r.Ok? <==> RecoveryOk(images, baseline)
    ensures r.Err? ==> Raised(r.error)
  {
    hide DirectoryOk;
    if images[1] != baseline[1] || images[6] != baseline[6] || images[7] != baseline[7] {
      return Err(Runtime);
    }
    var enabled := ValidateDirectory(images[0], baseline[0]);
    if enabled.Err? {
      return Err(Other);
    }
    return Ok(());
  }

  /** `_validate_recovery_fresh`. */
  method ValidateRecoveryFresh(mouse: Mouse, baseline: Images) returns (r: Result<(), Failure>)
    requires mouse.Valid() && Complete(baseline)
    modifies mouse`strays, mouse`connected
    ensures mouse.Valid() && mouse.strays >= old(mouse.strays)
    ensures r.Ok? <==> mouse.strays == old(mouse.strays) && RecoveryOk(mouse.sectors, baseline)
    ensures r.Ok? ==> RecoveryOk(mouse.sectors, baseline)
    ensures r.Err? ==> Raised(r.error)
    ensures mouse.reliable && RecoveryOk(mouse.sectors, baseline) ==> r.Ok?
  {
    hide RecoveryOk;
    var images := ReadAll(mouse);
    if images.Err? {
      return Err(images.error);
    }
    r := ValidateRecoveryImages(images.value, baseline);
    if r.Ok? {
      r := mouse.Ask();
    }
  }

  // ---------------------------------------------------------------- the shared write sequence

  /** Nothing can go wrong: no call fails, nobody cancels, and the images are valid. */
  ghost predicate Calm(first: Memory, undisturbed: bool, baseline: Images, target: Images) {
    undisturbed && RecoveryOk(first, baseline) && 0 in target && 0 in baseline && DirectoryOk(target[0], baseline[0])
  }

  /** Since the record was `h` and the memory `first`, the run is safe and has not gone
      past the stages before `stage`. */
  ghost predicate Progress(h: seq<Event>, first: Memory, history: seq<Event>, now: Memory, target: Images,
                           staging: seq<byte>, stage: nat)
  {
    h <= history && SafeRun(history[|h|..], first, now, target, staging) &&
    forall k :: |h| <= k < |history| ==> history[k].stage < stage
  }

  /** The stages before `stage` are done. */
  ghost predicate Ready(now: Memory, target: Images, staging: seq<byte>, stage: nat) {
    Settled(now, target, stage) && (1 <= stage <= LAST ==> now[0] == staging) &&
    (stage == STAGES ==> now[0] == StageTarget(target, staging, LAST))
  }

  lemma NextStage(h: seq<Event>, first: Memory, before: seq<Event>, m: Memory, history: seq<Event>, now: Memory,
                  target: Images, staging: seq<byte>, stage: nat)
    requires stage < STAGES && Progress(h, first, before, m, target, staging, stage) && Ready(m, target, staging, stage)
    requires Since(before, m, history, now, stage, StageSector(stage))
    requires Missing(m, target, staging, stage) || history == before
    ensures Progress(h, first, history, now, target, staging, stage + 1)
    ensures Written(now, target, staging, stage) ==> Ready(now, target, staging, stage + 1)
  {
    hide SafeRun;
    hide Chain;
    hide AllIn;
    hide CallOk;
    var done := before[|h|..];
    var d := history[|before|..];
    assert history[|h|..] == done + d;
    forall k | 0 <= k < |done|
      ensures done[k].stage < stage
    {
      assert done[k] == before[k + |h|];
    }
    StageKeepsRun(done, d, first, m, now, target, staging, stage);
    if Written(now, target, staging, stage) {
      StageSettles(m, now, target, staging, stage);
    }
    forall k | |h| <= k < |history|
      ensures history[k].stage < stage + 1
    {
      assert history[k] == (done + d)[k - |h|];
    }
  }

  /** One stage: the reconciled write, then the validation that follows it. */
  method RunStage(mouse: Mouse, baseline: Images, target: Images, staging: seq<byte>, stage: nat, writeAllowed: bool,
                  ghost h: seq<Event>, ghost first: Memory)
    returns (r: Result<(), Failure>)
    requires mouse.Valid() && Complete(baseline) && Complete(target) && stage < STAGES
    requires Progress(h, first, mouse.history, mouse.sectors, target, staging, stage)
    requires Ready(mouse.sectors, target, staging, stage)
    modifies mouse
    ensures mouse.Valid() && Progress(h, first, mouse.history, mouse.sectors, target, staging, stage + 1)
    ensures r.Ok? ==> Ready(mouse.sectors, target, staging, stage + 1) && RecoveryOk(mouse.sectors, baseline)
    ensures r != Err(Cancelled) && mouse.strays >= old(mouse.strays)
    // Without a stray failure, a stage over a recoverable device fails only when its sector
    // could not be brought to the target.
    ensures (
              && mouse.strays == old(mouse.strays) && writeAllowed && RecoveryOk(old(mouse.sectors), baseline)
              && DirectoryOk(staging, baseline[0]) && DirectoryOk(target[0], baseline[0])
            ) ==> r.Ok? || r.error in {Unchanged, Indeterminate}
    ensures (
              && mouse.reliable && writeAllowed && |staging| == SECTOR_SIZE && RecoveryOk(old(mouse.sectors), baseline)
              && DirectoryOk(staging, baseline[0]) && DirectoryOk(target[0], baseline[0])
            ) ==> r.Ok?
  {
    hide Directory.DirectoryOk;
    hide Settled;
    hide Progress;
    hide Since;
    ghost var before, m := mouse.history, mouse.sectors;
    ghost var made;
    r, made := mouse.FreshWriteSector(StageSector(stage), StageTarget(target, staging, stage), 3, writeAllowed, stage);
    NextStage(h, first, before, m, mouse.history, mouse.sectors, target, staging, stage);
    if r.Ok? {
      SinceElsewhere(before, m, mouse.history, mouse.sectors, stage, StageSector(stage));
      r := ValidateRecoveryFresh(mouse, baseline);
    }
  }

  lemma SinceElsewhere(h: seq<Event>, m: Memory, history: seq<Event>, now: Memory, stage: nat, sector: nat)
    requires Since(h, m, history, now, stage, sector)
    ensures SameExcept(m, now, sector)
  {
  }

  lemma NoProgressYet(h: seq<Event>, m: Memory, target: Images, staging: seq<byte>, stage: nat)
    ensures Progress(h, m, h, m, target, staging, stage)
  {
    assert h[|h|..] == [];
  }

  lemma ProgressWidens(h: seq<Event>, first: Memory, history: seq<Event>, now: Memory, target: Images,
                       staging: seq<byte>, stage: nat)
    requires Progress(h, first, history, now, target, staging, stage) && stage <= STAGES
    ensures Progress(h, first, history, now, target, staging, STAGES)
  {
  }

  /** From the staging directory to the final one, through every macro and profile sector. */
  method WriteManaged(mouse: Mouse, hooks: Hooks, baseline: Images, target: Images, staging: seq<byte>,
                      writeAllowed: bool)
    returns (r: Result<(), Failure>)
    requires mouse.Valid() && Complete(baseline) && Complete(target) && DirectoryFor(staging, baseline[0], {1, 2})
    modifies mouse, hooks
    ensures mouse.Valid()
    ensures Progress(old(mouse.history), old(mouse.sectors), mouse.history, mouse.sectors, target, staging, STAGES)
    ensures r.Ok? ==> Ready(mouse.sectors, target, staging, STAGES) && RecoveryOk(mouse.sectors, baseline)
    ensures r == Err(Cancelled) ==> mouse.history == old(mouse.history) && hooks.phases == old(hooks.phases)
    ensures hooks.polled == old(hooks.phases) && (hooks.seen <==> r == Err(Cancelled))
    ensures hooks.phases == old(hooks.phases) || hooks.phases == old(hooks.phases) + [WRITING]
    ensures r.Ok? || mouse.history != old(mouse.history) ==> hooks.phases == old(hooks.phases) + [WRITING]
    ensures mouse.strays >= old(mouse.strays)
    ensures mouse.strays == old(mouse.strays) &&
            Calm(old(mouse.sectors), hooks.quiet && writeAllowed, baseline, target) ==>
              r.Ok? || r.error in {Unchanged, Indeterminate}
    ensures Calm(old(mouse.sectors), mouse.reliable && hooks.quiet && writeAllowed, baseline, target) ==> r.Ok?
  {
    hide Progress;
    hide Ready;
    hide RecoveryOk;
    hide DirectoryOk;
    ghost var h, first := mouse.history, mouse.sectors;
    NoProgressYet(h, first, target, staging, 0);
    ProgressWidens(h, first, h, first, target, staging, 0);
    var uncancelled := hooks.CheckCancel();
    if uncancelled.Err? {
      return uncancelled;
    }
    var announced := hooks.Announce(WRITING);
    if announced.Err? {
      return announced;
    }
    assert Ready(mouse.sectors, target, staging, 0) by {
      NothingReady(mouse.sectors, target, staging);
    }
    var stage := 0;
    while stage < STAGES
      invariant 0 <= stage <= STAGES && mouse.Valid()
      invariant Progress(h, first, mouse.history, mouse.sectors, target, staging, stage)
      invariant Ready(mouse.sectors, target, staging, stage)
      invariant stage > 0 ==> RecoveryOk(mouse.sectors, baseline)
      invariant hooks.phases == old(hooks.phases) + [WRITING] && hooks.polled == old(hooks.phases) && !hooks.seen
      invariant mouse.strays >= old(mouse.strays)
      invariant Calm(first, hooks.quiet && writeAllowed, baseline, target) ==> RecoveryOk(mouse.sectors, baseline)
    {
      r := RunStage(mouse, baseline, target, staging, stage, writeAllowed, h, first);
      ProgressWidens(h, first, mouse.history, mouse.sectors, target, staging, stage + 1);
      if r.Err? {
        return;
      }
      stage := stage + 1;
    }
    return Ok(());
  }

  lemma NothingReady(m: Memory, target: Images, staging: seq<byte>)
    requires |m| == SECTOR_COUNT
    ensures Ready(m, target, staging, 0)
  {
  }
}
