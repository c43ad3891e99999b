/** `private_replace_dir`: every state it can leave behind, and how it ends. */
module CrashSafe {
  import opened Bytes
  import opened Files

  // ---------------------------------------------------------------- the replacement

  /** The parts of a swap: `before` the swap, with the names it works on. */
  datatype Swap = Swap(before: Dirs, stage: string, out: string, previous: string) {
    ghost predicate Proper() {
      stage in before && out in before && stage != out && previous !in before
    }

    ghost function Old(): Dir
      requires Proper()
    {
      before[out]
    }

    ghost function New(): Dir
      requires Proper()
    {
      before[stage]
    }

    ghost function Rest(): Dirs {
      before - {stage, out}
    }

    /** The old directory is set aside, the new one still staged. */
    ghost predicate SetAside(d: Dirs)
      requires Proper()
    {
      d == Rest()[previous := Old()][stage := New()]
    }

    /** The new directory, or what a rollback has left of it, is in place. */
    ghost predicate InPlace(d: Dirs)
      requires Proper()
    {
      out in d && PartOf(d[out], New()) && d == Rest()[previous := Old()][out := d[out]]
    }

    /** The new directory is in place and the old one is being removed. */
    ghost predicate Cleaning(d: Dirs)
      requires Proper()
    {
      previous in d && PartOf(d[previous], Old()) && d == Rest()[previous := d[previous]][out := New()]
    }

    ghost predicate Published(d: Dirs)
      requires Proper()
    {
      d == Rest()[out := New()]
    }

    /** A rollback has removed the new directory and not yet renamed the old one back. */
    ghost predicate Emptied(d: Dirs)
      requires Proper()
    {
      d == Rest()[previous := Old()]
    }

    ghost predicate Restored(d: Dirs)
      requires Proper()
    {
      d == before || d == Rest()[out := Old()]
    }

    /** The states of a replacement that has not had to roll back. */
    ghost predicate Forward(d: Dirs) {
      Proper() && (d == before || SetAside(d) || Cleaning(d) || Published(d))
    }

    /** The states its handler passes through. */
    ghost predicate Handled(d: Dirs) {
      Proper() && (InPlace(d) || Emptied(d) || Restored(d))
    }

    /** The handler's deletion has taken a file that a baseline cannot do without. */
    ghost predicate RollbackCut(d: Dirs) {
      Proper() && InPlace(d) && !Needed(d[out])
    }
  }

  lemma SettingAside(w: Swap)
    requires w.Proper()
    ensures w.SetAside(w.before[w.previous := w.before[w.out]] - {w.out})
  {
  }

  lemma PuttingInPlace(w: Swap, d: Dirs)
    requires w.Proper() && w.SetAside(d)
    ensures w.InPlace(d[w.out := d[w.stage]] - {w.stage}) && w.Cleaning(d[w.out := d[w.stage]] - {w.stage})
  {
  }

  lemma PuttingBack(w: Swap, d: Dirs)
    requires w.Proper() && (w.SetAside(d) || w.Emptied(d))
    ensures w.Restored(d[w.out := d[w.previous]] - {w.previous})
  {
    var back := d[w.out := d[w.previous]] - {w.previous};
    if w.SetAside(d) {
      assert back == w.before;
    } else {
      assert back == w.Rest()[w.out := w.Old()];
    }
  }

  /** The old directory is back exactly when nothing is kept aside any more. */
  lemma AsideIsNotRestored(w: Swap, d: Dirs)
    requires w.Proper() && (w.previous in d || (w.Published(d) && w.Old() != w.New()))
    ensures !w.Restored(d)
  {
    assert w.Published(d) ==> d[w.out] == w.New();
  }

  lemma LosingTheNew(w: Swap, whole: Dirs, d: Dirs)
    requires w.Proper() && w.InPlace(whole) && Losing(d, whole, w.out)
    ensures w.InPlace(d)
  {
  }

  lemma LosingTheOld(w: Swap, whole: Dirs, d: Dirs)
    requires w.Proper() && w.Cleaning(whole) && Losing(d, whole, w.previous)
    ensures w.Cleaning(d)
  {
  }

  lemma Removed(w: Swap, d: Dirs)
    requires w.Proper()
    ensures w.InPlace(d) ==> w.Emptied(d - {w.out})
    ensures w.Cleaning(d) ==> w.Published(d - {w.previous})
  {
    assert w.InPlace(d) ==> d - {w.out} == w.Rest()[w.previous := w.Old()];
    assert w.Cleaning(d) ==> d - {w.previous} == w.Rest()[w.out := w.New()];
  }

  // ---------------------------------------------------------------- how a replacement can end

  /** Everything but `Replaced` is an exception. */
  datatype SwapEnd = Replaced | Untouched | LeftAside | RolledBack | RollbackFailed | CleanupFailed

  /** How the replacement that makes its first call as number `n` ends, by the calls that
      raise: two before the old directory moves, one while it is set aside, two that bring
      the new one in, and two for the clean-up or for the handler. */
  function Ending(fails: nat -> bool, n: nat): SwapEnd {
    if fails(n) || fails(n + 1) then Untouched
    else if fails(n + 2) then LeftAside
    else if fails(n + 3) then if fails(n + 4) then RollbackFailed else RolledBack
    else if fails(n + 4) then if fails(n + 5) || fails(n + 6) then RollbackFailed else RolledBack
    else if fails(n + 5) || fails(n + 6) then CleanupFailed
    else Replaced
  }

  /** The handler runs with the new directory in place, and its deletion, itself raising or
      not, takes a needed file. */
  predicate Cuts(fails: nat -> bool, losses: nat -> seq<FileName>, n: nat, dir: Dir) {
    && !fails(n) && !fails(n + 1) && !fails(n + 2) && !fails(n + 3) && fails(n + 4)
    && DeletionCuts(fails, losses, n + 5, dir)
  }

  /** The handler runs with the new directory in place and its deletion raises. */
  predicate DeletionRaises(fails: nat -> bool, n: nat) {
    !fails(n) && !fails(n + 1) && !fails(n + 2) && !fails(n + 3) && fails(n + 4) && fails(n + 5)
  }

  predicate DeletionCuts(fails: nat -> bool, losses: nat -> seq<FileName>, n: nat, dir: Dir) {
    fails(n) ==> !Needed(dir - Members(losses(n)))
  }

  ghost predicate AllForward(w: Swap, states: seq<Dirs>) {
    forall i :: 0 <= i < |states| ==> w.Forward(states[i])
  }

  ghost predicate AllHandled(w: Swap, states: seq<Dirs>) {
    forall i :: 0 <= i < |states| ==> w.Handled(states[i])
  }

  ghost predicate CutIn(w: Swap, states: seq<Dirs>) {
    exists i :: 0 <= i < |states| && w.RollbackCut(states[i])
  }

  /** While the handler deletes the new directory, a needed file goes missing exactly if it
      is among the files the deletion takes. */
  lemma DeletionOfTheNew(w: Swap, states: seq<Dirs>, from: nat, start: Dirs, now: Dirs, files: set<FileName>)
    requires w.Proper() && w.InPlace(start) && start[w.out] == w.New()
    requires now == Without(start, w.out, files) && Dwindling(states, from, start, now, w.out, files)
    ensures AllHandled(w, states[from..]) && w.InPlace(now)
    ensures Needed(w.New()) ==> (CutIn(w, states[from..]) <==> !Needed(w.New() - files))
  {
    hide Needed;
    var seg := states[from..];
    forall i | 0 <= i < |seg|
      ensures w.InPlace(seg[i]) && Keeping(seg[i], start, w.out, files)
    {
      assert seg[i] == states[from + i];
      LosingTheNew(w, start, seg[i]);
    }
    NothingLost(start, w.out);
    assert Losing(now, start, w.out) by {
      assert PartOf(now[w.out], start[w.out]);
    }
    LosingTheNew(w, start, now);
    assert now[w.out] == w.New() - files;
    if Needed(w.New()) && !Needed(w.New() - files) {
      assert now != start;
      assert seg[|seg| - 1] == now && w.RollbackCut(now);
    } else if Needed(w.New() - files) {
      forall i | 0 <= i < |seg|
        ensures !w.RollbackCut(seg[i])
      {
        KeepingNeeded(seg[i], start, w.out, files);
      }
    }
  }

  lemma KeepingNeeded(state: Dirs, dirs: Dirs, name: string, files: set<FileName>)
    requires Keeping(state, dirs, name, files) && Needed(dirs[name] - files)
    ensures Needed(state[name])
  {
    assert ManifestFile in dirs[name] - files;
    forall s: nat | s < SECTOR_COUNT
      ensures SectorFile(s) in state[name]
    {
      assert SectorFile(s) in dirs[name] - files;
    }
  }

  lemma DeletionOfTheOld(w: Swap, states: seq<Dirs>, from: nat, start: Dirs, now: Dirs, files: set<FileName>)
    requires w.Proper() && w.Cleaning(start)
    requires now == Without(start, w.previous, files) && Dwindling(states, from, start, now, w.previous, files)
    ensures AllForward(w, states[from..]) && w.Cleaning(now) && w.previous in now
  {
    var seg := states[from..];
    forall i | 0 <= i < |seg|
      ensures w.Cleaning(seg[i])
    {
      assert seg[i] == states[from + i];
      LosingTheOld(w, start, seg[i]);
    }
    assert Losing(now, start, w.previous) by {
      assert PartOf(now[w.previous], start[w.previous]);
    }
    LosingTheOld(w, start, now);
  }

  // ---------------------------------------------------------------- the replacement, call by call

  /** The handler's deletion of the new directory. */
  method DeleteNew(fs: FileSystem, out: string, ghost w: Swap) returns (io: Io, ghost handled: seq<Dirs>)
    requires w.Proper() && w.out == out && w.InPlace(fs.dirs) && fs.dirs[out] == w.New()
    modifies fs
    ensures fs.states == old(fs.states) + handled && AllHandled(w, handled)
    ensures fs.calls == old(fs.calls) + 1 && (io.Raised? <==> fs.fails(old(fs.calls)))
    ensures Needed(w.New()) ==> (CutIn(w, handled) <==> DeletionCuts(fs.fails, fs.losses, old(fs.calls), w.New()))
    ensures io.Done? ==> w.Emptied(fs.dirs)
    // A deletion that raises leaves exactly what it had not yet taken.
    ensures io.Raised? ==> w.InPlace(fs.dirs) && fs.dirs[out] == w.New() - Members(fs.losses(old(fs.calls)))
  {
    hide Dwindling;
    hide PartOf;
    hide Needed;
    ghost var start, from := fs.dirs, |fs.states|;
    io := fs.RemoveTree(out);
    Removed(w, start);
    ghost var files := if io.Raised? then Members(fs.losses(old(fs.calls))) else start[out].Keys;
    ghost var passed := if io.Raised? then fs.states else fs.states[..|fs.states| - 1];
    DeletionOfTheNew(w, passed, from, start, Without(start, out, files), files);
    NothingNeeded(w.New());
    handled := fs.states[from..];
    if io.Done? {
      assert handled == passed[from..] + [fs.dirs];
      NoCutLeft(w, fs.dirs);
      OneMoreHandled(w, passed[from..], fs.dirs);
    }
  }

  /** The handler's renaming of the old directory. */
  method PutBack(fs: FileSystem, out: string, previous: string, ghost w: Swap)
    returns (end: SwapEnd, ghost handled: seq<Dirs>)
    requires w.Proper() && w.out == out && w.previous == previous && (w.SetAside(fs.dirs) || w.Emptied(fs.dirs))
    modifies fs
    ensures fs.states == old(fs.states) + handled && AllHandled(w, handled) && !CutIn(w, handled)
    ensures end == if fs.fails(old(fs.calls)) then RollbackFailed else RolledBack
    ensures if end == RolledBack then w.Restored(fs.dirs) else previous in fs.dirs
  {
    handled := [];
    PuttingBack(w, fs.dirs);
    var renamed := fs.Rename(previous, out);
    if renamed.Raised? {
      return RollbackFailed, handled;
    }
    handled := [fs.dirs];
    NoCutLeft(w, fs.dirs);
    var synced := fs.Sync();
    return RolledBack, handled;
  }

  /** The handler: remove whatever is in place and put the old directory back. */
  method RollBack(fs: FileSystem, out: string, previous: string, ghost w: Swap)
    returns (end: SwapEnd, ghost handled: seq<Dirs>)
    requires w.Proper() && w.out == out && w.previous == previous
    requires w.SetAside(fs.dirs) || (w.InPlace(fs.dirs) && fs.dirs[out] == w.New())
    modifies fs
    ensures fs.states == old(fs.states) + handled && AllHandled(w, handled)
    ensures end == HandlerEnding(fs.fails, old(fs.calls), out in old(fs.dirs))
    ensures if end == RolledBack then w.Restored(fs.dirs) else previous in fs.dirs
    ensures Needed(w.New()) ==>
              (CutIn(w, handled) <==> out in old(fs.dirs) && DeletionCuts(fs.fails, fs.losses, old(fs.calls), w.New()))
    ensures out in old(fs.dirs) && fs.fails(old(fs.calls)) ==>
              w.InPlace(fs.dirs) && fs.dirs[out] == w.New() - Members(fs.losses(old(fs.calls)))
  {
    hide PartOf;
    hide Needed;
    hide AllHandled;
    hide CutIn;
    handled := [];
    NothingHandled(w);
    if out in fs.dirs {
      var io;
      io, handled := DeleteNew(fs, out, w);
      if io.Raised? {
        return RollbackFailed, handled;
      }
    }
    ghost var back;
    end, back := PutBack(fs, out, previous, w);
    BothHandled(w, handled, back);
    handled := handled + back;
  }

  function HandlerEnding(fails: nat -> bool, n: nat, inPlace: bool): SwapEnd {
    if fails(n) || (inPlace && fails(n + 1)) then RollbackFailed else RolledBack
  }

  lemma NothingHandled(w: Swap)
    ensures AllHandled(w, []) && !CutIn(w, [])
  {
  }

  lemma NoCutLeft(w: Swap, d: Dirs)
    requires w.Proper() && (w.Emptied(d) || w.Restored(d))
    ensures w.Handled(d) && !w.RollbackCut(d)
  {
    hide Needed;
    assert w.InPlace(d) ==> w.previous in d && w.out in d;
  }

  lemma OneMoreHandled(w: Swap, states: seq<Dirs>, d: Dirs)
    requires AllHandled(w, states) && w.Handled(d) && !w.RollbackCut(d)
    ensures AllHandled(w, states + [d]) && (CutIn(w, states + [d]) <==> CutIn(w, states))
  {
    hide Swap.Handled;
    hide Swap.RollbackCut;
    assert forall i :: 0 <= i < |states| ==> (states + [d])[i] == states[i];
  }

  lemma BothHandled(w: Swap, a: seq<Dirs>, b: seq<Dirs>)
    requires AllHandled(w, a) && AllHandled(w, b) && !CutIn(w, b)
    ensures AllHandled(w, a + b) && (CutIn(w, a + b) <==> CutIn(w, a))
  {
    hide Swap.Handled;
    hide Swap.RollbackCut;
    assert forall i :: 0 <= i < |a| ==> (a + b)[i] == a[i];
    assert forall i :: |a| <= i < |a + b| ==> (a + b)[i] == b[i - |a|];
  }

  lemma NothingNeeded(dir: Dir)
    ensures !Needed(dir - dir.Keys)
  {
  }

  /** The old directory is removed once the new one is in place. */
  method CleanUp(fs: FileSystem, previous: string, ghost w: Swap) returns (end: SwapEnd, ghost forward: seq<Dirs>)
    requires w.Proper() && w.previous == previous && w.Cleaning(fs.dirs)
    modifies fs
    ensures fs.states == old(fs.states) + forward && AllForward(w, forward)
    ensures var n := old(fs.calls); end == if fs.fails(n) || fs.fails(n + 1) then CleanupFailed else Replaced
    ensures if fs.fails(old(fs.calls)) then w.Cleaning(fs.dirs) && previous in fs.dirs else w.Published(fs.dirs)
  {
    hide Dwindling;
    hide PartOf;
    ghost var start, from := fs.dirs, |fs.states|;
    var io := fs.RemoveTree(previous);
    Removed(w, start);
    ghost var files := if io.Raised? then Members(fs.losses(old(fs.calls))) else start[previous].Keys;
    ghost var passed := if io.Raised? then fs.states else fs.states[..|fs.states| - 1];
    DeletionOfTheOld(w, passed, from, start, Without(start, previous, files), files);
    forward := fs.states[from..];
    if io.Raised? {
      return CleanupFailed, forward;
    }
    assert forward == passed[from..] + [fs.dirs];
    io := fs.Sync();
    end := if io.Done? then Replaced else CleanupFailed;
  }

  /** `private_commit_dir`. */
  method PrivateCommitDir(fs: FileSystem, stage: string, out: string) returns (io: Io)
    requires stage in fs.dirs && stage != out
    modifies fs
    ensures out in old(fs.dirs) ==> io.Raised? && fs.dirs == old(fs.dirs)
    ensures io.Done? ==> fs.dirs == old(fs.dirs)[out := old(fs.dirs)[stage]] - {stage}
    ensures io.Raised? ==> fs.dirs == old(fs.dirs) || fs.dirs == old(fs.dirs)[out := old(fs.dirs)[stage]] - {stage}
    ensures fs.states == old(fs.states) || fs.states == old(fs.states) + [fs.dirs]
    ensures var n := old(fs.calls);
            out !in old(fs.dirs) ==> (io.Raised? <==> fs.fails(n) || fs.fails(n + 1) || fs.fails(n + 2))
  {
    if out in fs.dirs {
      return Raised;
    }
    io := fs.Sync();
    if io.Done? {
      io := fs.Rename(stage, out);
    }
    if io.Done? {
      io := fs.Sync();
    }
  }

  /** From the second rename on. */
  method BringIn(fs: FileSystem, stage: string, out: string, previous: string, ghost w: Swap)
    returns (end: SwapEnd, ghost forward: seq<Dirs>, ghost handled: seq<Dirs>)
    requires w.Proper() && w.stage == stage && w.out == out && w.previous == previous && w.SetAside(fs.dirs)
    modifies fs
    ensures fs.states == old(fs.states) + forward + handled && AllForward(w, forward) && AllHandled(w, handled)
    ensures var n := old(fs.calls);
            end == if fs.fails(n) then HandlerEnding(fs.fails, n + 1, false)
                   else if fs.fails(n + 1) then HandlerEnding(fs.fails, n + 2, true)
                   else if fs.fails(n + 2) || fs.fails(n + 3) then CleanupFailed else Replaced
    ensures !fs.fails(old(fs.calls)) && !fs.fails(old(fs.calls) + 1) ==> handled == []
    ensures var n := old(fs.calls);
            Needed(w.New()) ==>
              (CutIn(w, handled) <==>
                 !fs.fails(n) && fs.fails(n + 1) && DeletionCuts(fs.fails, fs.losses, n + 2, w.New()))
    ensures var n := old(fs.calls);
            !fs.fails(n) && fs.fails(n + 1) && fs.fails(n + 2) ==>
              w.InPlace(fs.dirs) && fs.dirs[out] == w.New() - Members(fs.losses(n + 2))
    ensures end == RolledBack ==> w.Restored(fs.dirs)
    ensures end == RollbackFailed ==> previous in fs.dirs
    ensures end == CleanupFailed ==> (w.Cleaning(fs.dirs) && previous in fs.dirs) || w.Published(fs.dirs)
    ensures end == Replaced ==> w.Published(fs.dirs)
  {
    hide PartOf;
    hide Needed;
    hide AllHandled;
    hide CutIn;
    forward, handled := [], [];
    NothingHandled(w);
    PuttingInPlace(w, fs.dirs);
    var io := fs.Rename(stage, out);
    if io.Raised? {
      end, handled := RollBack(fs, out, previous, w);
      return;
    }
    forward := [fs.dirs];
    io := fs.Sync();
    if io.Raised? {
      end, handled := RollBack(fs, out, previous, w);
    } else {
      ghost var cleaning;
      end, cleaning := CleanUp(fs, previous, w);
      forward := forward + cleaning;
    }
  }

  lemma NothingForward(w: Swap)
    ensures AllForward(w, [])
  {
  }

  lemma ForwardFirst(w: Swap, d: Dirs, states: seq<Dirs>)
    requires w.Forward(d) && AllForward(w, states)
    ensures AllForward(w, [d] + states)
  {
    hide Swap.Forward;
    assert forall i :: 0 < i < |[d] + states| ==> ([d] + states)[i] == states[i - 1];
  }

  /** `private_replace_dir` over a directory that exists. The states it passes through are
      those before its handler and those of the handler. */
  method PrivateReplaceDir(fs: FileSystem, stage: string, out: string, previous: string)
    returns (end: SwapEnd, ghost forward: seq<Dirs>, ghost handled: seq<Dirs>)
    requires stage in fs.dirs && out in fs.dirs && stage != out
    modifies fs
    ensures fs.states == old(fs.states) + forward + handled
    ensures previous in old(fs.dirs) ==> end == Untouched && fs.dirs == old(fs.dirs) && forward == handled == []
    ensures previous !in old(fs.dirs) ==>
              var w, n := Swap(old(fs.dirs), stage, out, previous), old(fs.calls);
              && end == Ending(fs.fails, n)
              && AllForward(w, forward) && AllHandled(w, handled)
              // Only a rollback enters the handler, and only its deletion can do harm.
              && (end != RolledBack && end != RollbackFailed ==> handled == [])
              && (Needed(w.New()) ==> (CutIn(w, handled) <==> Cuts(fs.fails, fs.losses, n, w.New())))
              && (end == Replaced ==> w.Published(fs.dirs))
              && (end == LeftAside ==> w.SetAside(fs.dirs))
              && (end == Untouched ==> fs.dirs == w.before)
              && (end == RolledBack ==> w.Restored(fs.dirs))
              && (DeletionRaises(fs.fails, n) ==>
                    w.InPlace(fs.dirs) && fs.dirs[out] == w.New() - Members(fs.losses(n + 5)))
              && (end == CleanupFailed ==> w.Cleaning(fs.dirs) || w.Published(fs.dirs))
              // The old directory is back in place after exactly two kinds of end.
              && (w.Old() != w.New() ==> (w.Restored(fs.dirs) <==> end == Untouched || end == RolledBack))
  {
    hide PartOf;
    hide Needed;
    hide AllForward;
    hide AllHandled;
    hide CutIn;
    hide DeletionCuts;
    forward, handled := [], [];
    if previous in fs.dirs {
      end := Untouched;
      return;
    }
    ghost var w := Swap(fs.dirs, stage, out, previous);
    NothingForward(w);
    NothingHandled(w);
    var io := fs.Sync();
    if io.Done? {
      io := fs.Rename(out, previous);
    }
    if io.Raised? {
      end := Untouched;
      return;
    }
    SettingAside(w);
    ghost var aside := fs.dirs;
    forward := [aside];
    ForwardFirst(w, aside, []);
    assert forward + [] == forward;
    io := fs.Sync();
    if io.Raised? {
      AsideIsNotRestored(w, fs.dirs);
      end := LeftAside;
      return;
    }
    ghost var coming;
    end, coming, handled := BringIn(fs, stage, out, previous, w);
    assert fs.states == old(fs.states) + (forward + coming) + handled;
    forward := forward + coming;
    ForwardFirst(w, aside, coming);
    if w.previous in fs.dirs || (w.Published(fs.dirs) && w.Old() != w.New()) {
      AsideIsNotRestored(w, fs.dirs);
    }
  }
}
