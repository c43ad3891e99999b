/** `active_baseline_root`: finding the active baseline again after a crash. */
module Recovery {
  import opened Bytes
  import opened Files
  import opened CrashSafe

  // ---------------------------------------------------------------- recovery

  /** The names `.previous-<fingerprint>-*`. */
  predicate IsPrevious(name: string, fp: string) {
    ".previous-" + fp + "-" <= name
  }

  predicate ValidCopy(dirs: Dirs, name: string, fp: string) {
    name in dirs && IsPrevious(name, fp) && Load(dirs[name], fp).Some?
  }

  function ValidCopies(dirs: Dirs, fp: string): set<string> {
    set name | name in dirs && ValidCopy(dirs, name, fp)
  }

  /** What `active_baseline_root` and `load_baseline` answer when no file call raises. */
  ghost function Recover(dirs: Dirs, fp: string): Option<Baseline> {
    if fp in dirs then Load(dirs[fp], fp)
    else if |ValidCopies(dirs, fp)| == 1 then
      var name :| name in ValidCopies(dirs, fp);
      Load(dirs[name], fp)
    else None
  }

  lemma OnlyCopy(dirs: Dirs, fp: string, name: string)
    requires fp !in dirs
    ensures ValidCopies(dirs, fp) == {name} ==> name in dirs && Recover(dirs, fp) == Load(dirs[name], fp)
    ensures |ValidCopies(dirs, fp)| == 1 && name in ValidCopies(dirs, fp) ==> ValidCopies(dirs, fp) == {name}
  {
    hide Load;
    var copies := ValidCopies(dirs, fp);
    if name in copies {
      assert |copies - {name}| == |copies| - 1;
      assert copies == {name} + (copies - {name});
    }
  }

  /** `active_baseline_root`: a missing baseline is put back from its single valid previous
      copy, and nothing is returned unverified. */
  method ActiveBaseline(fs: FileSystem, fp: string) returns (r: Option<Baseline>, raised: bool)
    modifies fs
    ensures !raised ==> r == Recover(old(fs.dirs), fp)
    ensures raised ==> r.None? && exists n :: old(fs.calls) <= n < old(fs.calls) + 3 && fs.fails(n)
    ensures fs.states == old(fs.states) || fs.states == old(fs.states) + [fs.dirs]
    // Interrupted or not, asking again gives the same answer.
    ensures Recover(fs.dirs, fp) == Recover(old(fs.dirs), fp)
  {
    hide Load;
    raised := false;
    if fp !in fs.dirs {
      var names, valid := fs.dirs.Keys, {};
      while names != {}
        invariant names <= fs.dirs.Keys
        invariant valid == set name | name in fs.dirs && name !in names && ValidCopy(fs.dirs, name, fp)
      {
        var name :| name in names;
        if ValidCopy(fs.dirs, name, fp) {
          valid := valid + {name};
        }
        names := names - {name};
      }
      assert valid == ValidCopies(fs.dirs, fp);
      if |valid| != 1 {
        return None, false;
      }
      var copy :| copy in valid;
      OnlyCopy(fs.dirs, fp, copy);
      var io := PrivateCommitDir(fs, copy, fp);
      if io.Raised? {
        return None, true;
      }
    }
    r := Load(fs.dirs[fp], fp);
  }

  /** No directory besides the ones being swapped is a valid previous copy. */
  ghost predicate NoOtherCopy(w: Swap, fp: string)
    requires w.Proper()
  {
    forall name :: name in w.Rest() ==> !ValidCopy(w.Rest(), name, fp)
  }

  ghost predicate Replacing(w: Swap, fp: string) {
    w.Proper() && w.out == fp && IsPrevious(w.previous, fp) && !IsPrevious(w.stage, fp) &&
    Load(w.Old(), fp).Some? && Load(w.New(), fp).Some?
  }

  lemma PreviousIsNotOut(name: string, fp: string)
    requires IsPrevious(name, fp)
    ensures name != fp
  {
    assert |name| > |fp|;
  }

  lemma CopiesWhenMissing(w: Swap, d: Dirs, fp: string)
    requires Replacing(w, fp) && (w.SetAside(d) || w.Emptied(d))
    ensures w.previous in ValidCopies(d, fp) && fp !in d
    ensures NoOtherCopy(w, fp) <==> ValidCopies(d, fp) == {w.previous}
  {
    hide Load;
    hide IsPrevious;
    PreviousIsNotOut(w.previous, fp);
    forall name | name in w.Rest()
      ensures ValidCopy(w.Rest(), name, fp) <==> name in ValidCopies(d, fp) && name != w.previous
    {
    }
    if !NoOtherCopy(w, fp) {
      var name :| name in w.Rest() && ValidCopy(w.Rest(), name, fp);
      assert name in ValidCopies(d, fp) && name != w.previous;
    }
  }

  /** A replacement that has not had to roll back can be interrupted anywhere: the next
      start finds the whole old or the whole new baseline. */
  lemma ForwardRecovers(w: Swap, d: Dirs, fp: string)
    requires Replacing(w, fp) && NoOtherCopy(w, fp) && w.Forward(d)
    ensures Recover(d, fp) == if w.Cleaning(d) || w.Published(d) then Load(w.New(), fp) else Load(w.Old(), fp)
  {
    hide Load;
    hide IsPrevious;
    PreviousIsNotOut(w.previous, fp);
    if w.SetAside(d) {
      CopiesWhenMissing(w, d, fp);
      OnlyCopy(d, fp, w.previous);
    }
  }

  /** MAIN RESULT. Whatever state a crash leaves behind, the next start never mixes the two
      baselines: it finds wholly the old one, wholly the new one, or refuses. Without
      another valid previous copy it refuses exactly when the handler's deletion has taken
      a needed file, and even then the old directory is still set aside. */
  lemma CrashLeavesOldOrNew(w: Swap, d: Dirs, fp: string)
    requires Replacing(w, fp) && (w.Forward(d) || w.Handled(d))
    ensures Recover(d, fp) in {None, Load(w.Old(), fp), Load(w.New(), fp)}
    ensures NoOtherCopy(w, fp) ==> (Recover(d, fp).None? <==> w.RollbackCut(d))
    ensures w.RollbackCut(d) ==> w.previous in d && d[w.previous] == w.Old()
    ensures w.Restored(d) ==> Recover(d, fp) == Load(w.Old(), fp)
  {
    hide Load;
    hide IsPrevious;
    hide Needed;
    PreviousIsNotOut(w.previous, fp);
    if w.SetAside(d) || w.Emptied(d) {
      CopiesWhenMissing(w, d, fp);
      OnlyCopy(d, fp, w.previous);
    } else if w.InPlace(d) {
      NeededIsEnough(d[fp], w.New(), fp);
      if Load(d[fp], fp).Some? {
        PartsNeverMix(d[fp], w.New(), fp);
      }
    } else if w.Cleaning(d) || w.Published(d) {
      NeededIsEnough(w.New(), w.New(), fp);
    }
  }

  /** Some state on the way makes the next start refuse. */
  ghost predicate RefusesIn(states: seq<Dirs>, fp: string) {
    exists i :: 0 <= i < |states| && Recover(states[i], fp).None?
  }

  /** MAIN RESULT. A replacement, and a crash at every point of it. With no other valid
      copy, some crash makes the next start refuse if and only if the call right after the
      second rename raises and the handler's deletion, raising or not, takes a needed file;
      every state before the handler recovers. */
  method ReplaceBaseline(fs: FileSystem, stage: string, fp: string, previous: string)
    returns (end: SwapEnd, ghost passed: seq<Dirs>)
    requires Replacing(Swap(fs.dirs, stage, fp, previous), fp) && NoOtherCopy(Swap(fs.dirs, stage, fp, previous), fp)
    modifies fs
    ensures fs.states == old(fs.states) + passed && end == Ending(fs.fails, old(fs.calls))
    ensures RefusesIn(passed, fp) <==> Cuts(fs.fails, fs.losses, old(fs.calls), old(fs.dirs)[stage])
    ensures end != RolledBack && end != RollbackFailed ==> Recover(fs.dirs, fp).Some? && !RefusesIn(passed, fp)
    ensures end == RolledBack ==> Recover(fs.dirs, fp) == Recover(old(fs.dirs), fp)
  {
    hide Load;
    hide IsPrevious;
    hide NoOtherCopy;
    hide Recover;
    hide Needed;
    hide Cuts;
    ghost var w, n := Swap(fs.dirs, stage, fp, previous), fs.calls;
    ghost var forward, handled;
    NeededIsEnough(w.New(), w.New(), fp);
    end, forward, handled := PrivateReplaceDir(fs, stage, fp, previous);
    passed := forward + handled;
    RefusalsAreCuts(w, forward, handled, fp);
    CutsNeedHandler(fs.fails, fs.losses, n, w.New());
    LastStateRecovers(w, fs.dirs, fp, end);
    CrashLeavesOldOrNew(w, w.before, fp);
  }

  lemma CutsNeedHandler(fails: nat -> bool, losses: nat -> seq<FileName>, n: nat, dir: Dir)
    ensures Cuts(fails, losses, n, dir) ==> Ending(fails, n) == RolledBack || Ending(fails, n) == RollbackFailed
  {
  }

  lemma RefusalsAreCuts(w: Swap, forward: seq<Dirs>, handled: seq<Dirs>, fp: string)
    requires Replacing(w, fp) && NoOtherCopy(w, fp) && AllForward(w, forward) && AllHandled(w, handled)
    ensures RefusesIn(forward + handled, fp) <==> CutIn(w, handled)
  {
    hide Load;
    hide Recover;
    hide NoOtherCopy;
    hide Swap.Handled;
    hide Swap.RollbackCut;
    var passed := forward + handled;
    forall i | 0 <= i < |passed|
      ensures i < |forward| ==> Recover(passed[i], fp).Some?
      ensures i >= |forward| ==> (Recover(passed[i], fp).None? <==> w.RollbackCut(passed[i]))
    {
      if i < |forward| {
        assert passed[i] == forward[i];
        ForwardRecovers(w, forward[i], fp);
      } else {
        assert passed[i] == handled[i - |forward|];
        CrashLeavesOldOrNew(w, handled[i - |forward|], fp);
      }
    }
    assert forall i :: 0 <= i < |handled| ==> handled[i] == passed[|forward| + i];
  }

  lemma LastStateRecovers(w: Swap, d: Dirs, fp: string, end: SwapEnd)
    requires Replacing(w, fp) && NoOtherCopy(w, fp)
    requires end == Untouched ==> d == w.before
    requires end == LeftAside ==> w.SetAside(d)
    requires end == CleanupFailed ==> w.Cleaning(d) || w.Published(d)
    requires end == Replaced ==> w.Published(d)
    requires end == RolledBack ==> w.Restored(d)
    ensures end != RolledBack && end != RollbackFailed ==> Recover(d, fp).Some?
    ensures end == RolledBack ==> Recover(d, fp) == Load(w.Old(), fp)
  {
    hide Load;
    hide Recover;
    hide NoOtherCopy;
    if end == RolledBack {
      CrashLeavesOldOrNew(w, d, fp);
    } else if end != RollbackFailed {
      ForwardRecovers(w, d, fp);
    }
  }

  /** Every replacement can be cut: the call after the second rename raises, and the
      handler's deletion raises after taking the manifest. */
  method InterruptedRollback(before: Dirs, stage: string, fp: string, previous: string) returns (fs: FileSystem)
    requires Replacing(Swap(before, stage, fp, previous), fp) && NoOtherCopy(Swap(before, stage, fp, previous), fp)
    ensures fresh(fs)
    ensures fp in fs.dirs && fs.dirs[fp] == before[stage] - {ManifestFile}
    ensures previous in fs.dirs && fs.dirs[previous] == before[fp]
    ensures Recover(fs.dirs, fp).None?
  {
    hide Load;
    hide NoOtherCopy;
    hide IsPrevious;
    hide Recover;
    ghost var w := Swap(before, stage, fp, previous);
    fs := new FileSystem(before, n => n == 4 || n == 5, n => [ManifestFile]);
    NeededIsEnough(w.New(), w.New(), fp);
    var end;
    ghost var forward, handled;
    end, forward, handled := PrivateReplaceDir(fs, stage, fp, previous);
    assert Members([ManifestFile]) == {ManifestFile};
    CrashLeavesOldOrNew(w, fs.dirs, fp);
  }

  /** Every replacement can be left aside: the call between the renames raises, the
      exception does not put the old directory back, and the next start does. */
  method InterruptedSwap(before: Dirs, stage: string, fp: string, previous: string)
    returns (fs: FileSystem, end: SwapEnd)
    requires Replacing(Swap(before, stage, fp, previous), fp) && NoOtherCopy(Swap(before, stage, fp, previous), fp)
    ensures fresh(fs) && end == LeftAside
    ensures fp !in fs.dirs && previous in fs.dirs && fs.dirs[previous] == before[fp]
    ensures Recover(fs.dirs, fp) == Load(before[fp], fp)
  {
    hide Load;
    hide NoOtherCopy;
    hide IsPrevious;
    hide Recover;
    hide Needed;
    ghost var w := Swap(before, stage, fp, previous);
    fs := new FileSystem(before, n => n == 2, n => []);
    ghost var forward, handled;
    end, forward, handled := PrivateReplaceDir(fs, stage, fp, previous);
    PreviousIsNotOut(previous, fp);
    ForwardRecovers(w, fs.dirs, fp);
  }
}
