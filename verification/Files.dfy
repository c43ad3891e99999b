/** Baseline directories, and the file-system calls of `private_io.py` that can be interrupted. */
module Files {
  import opened Bytes

  // ---------------------------------------------------------------- directories and baselines

  datatype FileName = ManifestFile | SectorFile(sector: nat) | RomPage(page: nat)

  /** A manifest; a digest stands for the content it was taken of. */
  datatype Manifest = Manifest(supported: bool, fingerprint: string, digests: map<nat, seq<byte>>)

  datatype Content = Json(manifest: Manifest) | Raw(bytes: seq<byte>)

  type Dir = map<FileName, Content>

  /** The directories below `baselines/`, by name. */
  type Dirs = map<string, Dir>

  datatype Baseline = Baseline(manifest: Manifest, images: map<nat, seq<byte>>)

  predicate SectorMatches(dir: Dir, manifest: Manifest, s: nat) {
    s in manifest.digests && SectorFile(s) in dir &&
    dir[SectorFile(s)] == Raw(manifest.digests[s]) && |manifest.digests[s]| == SECTOR_SIZE
  }

  /** `_load_baseline_for_fingerprint`: the manifest and all sixteen sectors, verified. */
  function Load(dir: Dir, fp: string): Option<Baseline> {
    if ManifestFile !in dir || !dir[ManifestFile].Json? then None
    else
      var manifest := dir[ManifestFile].manifest;
      if !manifest.supported || manifest.fingerprint != fp then None
      else if forall s: nat :: s < SECTOR_COUNT ==> SectorMatches(dir, manifest, s) then
        Some(Baseline(manifest, map s: nat | s < SECTOR_COUNT && s in manifest.digests :: manifest.digests[s]))
      else None
  }

  /** The manifest is a supported one of this unit, and the sixteen sector files hold what it
      says. */
  predicate Verified(dir: Dir, fp: string, b: Baseline) {
    && ManifestFile in dir && dir[ManifestFile] == Json(b.manifest)
    && b.manifest.supported && b.manifest.fingerprint == fp
    && (forall s: nat :: s in b.images ==> s < SECTOR_COUNT)
    && forall s: nat :: s < SECTOR_COUNT ==>
         && s in b.images && |b.images[s]| == SECTOR_SIZE
         && s in b.manifest.digests && b.manifest.digests[s] == b.images[s]
         && SectorFile(s) in dir && dir[SectorFile(s)] == Raw(b.images[s])
  }

  /** A baseline is loaded exactly if the directory verifies, and then it is the one there. */
  lemma LoadMeans(dir: Dir, fp: string, b: Baseline)
    ensures Load(dir, fp) == Some(b) <==> Verified(dir, fp, b)
  {
    if Load(dir, fp).Some? {
      var found := Load(dir, fp).value;
      forall s: nat | s < SECTOR_COUNT
        ensures SectorMatches(dir, found.manifest, s) && s in found.images
        ensures found.images[s] == found.manifest.digests[s]
      {
        assert SectorMatches(dir, dir[ManifestFile].manifest, s);
      }
      assert dir[ManifestFile] == Json(found.manifest);
      assert Verified(dir, fp, found);
    }
    if Verified(dir, fp, b) {
      forall s: nat | s < SECTOR_COUNT
        ensures SectorMatches(dir, b.manifest, s)
      {
        assert s in b.images;
      }
      assert Load(dir, fp).value.images == b.images;
    }
  }

  predicate PartOf(part: Dir, dir: Dir) {
    forall n :: n in part ==> n in dir && part[n] == dir[n]
  }

  /** A directory that lost files either fails to load or still loads as the whole one did. */
  lemma PartsNeverMix(part: Dir, dir: Dir, fp: string)
    requires PartOf(part, dir) && Load(part, fp).Some?
    ensures Load(dir, fp) == Load(part, fp)
  {
    forall s: nat | s < SECTOR_COUNT
      ensures SectorMatches(dir, dir[ManifestFile].manifest, s)
    {
      assert SectorMatches(part, part[ManifestFile].manifest, s);
    }
  }

  /** The manifest and all sixteen sectors are there. */
  predicate Needed(dir: Dir) {
    ManifestFile in dir && forall s: nat :: s < SECTOR_COUNT ==> SectorFile(s) in dir
  }

  /** What is left of a baseline loads exactly if every needed file is still there. */
  lemma NeededIsEnough(part: Dir, dir: Dir, fp: string)
    requires PartOf(part, dir) && Load(dir, fp).Some?
    ensures Load(part, fp).Some? <==> Needed(part)
  {
    if Needed(part) {
      forall s: nat | s < SECTOR_COUNT
        ensures SectorMatches(part, part[ManifestFile].manifest, s)
      {
        assert SectorMatches(dir, dir[ManifestFile].manifest, s);
        assert SectorFile(s) in part;
      }
    }
    if Load(part, fp).Some? {
      forall s: nat | s < SECTOR_COUNT
        ensures SectorFile(s) in part
      {
        assert SectorMatches(part, part[ManifestFile].manifest, s);
      }
    }
  }

  // ---------------------------------------------------------------- the file system

  /** `state` is `dirs` with some files of `name` gone. */
  predicate Losing(state: Dirs, dirs: Dirs, name: string) {
    name in state && name in dirs && PartOf(state[name], dirs[name]) && state == dirs[name := state[name]]
  }

  lemma NothingLost(dirs: Dirs, name: string)
    requires name in dirs
    ensures Losing(dirs, dirs, name)
  {
    assert dirs == dirs[name := dirs[name]];
  }

  lemma LosingMeans(state: Dirs, dirs: Dirs, name: string)
    requires Losing(state, dirs, name)
    ensures name in state && name in dirs && PartOf(state[name], dirs[name]) && state == dirs[name := state[name]]
    ensures state - {name} == dirs - {name}
  {
  }

  lemma OneFileLess(state: Dirs, dirs: Dirs, name: string, file: FileName)
    requires Losing(state, dirs, name) && file in state[name]
    ensures Losing(state[name := state[name] - {file}], dirs, name)
    ensures |state[name] - {file}| < |state[name]|
  {
    var left := state[name] - {file};
    assert left.Keys == state[name].Keys - {file};
    assert state[name := left] == dirs[name := left];
  }

  /** `dirs` without some files of `name`. */
  function Without(dirs: Dirs, name: string, files: set<FileName>): (r: Dirs)
    ensures r.Keys == dirs.Keys && (name in dirs ==> r[name] == dirs[name] - files)
  {
    if name in dirs then dirs[name := dirs[name] - files] else dirs
  }

  function Members(files: seq<FileName>): set<FileName> {
    set f | f in files
  }

  /** Every state recorded from `from` on is `was` with some files of `name` gone, none but
      those of `files`, and the last one is `now` unless nothing is gone. */
  ghost predicate Dwindling(states: seq<Dirs>, from: nat, was: Dirs, now: Dirs, name: string, files: set<FileName>) {
    from <= |states| && (now == was || (from < |states| && states[|states| - 1] == now)) &&
    forall i :: from <= i < |states| ==> Losing(states[i], was, name) && Keeping(states[i], was, name, files)
  }

  /** `state` still has every file of `name` outside `files`. */
  predicate Keeping(state: Dirs, dirs: Dirs, name: string, files: set<FileName>) {
    name in state && name in dirs && forall f :: f in dirs[name] && f !in files ==> f in state[name]
  }

  lemma DwindlesOn(states: seq<Dirs>, from: nat, was: Dirs, now: Dirs, name: string, files: set<FileName>,
                   file: FileName)
    requires Dwindling(states, from, was, now, name, files) && Losing(now, was, name) && Keeping(now, was, name, files)
    requires file in files && file in now[name]
    ensures var next := Without(now, name, {file});
            && Losing(next, was, name) && Keeping(next, was, name, files)
            && |next[name]| < |now[name]| && Dwindling(states + [next], from, was, next, name, files)
  {
    OneFileLess(now, was, name, file);
  }

  datatype Io = Done | Raised

  /** Renames are atomic, deletion is not, and any call may raise. Every intermediate state
      is recorded: a crash can leave any of them behind. What goes wrong is an input: call
      number `n` raises exactly if `fails(n)`, and a deletion takes the files `losses(n)`
      first, in that order, and if it raises it raises after those. */
  class FileSystem {
    const fails: nat -> bool
    const losses: nat -> seq<FileName>
    var dirs: Dirs
    var calls: nat
    ghost var states: seq<Dirs>

    constructor (dirs: Dirs, fails: nat -> bool, losses: nat -> seq<FileName>)
      ensures this.dirs == dirs && this.fails == fails && this.losses == losses && calls == 0 && states == [dirs]
    {
      this.fails, this.losses, this.dirs := fails, losses, dirs;
      calls, states := 0, [dirs];
    }

    /** `os.replace` of a directory onto a free name. */
    method Rename(src: string, dst: string) returns (io: Io)
      requires src in dirs && dst !in dirs
      modifies this
      ensures calls == old(calls) + 1 && (io.Raised? <==> fails(old(calls)))
      ensures io.Done? ==> dirs == old(dirs)[dst := old(dirs)[src]] - {src} && states == old(states) + [dirs]
      ensures io.Raised? ==> dirs == old(dirs) && states == old(states)
    {
      io := if fails(calls) then Raised else Done;
      calls := calls + 1;
      if io.Done? {
        dirs := dirs[dst := dirs[src]] - {src};
        states := states + [dirs];
      }
    }

    /** `chmod` and `fsync`. */
    method Sync() returns (io: Io)
      modifies this`calls
      ensures calls == old(calls) + 1 && (io.Raised? <==> fails(old(calls)))
    {
      io := if fails(calls) then Raised else Done;
      calls := calls + 1;
    }

    /** The files a deletion takes first. */
    method RemoveFiles(name: string, order: seq<FileName>)
      requires name in dirs
      modifies this`dirs, this`states
      ensures dirs == Without(old(dirs), name, Members(order)) && old(states) <= states
      ensures Dwindling(states, |old(states)|, old(dirs), dirs, name, Members(order))
    {
      hide Losing;
      hide Dwindling;
      hide Keeping;
      hide Without;
      hide Members;
      hide Taken;
      ghost var was, from := dirs, |states|;
      NothingDwindled(states, was, name, Members(order));
      assert order[..0] == [];
      var k := 0;
      while k < |order|
        invariant 0 <= k <= |order| && name in dirs && old(states) <= states
        invariant Taken(dirs, was, name, order[..k])
        invariant Losing(dirs, was, name) && Keeping(dirs, was, name, Members(order))
        invariant Dwindling(states, from, was, dirs, name, Members(order))
      {
        OneMoreTaken(dirs, was, name, order, k);
        if order[k] in dirs[name] {
          DwindlesOn(states, from, was, dirs, name, Members(order), order[k]);
          dirs := Without(dirs, name, {order[k]});
          states := states + [dirs];
        }
        k := k + 1;
      }
      assert order[..k] == order;
      TakenMeans(dirs, was, name, order);
    }

    /** The files that are left, in any order. */
    method RemoveRest(name: string, ghost was: Dirs, ghost from: nat)
      requires name in dirs && name in was && Losing(dirs, was, name)
      requires Dwindling(states, from, was, dirs, name, was[name].Keys)
      modifies this`dirs, this`states
      ensures dirs == Without(was, name, was[name].Keys) && old(states) <= states
      ensures Dwindling(states, from, was, dirs, name, was[name].Keys)
    {
      hide Losing;
      hide Dwindling;
      while dirs[name] != map[]
        invariant name in dirs && old(states) <= states && Losing(dirs, was, name)
        invariant Dwindling(states, from, was, dirs, name, was[name].Keys)
        decreases |dirs[name]|
      {
        var file :| file in dirs[name];
        LosingMeans(dirs, was, name);
        DwindlesOn(states, from, was, dirs, name, was[name].Keys, file);
        dirs := Without(dirs, name, {file});
        states := states + [dirs];
      }
      LosingMeans(dirs, was, name);
      assert was[name] - was[name].Keys == map[];
    }

    /** `shutil.rmtree`: files go one at a time, then the directory. */
    method RemoveTree(name: string) returns (io: Io)
      requires name in dirs
      modifies this
      ensures calls == old(calls) + 1 && (io.Raised? <==> fails(old(calls)))
      ensures old(states) <= states
      ensures io.Raised? ==> dirs == Without(old(dirs), name, Members(losses(old(calls))))
      ensures io.Raised? ==> Dwindling(states, |old(states)|, old(dirs), dirs, name, Members(losses(old(calls))))
      ensures io.Done? ==>
                var emptied := Without(old(dirs), name, old(dirs)[name].Keys);
                && dirs == old(dirs) - {name} && |states| > |old(states)| && states[|states| - 1] == dirs
                && Dwindling(states[..|states| - 1], |old(states)|, old(dirs), emptied, name, old(dirs)[name].Keys)
    {
      hide Losing;
      hide Dwindling;
      ghost var was, from := dirs, |states|;
      var raises, order := fails(calls), losses(calls);
      calls := calls + 1;
      RemoveFiles(name, order);
      if raises {
        return Raised;
      }
      DwindlesWider(states, from, was, dirs, name, Members(order));
      RemoveRest(name, was, from);
      ghost var before := states;
      dirs := dirs - {name};
      states := states + [dirs];
      assert states[..|states| - 1] == before;
      return Done;
    }
  }

  lemma NothingDwindled(states: seq<Dirs>, was: Dirs, name: string, files: set<FileName>)
    requires name in was
    ensures Dwindling(states, |states|, was, was, name, files)
    ensures Losing(was, was, name) && Keeping(was, was, name, files)
    ensures Taken(was, was, name, [])
  {
    NothingLost(was, name);
    assert Members([]) == {} && was[name] - {} == was[name];
    assert was == was[name := was[name]];
  }

  /** `now` is `was` without the files of `order`. */
  ghost predicate Taken(now: Dirs, was: Dirs, name: string, order: seq<FileName>) {
    now == Without(was, name, Members(order))
  }

  lemma TakenMeans(now: Dirs, was: Dirs, name: string, order: seq<FileName>)
    requires Taken(now, was, name, order)
    ensures now == Without(was, name, Members(order))
  {
  }

  lemma OneMoreTaken(now: Dirs, was: Dirs, name: string, order: seq<FileName>, k: nat)
    requires name in was && k < |order| && Taken(now, was, name, order[..k])
    ensures order[k] in Members(order)
    ensures name in now
    ensures Taken(if order[k] in now[name] then Without(now, name, {order[k]}) else now, was, name, order[..k + 1])
  {
    assert order[..k + 1] == order[..k] + [order[k]];
    assert Members(order[..k + 1]) == Members(order[..k]) + {order[k]};
    hide Members;
    assert was[name] - (Members(order[..k]) + {order[k]}) == now[name] - {order[k]};
    if order[k] !in now[name] {
      assert now[name] - {order[k]} == now[name];
    }
  }

  lemma DwindlesWider(states: seq<Dirs>, from: nat, was: Dirs, now: Dirs, name: string, files: set<FileName>)
    requires name in was && now == Without(was, name, files) && Dwindling(states, from, was, now, name, files)
    ensures Dwindling(states, from, was, now, name, was[name].Keys) && Losing(now, was, name)
  {
  }
}
