/** The mouse as seen through `call_feature`, and the reconciled sector write on top of it. */
module Device {
  import opened Bytes

  type Page = s: seq<byte> | |s| == SECTOR_SIZE witness seq(SECTOR_SIZE, _ => 0)

  type Memory = seq<Page>

  /** Every `raise`. All but `Other` are a `RuntimeError`. */
  datatype Failure = Runtime | Other | Refused | Unchanged | Indeterminate | Cancelled

  /** How one attempt at a write ended. */
  datatype Tried = Done | Caught(before: Page) | Escaped(failure: Failure)

  /** One `write_sector` call: what its sector held before and after it, and how it ended. */
  datatype Attempt = Attempt(sector: nat, before: Page, after: Page, end: Result<(), Failure>)

  /** A write that failed and left its sector as it was. */
  predicate LeftAsBefore(a: Attempt) {
    a.end == Err(Runtime) && a.after == a.before
  }

  /** Writes are tried only on a sector that still holds what it held and not the target,
      and only as long as each attempt before left it so. */
  predicate Retried(made: seq<Attempt>, sector: nat, former: Page, target: seq<byte>, attempts: nat) {
    |made| <= attempts &&
    (forall i :: 0 <= i < |made| ==> made[i].sector == sector && made[i].before == former && former != target) &&
    forall i :: 0 <= i < |made| - 1 ==> LeftAsBefore(made[i])
  }

  /** How the attempts decide: a write that came through, seen by its own readback or by the
      one after it, is a success; a sector as it was is tried again until no attempt is left;
      anything else is indeterminate. */
  predicate Decided(made: seq<Attempt>, former: Page, target: seq<byte>, attempts: nat, r: Result<(), Failure>) {
    if made == [] then r.Ok? && (attempts == 0 || former == target)
    else
      var last := made[|made| - 1];
      match last.end
      case Ok(_) => r.Ok?
      case Err(f) =>
        if last.after == target then r.Ok?
        else if last.after == former then r == Err(Unchanged) && |made| == attempts
        else r == Err(Indeterminate)
  }

  /** What a device call can raise. */
  predicate Raised(f: Failure) {
    f == Runtime || f == Other
  }

  const PROGRAMMABLE: set<nat> := {0, 2, 3, 4, 5, 8, 9, 10, 11, 12, 13, 14, 15}
  const RECOVERY: set<nat> := {1, 6, 7}

  /** One WRITE_START, WRITE_DATA or WRITE_END call: the stage of the transaction it
      belongs to, the sector it addresses and the memory before and after it. */
  datatype Event = Event(stage: nat, sector: nat, before: Memory, after: Memory)

  predicate SameExcept(a: Memory, b: Memory, sector: nat) {
    |a| == |b| && forall s :: 0 <= s < |a| && s != sector ==> a[s] == b[s]
  }

  predicate Confined(e: Event) {
    SameExcept(e.before, e.after, e.sector)
  }

  /** The calls in `h` take the memory from `first` to `last` with nothing in between. */
  predicate Chain(h: seq<Event>, first: Memory, last: Memory) {
    if h == [] then first == last else
      h[|h| - 1].after == last && Chain(h[..|h| - 1], first, h[|h| - 1].before)
  }

  predicate AllIn(h: seq<Event>, stage: nat, sector: nat) {
    forall e :: e in h ==> e.stage == stage && e.sector == sector && Confined(e)
  }

  lemma {:induction false} ChainConcat(a: seq<Event>, b: seq<Event>, x: Memory, y: Memory, z: Memory)
    requires Chain(a, x, y) && Chain(b, y, z)
    ensures Chain(a + b, x, z)
  {
    if b == [] {
      assert a + b == a;
    } else {
      ChainConcat(a, b[..|b| - 1], x, y, b[|b| - 1].before);
      assert (a + b)[..|a + b| - 1] == a + b[..|b| - 1];
    }
  }

  /** Every write call made since the record was `h` and the memory `m` belongs to `stage`
      and addresses `sector`, and they alone lead to the memory now. */
  ghost predicate Since(h: seq<Event>, m: Memory, history: seq<Event>, now: Memory, stage: nat, sector: nat) {
    h <= history && AllIn(history[|h|..], stage, sector) && Chain(history[|h|..], m, now) && SameExcept(m, now, sector)
  }

  lemma OneMore(h: seq<Event>, m: Memory, history: seq<Event>, e: Event)
    requires Since(h, m, history, e.before, e.stage, e.sector) && Confined(e)
    ensures Since(h, m, history + [e], e.after, e.stage, e.sector)
  {
    var more := history + [e];
    assert more[|h|..] == history[|h|..] + [e];
    assert more[|h|..][..|more[|h|..]| - 1] == history[|h|..];
  }

  lemma SinceThen(h: seq<Event>, m: Memory, h1: seq<Event>, m1: Memory, h2: seq<Event>, m2: Memory, stage: nat,
                  sector: nat)
    requires Since(h, m, h1, m1, stage, sector) && Since(h1, m1, h2, m2, stage, sector)
    ensures Since(h, m, h2, m2, stage, sector)
  {
    assert h2[|h|..] == h1[|h|..] + h2[|h1|..];
    ChainConcat(h1[|h|..], h2[|h1|..], m, m1, m2);
  }

  lemma NoAttempt(sector: nat, former: Page, target: seq<byte>, attempts: nat)
    ensures Retried([], sector, former, target, attempts)
    ensures attempts == 0 || former == target ==> Decided([], former, target, attempts, Ok(()))
  {
  }

  /** One more attempt on a sector the earlier ones left as it was, and what it decides. */
  lemma OneAttempt(made: seq<Attempt>, a: Attempt, sector: nat, former: Page, target: seq<byte>, attempts: nat)
    requires Retried(made, sector, former, target, attempts) && |made| < attempts
    requires made != [] ==> LeftAsBefore(made[|made| - 1])
    requires a.sector == sector && a.before == former && former != target
    ensures Retried(made + [a], sector, former, target, attempts)
    ensures a.end.Ok? || (a.end == Err(Runtime) && a.after == target) ==>
              Decided(made + [a], former, target, attempts, Ok(()))
    ensures a.end == Err(Runtime) && a.after != target && a.after != former ==>
              Decided(made + [a], former, target, attempts, Err(Indeterminate))
    ensures a.end == Err(Runtime) && a.after == former && |made| + 1 == attempts ==>
              Decided(made + [a], former, target, attempts, Err(Unchanged))
    ensures a.end == Err(Runtime) && a.after == former ==> LeftAsBefore(a)
  {
  }

  lemma UnchangedSince(h: seq<Event>, m: Memory, h1: seq<Event>, m1: Memory, stage: nat, sector: nat)
    requires Since(h, m, h1, m1, stage, sector) && sector < |m| == |m1| && m[sector] == m1[sector]
    ensures m == m1
  {
  }

  lemma NothingSince(h: seq<Event>, m: Memory, stage: nat, sector: nat)
    ensures Since(h, m, h, m, stage, sector)
  {
    assert h[|h|..] == [];
  }

  /** The memory the device holds, the transfer it is receiving, and a ghost record of
      every call that can write.

      A device that is not `reliable` may fail any call with any exception, answer
      nothing, drop a write, commit part of it or commit it without an answer; a write
      call touches only the sector it addresses, and a read that answers is honest. */
  class Mouse {
    const reliable: bool
    const factory: nat -> Page
    var sectors: Memory
    var addressed: nat
    var received: seq<byte>
    ghost var history: seq<Event>
    ghost var starts: nat
    /** The host was found clear of other writers since the last write began. */
    ghost var guarded: bool
    /** A connection to the expected unit is open. Whoever cannot tell has to connect. */
    ghost var connected: bool
    /** Every `write_sector` call. */
    ghost var writes: seq<Attempt>
    /** Failed calls that nobody catches: any that raises outside a `write_sector`, and any
        `write_sector` that ends with something other than a `RuntimeError`. */
    ghost var strays: nat

    ghost predicate Valid()
      reads this
    {
      |sectors| == SECTOR_COUNT && addressed < SECTOR_COUNT
    }

    ghost function PageAt(page: nat): Page
      requires Valid()
      reads this
    {
      if page < SECTOR_COUNT then sectors[page] else factory(page)
    }

    constructor (reliable: bool, memory: Memory, factory: nat -> Page)
      requires |memory| == SECTOR_COUNT
      ensures Valid() && sectors == memory && this.reliable == reliable && history == [] && starts == 0
    {
      this.reliable, this.factory, sectors := reliable, factory, memory;
      addressed, received, history, starts, guarded, connected, writes, strays :=
        0, [], [], 0, false, false, [], 0;
    }

    // -------------------------------------------------------------- the feature calls

    /** Checking the host or the identity, or closing: no memory is touched. */
    method Ask() returns (r: Result<(), Failure>)
      modifies this`strays
      ensures r.Err? ==> Raised(r.error)
      ensures strays == old(strays) + if r.Err? then 1 else 0
      ensures reliable ==> r.Ok?
    {
      r := Ok(());
      if !reliable {
        if * {
          r := Raise();
          strays := strays + 1;
        }
      }
    }

    /** `connect_manifest_unit`. */
    method Connect() returns (r: Result<(), Failure>)
      modifies this`strays, this`connected
      ensures r.Err? ==> Raised(r.error)
      ensures strays == old(strays) + if r.Err? then 1 else 0
      ensures r.Ok? ==> connected
      ensures reliable ==> r.Ok?
    {
      r := Ask();
      connected := r.Ok?;
    }

    /** `require_ghub_closed`. */
    method RequireHostClear() returns (r: Result<(), Failure>)
      modifies this`guarded, this`strays
      ensures r.Err? ==> Raised(r.error)
      ensures strays == old(strays) + if r.Err? then 1 else 0
      ensures r.Ok? ==> guarded
      ensures reliable ==> r.Ok?
    {
      r := Ask();
      guarded := r.Ok?;
    }

    /** A call that raises, with any kind of exception. */
    method Raise<T>() returns (r: Result<T, Failure>)
      ensures r.Err? && Raised(r.error)
    {
      r := Err(Runtime);
      if * {
        r := Err(Other);
      }
    }

    /** Feature 5 without its four header bytes. */
    method ReadCall(page: nat, offset: nat) returns (r: Result<Option<seq<byte>>, Failure>)
      requires Valid() && connected && offset + 16 <= SECTOR_SIZE
      ensures r.Err? ==> Raised(r.error)
      ensures r.Ok? && r.value.Some? && |r.value.value| == 16 ==> r.value.value == PageAt(page)[offset..offset + 16]
      ensures reliable ==> r.Ok? && r.value.Some? && |r.value.value| == 16
    {
      var memory := if page < SECTOR_COUNT then sectors[page] else factory(page);
      r := Ok(Some(memory[offset..offset + 16]));
      if !reliable {
        if * {
          r := Raise();
        } else if * {
          r := Ok(None);
        } else {
          var other: seq<byte> := *;
          if |other| != 16 {
            r := Ok(Some(other));
          }
        }
      }
    }

    /** What a faulty device may do to the addressed sector, and how it may answer. */
    method Disturb(ghost stage: nat) returns (r: Result<Option<()>, Failure>)
      requires Valid() && connected
      modifies this`sectors, this`history
      ensures r.Err? ==> Raised(r.error)
      ensures Valid() && SameExcept(old(sectors), sectors, addressed)
      ensures history == old(history) + [Event(stage, addressed, old(sectors), sectors)]
      ensures reliable ==> r == Ok(Some(())) && sectors == old(sectors)
    {
      ghost var before := sectors;
      r := Ok(Some(()));
      if !reliable {
        if * {
          var anything: Page := *;
          sectors := sectors[addressed := anything];
        }
        if * {
          r := Ok(None);
        } else if * {
          r := Raise();
        }
      }
      history := history + [Event(stage, addressed, before, sectors)];
    }

    /** Feature 6. Never called unless the host was checked since the write before. */
    method WriteStart(sector: nat, ghost stage: nat) returns (r: Result<Option<()>, Failure>)
      requires Valid() && connected && sector < SECTOR_COUNT && guarded
      modifies this
      ensures r.Err? ==> Raised(r.error)
      ensures Valid() && connected && SameExcept(old(sectors), sectors, sector) && addressed == sector
      ensures history == old(history) + [Event(stage, sector, old(sectors), sectors)]
      ensures starts == old(starts) + 1 && !guarded
      ensures reliable ==> r == Ok(Some(())) && sectors == old(sectors) && received == []
    {
      addressed, received, starts, guarded := sector, [], starts + 1, false;
      r := Disturb(stage);
    }

    /** Feature 7. */
    method WriteData(chunk: seq<byte>, ghost stage: nat) returns (r: Result<Option<()>, Failure>)
      requires Valid() && connected
      modifies this`sectors, this`history, this`received
      ensures r.Err? ==> Raised(r.error)
      ensures Valid() && SameExcept(old(sectors), sectors, addressed)
      ensures history == old(history) + [Event(stage, addressed, old(sectors), sectors)]
      ensures reliable ==> r == Ok(Some(())) && sectors == old(sectors) && received == old(received) + chunk
    {
      received := received + chunk;
      r := Disturb(stage);
    }

    /** Feature 8: a reliable device commits the first 255 bytes it received. */
    method WriteEnd(ghost stage: nat) returns (r: Result<Option<()>, Failure>)
      requires Valid() && connected
      modifies this`sectors, this`history
      ensures r.Err? ==> Raised(r.error)
      ensures Valid() && SameExcept(old(sectors), sectors, addressed)
      ensures history == old(history) + [Event(stage, addressed, old(sectors), sectors)]
      ensures reliable && |received| >= SECTOR_SIZE ==> r.Ok? && sectors[addressed] == received[..SECTOR_SIZE]
    {
      ghost var before := sectors;
      r := Disturb(stage);
      var commits := reliable;
      if !reliable {
        commits := *;
      }
      if commits && |received| >= SECTOR_SIZE {
        sectors := sectors[addressed := received[..SECTOR_SIZE]];
      }
      history := history[..|history| - 1] + [Event(stage, addressed, before, sectors)];
    }

    // -------------------------------------------------------------- reading

    /** `read_page`: exactly the first `size` bytes, although the last read overlaps the
        one before it. */
    method ReadPage(page: int, size: int) returns (r: Result<seq<byte>, Failure>)
      requires Valid() && connected
      ensures r.Err? ==> Raised(r.error)
      ensures r.Ok? ==> 0 <= page <= 0xFFFF && 16 <= size <= SECTOR_SIZE && r.value == PageAt(page)[..size]
      ensures !(0 <= page <= 0xFFFF && 16 <= size <= SECTOR_SIZE) ==> r == Err(Other)
      ensures reliable && 0 <= page <= 0xFFFF && 16 <= size <= SECTOR_SIZE ==> r.Ok?
    {
      if !(0 <= page <= 0xFFFF) || !(16 <= size <= SECTOR_SIZE) {
        return Err(Other);
      }
      var data := new byte[size](_ => 0);
      var offset := 0;
      var seen: set<int> := {};
      while offset < size
        invariant 0 <= offset < size && offset % 16 == 0
        invariant forall o :: o in seen ==> o % 16 == 0 && o < offset
        invariant data[..offset] == PageAt(page)[..offset]
        decreases size - offset
      {
        var at := if size - offset < 16 then size - 16 else offset;
        assert at !in seen;
        if at in seen {
          break;
        }
        seen := seen + {at};
        var answer :- ReadCall(page, at);
        if answer.None? {
          return Err(Runtime);
        }
        var chunk := answer.value;
        if |chunk| != 16 {
          return Err(Runtime);
        }
        forall i | 0 <= i < 16 {
          data[at + i] := chunk[i];
        }
        assert data[..at + 16] == PageAt(page)[..at + 16];
        if at + 16 >= size {
          return Ok(data[..]);
        }
        offset := at + 16;
      }
    }

    /** `read_sector`. */
    method ReadSector(sector: int) returns (r: Result<Page, Failure>)
      requires Valid() && connected
      modifies this`strays
      ensures r.Err? ==> Raised(r.error)
      ensures strays == old(strays) + if r.Err? then 1 else 0
      ensures r.Ok? ==> 0 <= sector < SECTOR_COUNT && r.value == sectors[sector]
      ensures !(0 <= sector < SECTOR_COUNT) ==> r == Err(Other)
      ensures reliable && 0 <= sector < SECTOR_COUNT ==> r.Ok?
    {
      if !(0 <= sector < SECTOR_COUNT) {
        strays := strays + 1;
        return Err(Other);
      }
      var data := ReadPage(sector, SECTOR_SIZE);
      if data.Err? {
        strays := strays + 1;
        return Err(data.error);
      }
      return Ok(data.value);
    }

    // -------------------------------------------------------------- writing

    /** `write_sector`; what fails inside it is its own failure. */
    method WriteSector(sector: nat, data: seq<byte>, ghost stage: nat) returns (r: Result<(), Failure>)
      requires Valid() && connected && sector < SECTOR_COUNT && guarded
      modifies this
      ensures Valid() && Since(old(history), old(sectors), history, sectors, stage, sector)
      ensures |data| != SECTOR_SIZE ==> r == Err(Other) && history == old(history) && sectors == old(sectors)
      ensures starts == if |data| == SECTOR_SIZE then old(starts) + 1 else old(starts)
      ensures r.Ok? ==> sectors[sector] == data
      ensures r.Err? ==> Raised(r.error)
      ensures writes == old(writes) + [Attempt(sector, old(sectors)[sector], sectors[sector], r)]
      ensures strays == old(strays) + if r == Err(Other) then 1 else 0
      ensures reliable && |data| == SECTOR_SIZE ==> r.Ok?
    {
      hide Since;
      hide SameExcept;
      r := TransferAndCheck(sector, data, stage);
      writes := old(writes) + [Attempt(sector, old(sectors)[sector], sectors[sector], r)];
      strays := old(strays) + if r == Err(Other) then 1 else 0;
    }

    /** Sixteen padded chunks, then a full readback. */
    method TransferAndCheck(sector: nat, data: seq<byte>, ghost stage: nat) returns (r: Result<(), Failure>)
      requires Valid() && connected && sector < SECTOR_COUNT && guarded
      modifies this
      ensures Valid() && Since(old(history), old(sectors), history, sectors, stage, sector)
      ensures |data| != SECTOR_SIZE ==> r == Err(Other) && history == old(history) && sectors == old(sectors)
      ensures starts == if |data| == SECTOR_SIZE then old(starts) + 1 else old(starts)
      ensures r.Ok? ==> sectors[sector] == data
      ensures r.Err? ==> Raised(r.error)
      ensures reliable && |data| == SECTOR_SIZE ==> r.Ok?
    {
      hide Since;
      hide SameExcept;
      NothingSince(history, sectors, stage, sector);
      if |data| != SECTOR_SIZE {
        return Err(Other);
      }
      var start := WriteStart(sector, stage);
      OneMore(old(history), old(sectors), old(history), history[|old(history)|]);
      if start.Err? {
        return Err(start.error);
      }
      if start.value.None? {
        return Err(Runtime);
      }
      var k := 0;
      while k < 16
        invariant 0 <= k <= 16 && Valid() && connected && addressed == sector && starts == old(starts) + 1
        invariant Since(old(history), old(sectors), history, sectors, stage, sector)
        invariant reliable ==> sectors == old(sectors)
        invariant reliable ==> received == if k < 16 then data[..16 * k] else data + [0xFF]
      {
        var chunk := if k < 15 then data[16 * k..16 * k + 16] else data[16 * k..];
        if |chunk| < 16 {
          chunk := chunk + seq(16 - |chunk|, _ => 0xFF);
        }
        ghost var before := history;
        var answer := WriteData(chunk, stage);
        OneMore(old(history), old(sectors), before, history[|before|]);
        if answer.Err? {
          return Err(answer.error);
        }
        if answer.value.None? {
          return Err(Runtime);
        }
        k := k + 1;
      }
      ghost var before := history;
      var end := WriteEnd(stage);
      OneMore(old(history), old(sectors), before, history[|before|]);
      if end.Err? {
        return Err(end.error);
      }
      var readback := ReadSector(sector);
      if readback.Err? {
        return Err(readback.error);
      }
      if readback.value != data {
        return Err(Runtime);
      }
      return Ok(());
    }

    // -------------------------------------------------------------- the reconciled write

    /** One attempt, up to the exception it catches. */
    method TryOnce(sector: nat, target: seq<byte>, ghost stage: nat) returns (r: Tried)
      requires Valid() && sector < SECTOR_COUNT
      modifies this
      ensures Valid() && Since(old(history), old(sectors), history, sectors, stage, sector)
      ensures old(starts) <= starts <= old(starts) + 1
      ensures r.Done? ==> sectors[sector] == target
      ensures r.Caught? ==> r.before == old(sectors)[sector] && r.before != target && starts == old(starts) + 1
      ensures r.Escaped? ==> Raised(r.failure)
      ensures strays == old(strays) + if r.Escaped? then 1 else 0
      ensures old(sectors)[sector] == target ==> writes == old(writes)
      ensures r.Done? && old(sectors)[sector] != target ==>
                writes == old(writes) + [Attempt(sector, old(sectors)[sector], sectors[sector], Ok(()))]
      ensures r.Caught? ==>
                writes == old(writes) + [Attempt(sector, old(sectors)[sector], sectors[sector], Err(Runtime))]
      ensures r.Escaped? && writes != old(writes) ==>
                old(sectors)[sector] != target &&
                writes == old(writes) + [Attempt(sector, old(sectors)[sector], sectors[sector], Err(Other))]
      ensures old(sectors)[sector] == target ==> !r.Caught? && history == old(history) && starts == old(starts)
      ensures reliable && |target| == SECTOR_SIZE ==> r.Done?
    {
      hide Since;
      hide SameExcept;
      NothingSince(history, sectors, stage, sector);
      var closed := RequireHostClear();
      if closed.Err? {
        return Escaped(closed.error);
      }
      var connection := Connect();
      if connection.Err? {
        return Escaped(connection.error);
      }
      var before := ReadSector(sector);
      if before.Err? {
        return Escaped(before.error);
      }
      if before.value == target {
        return Done;
      }
      closed := RequireHostClear();
      if closed.Err? {
        return Escaped(closed.error);
      }
      var written := WriteSector(sector, target, stage);
      if written.Ok? {
        assert written.value == ();
        return Done;
      }
      if written.error == Other {
        return Escaped(Other);
      }
      return Caught(before.value);
    }

    /** `_fresh_read_sector`. */
    method FreshReadSector(sector: nat) returns (r: Result<Page, Failure>)
      requires Valid() && sector < SECTOR_COUNT
      modifies this`strays, this`connected
      ensures r.Err? ==> Raised(r.error)
      ensures strays == old(strays) + if r.Err? then 1 else 0
      ensures r.Ok? ==> r.value == sectors[sector]
      ensures reliable ==> r.Ok?
    {
      var connection := Connect();
      if connection.Err? {
        return Err(connection.error);
      }
      r := ReadSector(sector);
    }

    /** The attempts of `fresh_write_sector`: write, and on a failure read back over a fresh
        connection to learn what the device really holds. */
    method WriteWithRetries(sector: nat, target: seq<byte>, attempts: nat, ghost stage: nat)
      returns (r: Result<(), Failure>, ghost made: seq<Attempt>)
      requires Valid() && sector < SECTOR_COUNT
      modifies this
      ensures Valid() && Since(old(history), old(sectors), history, sectors, stage, sector)
      ensures old(starts) <= starts <= old(starts) + attempts
      ensures r.Ok? && attempts >= 1 ==> sectors[sector] == target
      ensures r.Ok? && attempts == 0 ==> history == old(history) && starts == old(starts)
      ensures r == Err(Unchanged) ==> sectors == old(sectors) && starts == old(starts) + attempts
      ensures r == Err(Indeterminate) ==> sectors[sector] != target && sectors[sector] != old(sectors)[sector]
      ensures r.Ok? || Raised(r.error) || r.error in {Unchanged, Indeterminate}
      ensures old(sectors)[sector] == target ==> history == old(history) && starts == old(starts)
      // Only what nobody catches ends the call early; otherwise the writes made and what
      // they left in the sector decide it.
      ensures old(strays) <= strays <= old(strays) + 1 && (r.Err? && Raised(r.error) <==> strays > old(strays))
      ensures writes == old(writes) + made && Retried(made, sector, old(sectors)[sector], target, attempts)
      ensures strays > old(strays) || Decided(made, old(sectors)[sector], target, attempts, r)
      ensures reliable && |target| == SECTOR_SIZE ==> r.Ok?
    {
      hide Since;
      hide Retried;
      hide Decided;
      hide SameExcept;
      made := [];
      NothingSince(history, sectors, stage, sector);
      var attempt := 1;
      NoAttempt(sector, sectors[sector], target, attempts);
      while attempt <= attempts
        invariant 1 <= attempt <= attempts + 1 && Valid()
        invariant Since(old(history), old(sectors), history, sectors, stage, sector)
        invariant sectors == old(sectors) && starts == old(starts) + attempt - 1
        invariant attempt == 1 ==> history == old(history)
        invariant attempt > 1 ==> attempt <= attempts && old(sectors)[sector] != target
        invariant strays == old(strays) && writes == old(writes) + made && |made| == attempt - 1
        invariant Retried(made, sector, old(sectors)[sector], target, attempts)
        invariant attempt > 1 ==> LeftAsBefore(made[|made| - 1])
        invariant reliable && |target| == SECTOR_SIZE ==> attempt == 1
      {
        ghost var h, m, w := history, sectors, writes;
        var tried := TryOnce(sector, target, stage);
        SinceThen(old(history), old(sectors), h, m, history, sectors, stage, sector);
        if writes != w {
          OneAttempt(made, writes[|w|], sector, m[sector], target, attempts);
          made := made + [writes[|w|]];
        }
        match tried {
          case Done =>
            r := Ok(());
            return;
          case Escaped(f) =>
            r := Err(f);
            return;
          case Caught(before) =>
            var observed := FreshReadSector(sector);
            if observed.Err? {
              r := Err(observed.error);
              return;
            }
            if observed.value == target {
              r := Ok(());
              return;
            }
            if observed.value != before {
              r := Err(Indeterminate);
              return;
            }
            UnchangedSince(h, m, history, sectors, stage, sector);
            if attempt == attempts {
              r := Err(Unchanged);
              return;
            }
        }
        attempt := attempt + 1;
      }
      r := Ok(());
    }

    /** `fresh_write_sector`: only managed sectors, and only if the baseline allows writes. */
    method FreshWriteSector(sector: nat, target: seq<byte>, attempts: nat, writeAllowed: bool, ghost stage: nat)
      returns (r: Result<(), Failure>, ghost made: seq<Attempt>)
      requires Valid()
      modifies this
      ensures Valid() && Since(old(history), old(sectors), history, sectors, stage, sector)
      ensures old(starts) <= starts <= old(starts) + attempts
      ensures r == Err(Refused) <==> sector !in PROGRAMMABLE || !writeAllowed
      ensures r == Err(Refused) ==> history == old(history) && starts == old(starts)
      ensures r.Ok? && attempts >= 1 ==> sectors[sector] == target
      ensures r.Ok? && attempts == 0 ==> history == old(history) && starts == old(starts)
      ensures r == Err(Unchanged) ==> sectors == old(sectors) && starts == old(starts) + attempts
      ensures r == Err(Indeterminate) ==> sectors[sector] != target && sectors[sector] != old(sectors)[sector]
      ensures r != Err(Cancelled)
      ensures sector in PROGRAMMABLE && old(sectors)[sector] == target ==>
                history == old(history) && starts == old(starts)
      ensures old(strays) <= strays <= old(strays) + 1 && (r.Err? && Raised(r.error) <==> strays > old(strays))
      ensures writes == old(writes) + made
      ensures r == Err(Refused) || Retried(made, sector, old(sectors)[sector], target, attempts)
      ensures r == Err(Refused) || strays > old(strays) ||
              Decided(made, old(sectors)[sector], target, attempts, r)
      ensures reliable && |target| == SECTOR_SIZE && sector in PROGRAMMABLE && writeAllowed ==> r.Ok?
    {
      hide Since;
      hide Retried;
      hide Decided;
      hide SameExcept;
      made := [];
      NothingSince(history, sectors, stage, sector);
      if sector in RECOVERY {
        r := Err(Refused);
        return;
      }
      if sector !in PROGRAMMABLE {
        r := Err(Refused);
        return;
      }
      if !writeAllowed {
        r := Err(Refused);
        return;
      }
      r, made := WriteWithRetries(sector, target, attempts, stage);
    }
  }
}
