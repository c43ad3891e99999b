/** The shared macro store: eight pages, fragments on them, and what it means for a
    macro to be placed there. */
module Store {
  import opened Bytes
  import opened Macro

  /** `GLOBAL_MACRO_SECTORS`: sectors 8 to 15, page index `k` being sector `8 + k`. */
  const FIRST_SECTOR: nat := 8
  const STORE_PAGES: nat := 8
  const GLOBAL_PAYLOAD_CAPACITY: nat := STORE_PAGES * PAGE_DATA_SIZE

  type Images = p: seq<seq<byte>> | |p| == 8 && forall k :: 0 <= k < 8 ==> |p[k]| == 255
    witness seq(8, i => seq(255, j => 0))

  datatype Fragment = Fragment(sector: nat, offset: nat, end: nat, jump: Option<(nat, nat)>)

  datatype Allocation = Allocation(sector: nat, offset: nat, sourceLength: nat, fragments: seq<Fragment>)

  /** `jump_bytes`: the opcode and two big-endian words. */
  function JumpBytes(sector: nat, offset: nat): (r: seq<byte>)
    ensures |r| == 5
  {
    [OP_JUMP, sector / 256 % 256, sector % 256, offset / 256 % 256, offset % 256]
  }

  predicate Shaped(f: Fragment) {
    FIRST_SECTOR <= f.sector < FIRST_SECTOR + STORE_PAGES && f.end <= PAGE_DATA_SIZE &&
    match f.jump
    case None => f.offset < f.end
    case Some(t) => f.offset + 5 < f.end && t == (f.sector + 1, 0) && f.sector + 1 < FIRST_SECTOR + STORE_PAGES
  }

  function PayloadEnd(f: Fragment): int {
    if f.jump.Some? then f.end - 5 else f.end
  }

  /** The macro bytes a fragment holds, without its JUMP. */
  function Payload(images: Images, f: Fragment): (r: seq<byte>)
    ensures Shaped(f) ==> r != []
  {
    if Shaped(f) then images[f.sector - FIRST_SECTOR][f.offset..PayloadEnd(f)] else []
  }

  predicate Written(images: Images, f: Fragment) {
    Shaped(f) &&
    Split(Payload(images, f)).Ok? &&
    (f.jump.Some? ==>
       images[f.sector - FIRST_SECTOR][f.end - 5..f.end] == JumpBytes(f.jump.value.0, f.jump.value.1))
  }

  predicate AllWritten(images: Images, fs: seq<Fragment>) {
    forall i :: 0 <= i < |fs| ==> Written(images, fs[i])
  }

  /** Consecutive fragments are joined by a JUMP to the start of the next page. */
  predicate Linked(fs: seq<Fragment>) {
    forall i :: 0 <= i < |fs| - 1 ==> LinkedAt(fs, i)
  }

  predicate LinkedAt(fs: seq<Fragment>, i: int) {
    0 <= i < |fs| - 1 &&
    fs[i].jump == Some((fs[i + 1].sector, 0)) && fs[i + 1].offset == 0 && fs[i + 1].sector == fs[i].sector + 1
  }

  /** Every fragment so far leaves by a JUMP, the last one to `sector`. */
  predicate Open(fs: seq<Fragment>, sector: nat) {
    Linked(fs) && (fs != [] ==> fs[|fs| - 1].jump == Some((sector, 0)) && sector == fs[|fs| - 1].sector + 1)
  }

  /** The payloads from fragment `i` on, joined. */
  function TextFrom(images: Images, fs: seq<Fragment>, i: nat): seq<byte>
    decreases |fs| - i
  {
    if i >= |fs| then [] else Payload(images, fs[i]) + TextFrom(images, fs, i + 1)
  }

  /** The size of the first instruction of some bytes. */
  function HeadSize(b: seq<byte>): nat {
    if b == [] then 0 else TokenSize(b[0])
  }

  /** No JUMP is taken early: the next instruction would not have fitted beside it. */
  predicate Tight(images: Images, fs: seq<Fragment>) {
    forall i :: 0 <= i < |fs| - 1 ==> TightAt(images, fs, i)
  }

  predicate TightAt(images: Images, fs: seq<Fragment>, i: int) {
    0 <= i < |fs| - 1 && fs[i].end + HeadSize(Payload(images, fs[i + 1])) > PAGE_DATA_SIZE
  }

  /** No JUMP is taken in vain: what is left of the macro, `later` bytes of it behind these
      fragments, would not have fitted on the page. */
  predicate Forced(images: Images, fs: seq<Fragment>, later: nat) {
    forall i :: 0 <= i < |fs| ==> ForcedAt(images, fs, i, later)
  }

  predicate ForcedAt(images: Images, fs: seq<Fragment>, i: nat, later: nat) {
    i < |fs| && (fs[i].jump.Some? ==> fs[i].offset + |TextFrom(images, fs, i)| + later > PAGE_DATA_SIZE)
  }

  /** The fragments hold exactly this bytecode, cut at instruction boundaries and only where
      it has to be. */
  predicate Placed(images: Images, fs: seq<Fragment>, bytecode: seq<byte>) {
    fs != [] && AllWritten(images, fs) && Linked(fs) && fs[|fs| - 1].jump.None? &&
    TextFrom(images, fs, 0) == bytecode && Tight(images, fs) && Forced(images, fs, 0)
  }

  /** Where a fragment starts, counted in payload bytes across the pages. */
  function Position(f: Fragment): int {
    PAGE_DATA_SIZE * (f.sector - FIRST_SECTOR) + f.offset
  }

  /** Where a macro starts when the bytes before `from` are taken: right there, unless fewer
      than six bytes of the page are left, or neither the whole macro nor its first
      instruction with a JUMP fits; then on the next page. */
  function StartAfter(from: int, bytecode: seq<byte>): int {
    var room := PAGE_DATA_SIZE - from % PAGE_DATA_SIZE;
    var here := if room < 6 then from + room else from;
    var left := PAGE_DATA_SIZE - here % PAGE_DATA_SIZE;
    if |bytecode| <= left || HeadSize(bytecode) + 5 <= left then here else here + left
  }

  lemma {:induction false} TextSnoc(images: Images, fs: seq<Fragment>, f: Fragment, i: nat)
    requires i <= |fs|
    ensures TextFrom(images, fs + [f], i) == TextFrom(images, fs, i) + Payload(images, f)
    decreases |fs| - i
  {
    hide Payload;
    if i == |fs| {
      assert TextFrom(images, fs + [f], i + 1) == [];
    } else {
      TextSnoc(images, fs, f, i + 1);
    }
  }

  // ---------------------------------------------------------------- what later writes cannot touch

  /** `(k, o)` lies strictly before the write position `(page, offset)`. */
  predicate Before(k: nat, o: nat, page: nat, offset: nat) {
    k < page || (k == page && o < offset)
  }

  predicate SameBefore(a: Images, b: Images, page: nat, offset: nat) {
    forall k: nat, o: nat :: k < 8 && o < 255 && Before(k, o, page, offset) ==> a[k][o] == b[k][o]
  }

  predicate Behind(f: Fragment, page: nat, offset: nat) {
    FIRST_SECTOR <= f.sector && (f.sector - FIRST_SECTOR < page || (f.sector - FIRST_SECTOR == page && f.end <= offset))
  }

  predicate AllBehind(fs: seq<Fragment>, page: nat, offset: nat) {
    forall i :: 0 <= i < |fs| ==> Behind(fs[i], page, offset)
  }

  /** Both images hold the same bytes where the fragment lies. */
  predicate SameOn(a: Images, b: Images, f: Fragment) {
    Shaped(f) ==> a[f.sector - FIRST_SECTOR][f.offset..f.end] == b[f.sector - FIRST_SECTOR][f.offset..f.end]
  }

  lemma SliceOfSlice(s: seq<byte>, i: nat, j: nat, k: nat)
    requires i <= j <= k <= |s|
    ensures s[i..j] == s[i..k][..j - i] && s[j..k] == s[i..k][j - i..]
  {
  }

  lemma PayloadStays(a: Images, b: Images, f: Fragment)
    requires Written(a, f) && SameOn(a, b, f)
    ensures Written(b, f) && Payload(a, f) == Payload(b, f)
  {
    hide Split;
    var k := f.sector - FIRST_SECTOR;
    SliceOfSlice(a[k], f.offset, PayloadEnd(f), f.end);
    SliceOfSlice(b[k], f.offset, PayloadEnd(f), f.end);
  }

  lemma AllWrittenStays(a: Images, b: Images, fs: seq<Fragment>)
    requires AllWritten(a, fs) && forall i :: 0 <= i < |fs| ==> SameOn(a, b, fs[i])
    ensures AllWritten(b, fs)
    ensures forall i :: 0 <= i < |fs| ==> Payload(a, fs[i]) == Payload(b, fs[i])
  {
    hide SameOn;
    hide Written;
    hide Payload;
    forall i | 0 <= i < |fs|
      ensures Written(b, fs[i]) && Payload(a, fs[i]) == Payload(b, fs[i])
    {
      PayloadStays(a, b, fs[i]);
    }
  }

  lemma BehindIsSame(a: Images, b: Images, fs: seq<Fragment>, page: nat, offset: nat)
    requires AllBehind(fs, page, offset) && SameBefore(a, b, page, offset)
    ensures forall i :: 0 <= i < |fs| ==> SameOn(a, b, fs[i])
  {
    forall i | 0 <= i < |fs| && Shaped(fs[i])
      ensures SameOn(a, b, fs[i])
    {
      var f := fs[i];
      assert Behind(f, page, offset);
      var k: nat := f.sector - FIRST_SECTOR;
      assert forall o: nat :: o < f.end ==> Before(k, o, page, offset);
    }
  }

  lemma {:induction false} TextStays(a: Images, b: Images, fs: seq<Fragment>, i: nat)
    requires i <= |fs|
    requires forall j :: 0 <= j < |fs| ==> Payload(a, fs[j]) == Payload(b, fs[j])
    ensures TextFrom(a, fs, i) == TextFrom(b, fs, i)
    decreases |fs| - i
  {
    hide Payload;
    if i < |fs| {
      TextStays(a, b, fs, i + 1);
    }
  }

  lemma TightStays(a: Images, b: Images, fs: seq<Fragment>)
    requires Tight(a, fs) && forall j :: 0 <= j < |fs| ==> Payload(a, fs[j]) == Payload(b, fs[j])
    ensures Tight(b, fs)
  {
    hide Payload;
    hide HeadSize;
    forall i | 0 <= i < |fs| - 1
      ensures TightAt(b, fs, i)
    {
      assert TightAt(a, fs, i);
    }
  }

  lemma ForcedStays(a: Images, b: Images, fs: seq<Fragment>, later: nat)
    requires Forced(a, fs, later) && forall j :: 0 <= j < |fs| ==> Payload(a, fs[j]) == Payload(b, fs[j])
    ensures Forced(b, fs, later)
  {
    hide Payload;
    hide TextFrom;
    forall i | 0 <= i < |fs|
      ensures ForcedAt(b, fs, i, later)
    {
      assert ForcedAt(a, fs, i, later);
      TextStays(a, b, fs, i);
    }
  }

  /** A placed macro survives every write outside its fragments. */
  lemma PlacedStays(a: Images, b: Images, fs: seq<Fragment>, bytecode: seq<byte>)
    requires Placed(a, fs, bytecode) && forall i :: 0 <= i < |fs| ==> SameOn(a, b, fs[i])
    ensures Placed(b, fs, bytecode)
  {
    hide Payload;
    hide Written;
    hide Tight;
    hide Forced;
    hide Linked;
    hide SameOn;
    AllWrittenStays(a, b, fs);
    TextStays(a, b, fs, 0);
    TightStays(a, b, fs);
    ForcedStays(a, b, fs, 0);
  }

  // ---------------------------------------------------------------- accounting

  function Fragments(allocations: seq<Allocation>): seq<Fragment> {
    if allocations == [] then []
    else Fragments(allocations[..|allocations| - 1]) + allocations[|allocations| - 1].fragments
  }

  lemma FragmentsSnoc(allocations: seq<Allocation>, a: Allocation)
    ensures Fragments(allocations + [a]) == Fragments(allocations) + a.fragments
  {
    assert (allocations + [a])[..|allocations|] == allocations;
  }

  function Size(f: Fragment): int {
    f.end - f.offset
  }

  function TotalSize(fs: seq<Fragment>): int {
    if fs == [] then 0 else TotalSize(fs[..|fs| - 1]) + Size(fs[|fs| - 1])
  }

  function JumpCount(fs: seq<Fragment>): nat {
    if fs == [] then 0
    else JumpCount(fs[..|fs| - 1]) + if fs[|fs| - 1].jump.Some? then 1 else 0
  }

  lemma CountsSnoc(fs: seq<Fragment>, f: Fragment)
    ensures TotalSize(fs + [f]) == TotalSize(fs) + Size(f)
    ensures JumpCount(fs + [f]) == JumpCount(fs) + if f.jump.Some? then 1 else 0
  {
    assert (fs + [f])[..|fs|] == fs;
  }

  predicate Precedes(f: Fragment, g: Fragment) {
    f.sector < g.sector || (f.sector == g.sector && f.end <= g.offset)
  }

  /** Fragments lie one after the other, so no two of them share a byte. */
  predicate Ordered(fs: seq<Fragment>) {
    forall i, j :: 0 <= i < j < |fs| ==> Precedes(fs[i], fs[j])
  }

  /** The first payload byte after the last fragment, counted across pages. */
  function Frontier(fs: seq<Fragment>): int {
    if fs == [] then 0
    else PAGE_DATA_SIZE * (fs[|fs| - 1].sector - FIRST_SECTOR) + fs[|fs| - 1].end
  }

  lemma OrderedSnoc(fs: seq<Fragment>, f: Fragment, page: nat, offset: nat)
    requires Ordered(fs) && AllBehind(fs, page, offset)
    requires f.sector == FIRST_SECTOR + page && offset <= f.offset
    ensures Ordered(fs + [f])
  {
    forall i, j | 0 <= i < j < |fs + [f]|
      ensures Precedes((fs + [f])[i], (fs + [f])[j])
    {
      if j == |fs| {
        assert Behind(fs[i], page, offset);
      }
    }
  }
}
