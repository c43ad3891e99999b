/** Proof side of the allocator: what is true of the pages while one macro is being
    laid out, and how each fragment carries that on. */
module Layout {
  import opened Bytes
  import opened Macro
  import opened Store
  import opened PageBuffers

  /** Everything from the write position on is still erased. */
  predicate Untouched(images: Images, page: nat, offset: nat) {
    forall k: nat, o: nat {:trigger images[k][o]} ::
      k < STORE_PAGES && o < SECTOR_SIZE && !Before(k, o, page, offset) ==>
      images[k][o] == 0xFF
  }

  /** Some fragment lies over byte `o` of page `k`. */
  predicate Covered(fs: seq<Fragment>, k: nat, o: nat) {
    exists i :: 0 <= i < |fs| && fs[i].sector == FIRST_SECTOR + k && fs[i].offset <= o < fs[i].end
  }

  /** Nothing is written outside the fragments. */
  ghost predicate Clear(images: Images, fs: seq<Fragment>) {
    forall k: nat, o: nat {:trigger images[k][o]} ::
      k < STORE_PAGES && o < PAGE_DATA_SIZE && !Covered(fs, k, o) ==> images[k][o] == 0xFF
  }

  /** Fragments `fs` of one macro are on the pages, `rest` of its bytes is not yet;
      `earlier` are the fragments of the macros before it. */
  ghost predicate Progress(images: Images, earlier: seq<Fragment>, fs: seq<Fragment>,
                           bytecode: seq<byte>, rest: seq<byte>, page: nat, offset: nat)
  {
    && AllWritten(images, fs) && Open(fs, FIRST_SECTOR + page)
    && TextFrom(images, fs, 0) + rest == bytecode
    && Tight(images, fs) && Forced(images, fs, |rest|)
    && (fs != [] ==> offset == 0 && rest != [] && fs[|fs| - 1].end + HeadSize(rest) > PAGE_DATA_SIZE)
    && AllBehind(earlier + fs, page, offset)
    && Ordered(earlier + fs)
    && Untouched(images, page, offset) && Clear(images, earlier + fs)
  }

  lemma PatchedKeeps(images: Images, page: nat, offset: nat, bytes: seq<byte>, after: Images)
    requires page < STORE_PAGES && offset + |bytes| <= SECTOR_SIZE && after == Patched(images, page, offset, bytes)
    ensures SameBefore(images, after, page, offset)
    ensures forall k: nat, o: nat {:trigger after[k][o]} ::
              k < STORE_PAGES && o < SECTOR_SIZE && !(k == page && offset <= o < offset + |bytes|) ==>
                after[k][o] == images[k][o]
    ensures Untouched(images, page, offset) ==> Untouched(after, page, offset + |bytes|)
    ensures after[page][offset..offset + |bytes|] == bytes
  {}

  lemma UntouchedFurther(images: Images, page: nat, offset: nat, page': nat, offset': nat)
    requires Untouched(images, page, offset)
    requires page < page' || (page == page' && offset <= offset')
    ensures Untouched(images, page', offset')
  {
    forall k: nat, o: nat | k < STORE_PAGES && o < SECTOR_SIZE && !Before(k, o, page', offset')
      ensures images[k][o] == 0xFF
    {
      assert !Before(k, o, page, offset);
    }
  }

  lemma SameBeforeTransitive(a: Images, b: Images, c: Images, page: nat, offset: nat, page': nat, offset': nat)
    requires SameBefore(a, b, page, offset) && SameBefore(b, c, page', offset')
    requires page < page' || (page == page' && offset <= offset')
    ensures SameBefore(a, c, page, offset)
  {
    forall k: nat, o: nat | k < 8 && o < 255 && Before(k, o, page, offset)
      ensures a[k][o] == c[k][o]
    {
      assert Before(k, o, page', offset');
    }
  }

  lemma BehindFurther(fs: seq<Fragment>, page: nat, offset: nat, page': nat, offset': nat)
    requires AllBehind(fs, page, offset)
    requires page < page' || (page == page' && offset <= offset')
    ensures AllBehind(fs, page', offset')
  {}

  /** The instructions `taken` written at the write position read back as the payload
      of the fragment made for them. */
  lemma FragmentWritten(images: Images, after: Images, f: Fragment, taken: seq<Token>, tail: seq<byte>)
    requires Shaped(f) && taken != [] && AllTokens(taken)
    requires PayloadEnd(f) == f.offset + |Flatten(taken)|
    requires tail == (if f.jump.Some? then JumpBytes(f.jump.value.0, f.jump.value.1) else [])
    requires after == Patched(images, f.sector - FIRST_SECTOR, f.offset, Flatten(taken) + tail)
    ensures Written(after, f) && Payload(after, f) == Flatten(taken)
    ensures HeadSize(Flatten(taken)) == |taken[0]|
  {
    hide TokenSize;
    var k, bytes := f.sector - FIRST_SECTOR, Flatten(taken) + tail;
    PatchedKeeps(images, k, f.offset, bytes, after);
    assert after[k][f.offset..f.end] == bytes;
    assert Payload(after, f) == bytes[..|Flatten(taken)|] == Flatten(taken);
    if f.jump.Some? {
      assert after[k][f.end - 5..f.end] == bytes[|Flatten(taken)|..] == tail;
    }
    SplitOfFlatten(taken);
    assert taken[0] in taken && Flatten(taken)[0] == taken[0][0];
  }

  lemma TightSnoc(images: Images, fs: seq<Fragment>, f: Fragment)
    requires AllWritten(images, fs) && Tight(images, fs) && Written(images, f)
    requires fs != [] ==> fs[|fs| - 1].end + HeadSize(Payload(images, f)) > PAGE_DATA_SIZE
    ensures AllWritten(images, fs + [f]) && Tight(images, fs + [f])
  {
    hide Payload;
    hide TokenSize;
    hide HeadSize;
    hide Written;
    forall i | 0 <= i < |fs + [f]| - 1
      ensures TightAt(images, fs + [f], i)
    {
      assert TightAt(images, fs, i) || i == |fs| - 1;
    }
  }

  /** Writing the next fragment keeps the earlier ones and appends its payload to the text. */
  lemma AddToText(images: Images, after: Images, fs: seq<Fragment>, f: Fragment, page: nat, offset: nat)
    requires AllWritten(images, fs) && AllBehind(fs, page, offset) && Tight(images, fs)
    requires SameBefore(images, after, page, offset) && Written(after, f)
    requires fs != [] ==> fs[|fs| - 1].end + HeadSize(Payload(after, f)) > PAGE_DATA_SIZE
    ensures AllWritten(after, fs + [f]) && Tight(after, fs + [f])
    ensures TextFrom(after, fs + [f], 0) == TextFrom(images, fs, 0) + Payload(after, f)
  {
    hide Payload;
    hide Written;
    hide TokenSize;
    hide SameOn;
    BehindIsSame(images, after, fs, page, offset);
    AllWrittenStays(images, after, fs);
    TextStays(images, after, fs, 0);
    TightStays(images, after, fs);
    TextSnoc(after, fs, f, 0);
    TightSnoc(after, fs, f);
  }

  lemma ForcedSnoc(images: Images, after: Images, fs: seq<Fragment>, f: Fragment, page: nat, offset: nat, later: nat)
    requires AllWritten(images, fs) && AllBehind(fs, page, offset)
    requires SameBefore(images, after, page, offset)
    requires Forced(images, fs, |Payload(after, f)| + later)
    requires f.jump.Some? ==> f.offset + |Payload(after, f)| + later > PAGE_DATA_SIZE
    ensures Forced(after, fs + [f], later)
  {
    hide Payload;
    hide Written;
    hide SameOn;
    hide SameBefore;
    hide AllBehind;
    BehindIsSame(images, after, fs, page, offset);
    AllWrittenStays(images, after, fs);
    forall i | 0 <= i < |fs + [f]|
      ensures ForcedAt(after, fs + [f], i, later)
    {
      TextSnoc(after, fs, f, i);
      if i < |fs| {
        assert ForcedAt(images, fs, i, |Payload(after, f)| + later);
        TextStays(images, after, fs, i);
      }
    }
  }

  /** It also keeps the order of all fragments. */
  lemma AddToOrder(earlier: seq<Fragment>, fs: seq<Fragment>, f: Fragment, page: nat, offset: nat)
    requires Ordered(earlier + fs) && AllBehind(earlier + fs, page, offset)
    requires f.sector == FIRST_SECTOR + page && f.offset == offset <= f.end
    ensures Ordered(earlier + (fs + [f])) && AllBehind(earlier + (fs + [f]), page, f.end)
  {
    OrderedSnoc(earlier + fs, f, page, offset);
    BehindFurther(earlier + fs, page, offset, page, f.end);
    assert earlier + (fs + [f]) == (earlier + fs) + [f];
  }

  lemma BehindSuffix(earlier: seq<Fragment>, fs: seq<Fragment>, page: nat, offset: nat)
    requires AllBehind(earlier + fs, page, offset)
    ensures AllBehind(fs, page, offset)
  {
    forall i | 0 <= i < |fs|
      ensures Behind(fs[i], page, offset)
    {
      assert (earlier + fs)[|earlier| + i] == fs[i];
    }
  }

  lemma AddFragment(images: Images, after: Images, earlier: seq<Fragment>, fs: seq<Fragment>, f: Fragment,
                    taken: seq<Token>, bytecode: seq<byte>, rest: seq<byte>, page: nat, offset: nat, tail: seq<byte>)
    requires Progress(images, earlier, fs, bytecode, Flatten(taken) + rest, page, offset)
    requires Shaped(f) && f.sector == FIRST_SECTOR + page && f.offset == offset
    requires taken != [] && AllTokens(taken)
    requires PayloadEnd(f) == f.offset + |Flatten(taken)|
    requires tail == (if f.jump.Some? then JumpBytes(f.jump.value.0, f.jump.value.1) else [])
    requires f.jump.Some? ==> offset + |Flatten(taken)| + |rest| > PAGE_DATA_SIZE
    requires after == Patched(images, page, offset, Flatten(taken) + tail)
    ensures SameBefore(images, after, page, offset) && Untouched(after, page, f.end)
    ensures AllWritten(after, fs + [f]) && Linked(fs + [f]) && Tight(after, fs + [f])
    ensures Forced(after, fs + [f], |rest|)
    ensures TextFrom(after, fs + [f], 0) + rest == bytecode
    ensures Ordered(earlier + (fs + [f])) && AllBehind(earlier + (fs + [f]), page, f.end)
    ensures Clear(after, earlier + (fs + [f]))
  {
    hide Payload;
    hide Written;
    hide TokenSize;
    hide Untouched;
    hide Clear;
    hide SameBefore;
    hide Linked;
    hide Ordered;
    hide AllBehind;
    hide Tight;
    hide Forced;
    hide AllTokens;
    EndOf(f, taken, tail);
    PatchedKeeps(images, page, offset, Flatten(taken) + tail, after);
    FragmentWritten(images, after, f, taken, tail);
    FlattenAtLeastCount(taken);
    assert HeadSize(Flatten(taken) + rest) == HeadSize(Flatten(taken)) by {
      assert (Flatten(taken) + rest)[0] == Flatten(taken)[0];
    }
    BehindSuffix(earlier, fs, page, offset);
    AddToText(images, after, fs, f, page, offset);
    assert |Flatten(taken) + rest| == |Payload(after, f)| + |rest|;
    ForcedSnoc(images, after, fs, f, page, offset, |rest|);
    assert TextFrom(images, fs, 0) + (Flatten(taken) + rest) == (TextFrom(images, fs, 0) + Flatten(taken)) + rest;
    AddToOrder(earlier, fs, f, page, offset);
    ClearSnoc(images, after, earlier + fs, f, page, Flatten(taken) + tail);
    assert earlier + (fs + [f]) == (earlier + fs) + [f];
    LinkedSnoc(fs, f);
  }

  lemma EndOf(f: Fragment, taken: seq<Token>, tail: seq<byte>)
    requires Shaped(f) && PayloadEnd(f) == f.offset + |Flatten(taken)|
    requires tail == (if f.jump.Some? then JumpBytes(f.jump.value.0, f.jump.value.1) else [])
    ensures f.offset + |Flatten(taken) + tail| == f.end
    ensures f.offset <= f.end
  {}

  /** A fragment written in its place leaves everything else clear. */
  lemma ClearSnoc(images: Images, after: Images, fs: seq<Fragment>, f: Fragment, page: nat, bytes: seq<byte>)
    requires page < STORE_PAGES && f.offset + |bytes| == f.end <= SECTOR_SIZE && f.sector == FIRST_SECTOR + page
    requires after == Patched(images, page, f.offset, bytes) && Clear(images, fs)
    ensures Clear(after, fs + [f])
  {
    hide Patched;
    PatchedKeeps(images, page, f.offset, bytes, after);
    var all := fs + [f];
    forall k: nat, o: nat {:trigger after[k][o]} | k < STORE_PAGES && o < PAGE_DATA_SIZE && !Covered(all, k, o)
      ensures after[k][o] == 0xFF
    {
      assert all[|fs|] == f;
      forall i | 0 <= i < |fs|
        ensures !(fs[i].sector == FIRST_SECTOR + k && fs[i].offset <= o < fs[i].end)
      {
        assert all[i] == fs[i];
      }
      assert images[k][o] == 0xFF;
    }
  }

  lemma LinkedSnoc(fs: seq<Fragment>, f: Fragment)
    requires Open(fs, f.sector) && (fs != [] ==> f.offset == 0)
    ensures Linked(fs + [f])
  {
    forall i | 0 <= i < |fs + [f]| - 1
      ensures LinkedAt(fs + [f], i)
    {
      assert LinkedAt(fs, i) || i == |fs| - 1;
    }
  }

  /** A fragment that leaves by a JUMP: progress continues at the start of the next page. */
  lemma AddJumping(images: Images, after: Images, earlier: seq<Fragment>, fs: seq<Fragment>, f: Fragment,
                   taken: seq<Token>, bytecode: seq<byte>, rest: seq<byte>, page: nat, offset: nat)
    requires Progress(images, earlier, fs, bytecode, Flatten(taken) + rest, page, offset)
    requires Shaped(f) && f.sector == FIRST_SECTOR + page && f.offset == offset && f.jump.Some?
    requires taken != [] && AllTokens(taken)
    requires f.end == f.offset + |Flatten(taken)| + 5
    requires rest != [] && f.end + HeadSize(rest) > PAGE_DATA_SIZE
    requires offset + |Flatten(taken)| + |rest| > PAGE_DATA_SIZE
    requires after == Patched(images, page, offset, Flatten(taken) + JumpBytes(f.sector + 1, 0))
    ensures Progress(after, earlier, fs + [f], bytecode, rest, page + 1, 0)
    ensures SameBefore(images, after, page, offset)
  {
    AddFragment(images, after, earlier, fs, f, taken, bytecode, rest, page, offset, JumpBytes(f.sector + 1, 0));
    UntouchedFurther(after, page, f.end, page + 1, 0);
    BehindFurther(earlier + (fs + [f]), page, f.end, page + 1, 0);
  }

  /** The last fragment: the macro is placed. */
  lemma AddLast(images: Images, after: Images, earlier: seq<Fragment>, fs: seq<Fragment>, f: Fragment,
                taken: seq<Token>, bytecode: seq<byte>, page: nat, offset: nat)
    requires Progress(images, earlier, fs, bytecode, Flatten(taken), page, offset)
    requires Shaped(f) && f.sector == FIRST_SECTOR + page && f.offset == offset && f.jump.None?
    requires taken != [] && AllTokens(taken)
    requires f.end == f.offset + |Flatten(taken)|
    requires after == Patched(images, page, offset, Flatten(taken))
    ensures Placed(after, fs + [f], bytecode)
    ensures SameBefore(images, after, page, offset) && Untouched(after, page, f.end)
    ensures Clear(after, earlier + (fs + [f]))
    ensures Ordered(earlier + (fs + [f])) && AllBehind(earlier + (fs + [f]), page, f.end)
  {
    hide Written;
    hide Payload;
    assert Flatten(taken) + [] == Flatten(taken);
    AddFragment(images, after, earlier, fs, f, taken, bytecode, [], page, offset, []);
    assert TextFrom(after, fs + [f], 0) + [] == TextFrom(after, fs + [f], 0);
  }

  /** Abandoning the rest of a page before the first fragment. */
  lemma SkipPage(images: Images, earlier: seq<Fragment>, bytecode: seq<byte>, page: nat, offset: nat)
    requires Progress(images, earlier, [], bytecode, bytecode, page, offset)
    ensures Progress(images, earlier, [], bytecode, bytecode, page + 1, 0)
  {
    UntouchedFurther(images, page, offset, page + 1, 0);
    BehindFurther(earlier + [], page, offset, page + 1, 0);
  }
}
