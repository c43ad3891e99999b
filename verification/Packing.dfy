/** The placement rules leave no choice: from a given position a macro has one layout, or
    none, whatever else is on the pages. */
module Packing {
  import opened Bytes
  import opened Macro
  import opened Store

  /** The position of the last page. */
  const LAST_PAGE: nat := (STORE_PAGES - 1) * PAGE_DATA_SIZE

  /** This much of a macro can be laid out from position `at`, cut only where it has to be,
      and the rest does not fit on the last page. */
  ghost predicate Stuck(images: Images, fs: seq<Fragment>, rest: seq<byte>, bytecode: seq<byte>, at: int) {
    && TextFrom(images, fs, 0) + rest == bytecode && rest != []
    && AllWritten(images, fs) && Open(fs, FIRST_SECTOR + STORE_PAGES - 1) && Tight(images, fs)
    && Forced(images, fs, |rest|)
    && if fs == [] then at >= LAST_PAGE && at + |rest| > GLOBAL_PAYLOAD_CAPACITY
       else Position(fs[0]) == at && fs[|fs| - 1].end + HeadSize(rest) > PAGE_DATA_SIZE && |rest| > PAGE_DATA_SIZE
  }

  /** The evidence for a refusal: the macro would have to start behind the last page, or gets
      stuck on it. */
  ghost predicate NoRoom(from: int, bytecode: seq<byte>) {
    var at := StartAfter(from, bytecode);
    at >= GLOBAL_PAYLOAD_CAPACITY || exists images, fs, rest :: Stuck(images, fs, rest, bytecode, at)
  }

  // ---------------------------------------------------------------- one cut

  lemma HeadFits(a: seq<byte>, b: seq<byte>)
    requires Split(a).Ok? && Split(a + b).Ok? && b != []
    ensures HeadSize(b) <= |b|
  {
    hide TokenSize;
    SplitConcat(a, b);
  }

  /** What the rules say about one fragment with `rest` of the macro behind it. */
  predicate CutHere(images: Images, f: Fragment, rest: seq<byte>) {
    Written(images, f) &&
    if f.jump.None? then rest == []
    else
      rest != [] && f.end + HeadSize(rest) > PAGE_DATA_SIZE &&
      f.offset + |Payload(images, f)| + |rest| > PAGE_DATA_SIZE
  }

  /** Of two cuts neither can come first. */
  lemma NotEarlier(a: Images, f: Fragment, restF: seq<byte>, b: Images, g: Fragment, restG: seq<byte>)
    requires CutHere(a, f, restF) && CutHere(b, g, restG) && f.sector == g.sector && f.offset == g.offset
    requires Payload(a, f) + restF == Payload(b, g) + restG
    ensures |Payload(a, f)| >= |Payload(b, g)|
    ensures f.jump.None? ==> g.jump.None?
  {
    hide Split;
    hide HeadSize;
    var p, q := Payload(a, f), Payload(b, g);
    assert |p| == PayloadEnd(f) - f.offset && |q| == PayloadEnd(g) - g.offset;
    assert |p| + |restF| == |p + restF| == |q + restG| == |q| + |restG|;
    if |p| < |q| {
      var more := q[|p|..];
      assert p == (p + restF)[..|p|] == (q + restG)[..|p|] == q[..|p|];
      assert q == p + more;
      HeadFits(p, more);
      assert restF[0] == (p + restF)[|p|] == (q + restG)[|p|] == more[0];
      SameHead(restF, more);
    }
  }

  lemma SameHead(a: seq<byte>, b: seq<byte>)
    requires a != [] && b != [] && a[0] == b[0]
    ensures HeadSize(a) == HeadSize(b)
  {
  }

  lemma OneCut(a: Images, f: Fragment, restF: seq<byte>, b: Images, g: Fragment, restG: seq<byte>)
    requires CutHere(a, f, restF) && CutHere(b, g, restG) && f.sector == g.sector && f.offset == g.offset
    requires Payload(a, f) + restF == Payload(b, g) + restG
    ensures f == g && restF == restG
  {
    hide Split;
    hide HeadSize;
    var p, q := Payload(a, f), Payload(b, g);
    NotEarlier(a, f, restF, b, g, restG);
    NotEarlier(b, g, restG, a, f, restF);
    assert restF == (p + restF)[|p|..] == (q + restG)[|q|..] == restG;
    assert |p| == PayloadEnd(f) - f.offset && |q| == PayloadEnd(g) - g.offset;
  }

  // ---------------------------------------------------------------- a whole layout

  /** A macro laid out by the rules as far as `rest`. */
  predicate Cut(images: Images, fs: seq<Fragment>, rest: seq<byte>, bytecode: seq<byte>) {
    && fs != [] && TextFrom(images, fs, 0) + rest == bytecode
    && AllWritten(images, fs) && Linked(fs) && Tight(images, fs) && Forced(images, fs, |rest|)
    && if rest == [] then fs[|fs| - 1].jump.None?
       else fs[|fs| - 1].jump.Some? && fs[|fs| - 1].end + HeadSize(rest) > PAGE_DATA_SIZE
  }

  lemma CutAt(images: Images, fs: seq<Fragment>, rest: seq<byte>, bytecode: seq<byte>, i: nat)
    requires Cut(images, fs, rest, bytecode) && i < |fs|
    ensures CutHere(images, fs[i], TextFrom(images, fs, i + 1) + rest)
    ensures TextFrom(images, fs, i) + rest == Payload(images, fs[i]) + (TextFrom(images, fs, i + 1) + rest)
  {
    hide Payload;
    hide HeadSize;
    hide Split;
    assert Written(images, fs[i]) && ForcedAt(images, fs, i, |rest|);
    var later := TextFrom(images, fs, i + 1) + rest;
    assert TextFrom(images, fs, i) + rest == Payload(images, fs[i]) + later;
    if i + 1 < |fs| {
      assert LinkedAt(fs, i) && TightAt(images, fs, i) && Written(images, fs[i + 1]);
      SameHead(later, Payload(images, fs[i + 1]));
    } else {
      assert later == rest;
    }
  }

  /** Two layouts of one macro from one position run side by side. */
  lemma {:induction false} SideBySide(a: Images, fs: seq<Fragment>, x: seq<byte>, b: Images, gs: seq<Fragment>,
                                      y: seq<byte>, bytecode: seq<byte>, n: nat)
    requires Cut(a, fs, x, bytecode) && Cut(b, gs, y, bytecode) && n <= |fs| && n <= |gs|
    requires fs[0].sector == gs[0].sector && fs[0].offset == gs[0].offset
    ensures fs[..n] == gs[..n] && TextFrom(a, fs, n) + x == TextFrom(b, gs, n) + y
  {
    hide Payload;
    hide CutHere;
    hide Written;
    hide Tight;
    hide Forced;
    if n > 0 {
      var i := n - 1;
      SideBySide(a, fs, x, b, gs, y, bytecode, i);
      CutAt(a, fs, x, bytecode, i);
      CutAt(b, gs, y, bytecode, i);
      if i > 0 {
        assert LinkedAt(fs, i - 1) && LinkedAt(gs, i - 1);
        assert fs[i - 1] == fs[..i][i - 1] == gs[..i][i - 1] == gs[i - 1];
      }
      OneCut(a, fs[i], TextFrom(a, fs, n) + x, b, gs[i], TextFrom(b, gs, n) + y);
      assert fs[..n] == fs[..i] + [fs[i]] && gs[..n] == gs[..i] + [gs[i]];
    }
  }

  lemma SamePosition(f: Fragment, g: Fragment)
    requires Shaped(f) && Shaped(g) && Position(f) == Position(g)
    ensures f.sector == g.sector && f.offset == g.offset
  {
  }

  lemma PlacedIsCut(images: Images, fs: seq<Fragment>, bytecode: seq<byte>)
    requires Placed(images, fs, bytecode)
    ensures Cut(images, fs, [], bytecode) && Written(images, fs[0])
  {
    hide Written;
    assert TextFrom(images, fs, 0) + [] == bytecode;
  }

  /** Where a macro ends one layout, it ends every layout. */
  lemma NotShorter(a: Images, fs: seq<Fragment>, b: Images, gs: seq<Fragment>, y: seq<byte>, bytecode: seq<byte>)
    requires Placed(a, fs, bytecode) && Cut(b, gs, y, bytecode) && |fs| <= |gs|
    requires fs[0].sector == gs[0].sector && fs[0].offset == gs[0].offset
    ensures |fs| == |gs| && y == []
  {
    PlacedIsCut(a, fs, bytecode);
    SideBySide(a, fs, [], b, gs, y, bytecode, |fs|);
    assert |fs| < |gs| ==> LinkedAt(gs, |fs| - 1);
    assert fs[|fs| - 1] == fs[..|fs|][|fs| - 1] == gs[..|fs|][|fs| - 1] == gs[|fs| - 1];
  }

  /** From one position a macro has at most one layout, whatever the pages hold otherwise. */
  lemma LayoutIsUnique(a: Images, fs: seq<Fragment>, b: Images, gs: seq<Fragment>, bytecode: seq<byte>)
    requires Placed(a, fs, bytecode) && Placed(b, gs, bytecode) && Position(fs[0]) == Position(gs[0])
    ensures fs == gs
  {
    hide Written;
    PlacedIsCut(a, fs, bytecode);
    PlacedIsCut(b, gs, bytecode);
    assert Shaped(fs[0]) && Shaped(gs[0]) by { WrittenIsShaped(a, fs[0]); WrittenIsShaped(b, gs[0]); }
    SamePosition(fs[0], gs[0]);
    if |fs| <= |gs| {
      NotShorter(a, fs, b, gs, [], bytecode);
    } else {
      NotShorter(b, gs, a, fs, [], bytecode);
    }
    SideBySide(a, fs, [], b, gs, [], bytecode, |fs|);
    assert fs == fs[..|fs|] == gs[..|gs|] == gs;
  }

  /** Pages that hold the same macro in the same fragments hold the same bytes there. */
  lemma SameBytes(a: Images, b: Images, fs: seq<Fragment>, bytecode: seq<byte>)
    requires Placed(a, fs, bytecode) && Placed(b, fs, bytecode)
    ensures forall i :: 0 <= i < |fs| ==> SameOn(a, b, fs[i])
  {
    hide Payload;
    hide Written;
    PlacedIsCut(a, fs, bytecode);
    PlacedIsCut(b, fs, bytecode);
    forall i | 0 <= i < |fs|
      ensures SameOn(a, b, fs[i])
    {
      SideBySide(a, fs, [], b, fs, [], bytecode, i);
      CutAt(a, fs, [], bytecode, i);
      CutAt(b, fs, [], bytecode, i);
      SameFragment(a, b, fs[i], TextFrom(a, fs, i + 1) + [], TextFrom(b, fs, i + 1) + []);
    }
  }

  lemma SameFragment(a: Images, b: Images, f: Fragment, x: seq<byte>, y: seq<byte>)
    requires Written(a, f) && Written(b, f) && Payload(a, f) + x == Payload(b, f) + y
    ensures SameOn(a, b, f)
  {
    hide Split;
    var k, mid := f.sector - FIRST_SECTOR, PayloadEnd(f);
    var p, q := Payload(a, f), Payload(b, f);
    assert |p| == |q| == mid - f.offset;
    assert p == (p + x)[..|p|] == (q + y)[..|q|] == q;
    assert a[k][f.offset..f.end] == p + a[k][mid..f.end];
    assert b[k][f.offset..f.end] == q + b[k][mid..f.end];
  }

  lemma WrittenIsShaped(images: Images, f: Fragment)
    requires Written(images, f)
    ensures Shaped(f) && |Payload(images, f)| == PayloadEnd(f) - f.offset <= PAGE_DATA_SIZE - f.offset
    ensures f.sector == FIRST_SECTOR + STORE_PAGES - 1 ==> f.jump.None?
  {
  }

  /** On the last page a macro ends. */
  lemma LastPageEnds(images: Images, fs: seq<Fragment>, bytecode: seq<byte>, i: nat)
    requires Placed(images, fs, bytecode) && i < |fs| && fs[i].sector == FIRST_SECTOR + STORE_PAGES - 1
    ensures i == |fs| - 1 && fs[i].offset + |TextFrom(images, fs, i)| <= PAGE_DATA_SIZE
  {
    hide Payload;
    assert Written(images, fs[i]) && (i < |fs| - 1 ==> LinkedAt(fs, i));
    WrittenIsShaped(images, fs[i]);
    assert TextFrom(images, fs, i) == Payload(images, fs[i]) + TextFrom(images, fs, i + 1);
  }

  /** A macro that gets stuck has no layout at all from that position. */
  lemma StuckIsFinal(a: Images, fs: seq<Fragment>, b: Images, gs: seq<Fragment>, rest: seq<byte>, bytecode: seq<byte>)
    requires Placed(a, fs, bytecode)
    ensures !Stuck(b, gs, rest, bytecode, Position(fs[0]))
  {
    hide Written;
    hide Payload;
    hide HeadSize;
    if Stuck(b, gs, rest, bytecode, Position(fs[0])) {
      PlacedIsCut(a, fs, bytecode);
      WrittenIsShaped(a, fs[0]);
      if gs == [] {
        assert rest == bytecode by { assert TextFrom(b, gs, 0) == []; }
        LastPageEnds(a, fs, bytecode, 0);
      } else {
        assert Cut(b, gs, rest, bytecode);
        WrittenIsShaped(b, gs[0]);
        SamePosition(fs[0], gs[0]);
        if |fs| <= |gs| {
          NotShorter(a, fs, b, gs, rest, bytecode);
        } else {
          var n := |gs|;
          SideBySide(a, fs, [], b, gs, rest, bytecode, n);
          assert fs[n - 1] == fs[..n][n - 1] == gs[..n][n - 1] == gs[n - 1];
          assert LinkedAt(fs, n - 1);
          assert |TextFrom(a, fs, n) + []| == |TextFrom(b, gs, n) + rest| == |rest|;
          LastPageEnds(a, fs, bytecode, n);
        }
      }
    }
  }

  /** The evidence for a refusal excludes every layout. */
  lemma NoRoomIsFinal(from: int, images: Images, fs: seq<Fragment>, bytecode: seq<byte>)
    requires NoRoom(from, bytecode) && fs != [] && Position(fs[0]) == StartAfter(from, bytecode)
    ensures !Placed(images, fs, bytecode)
  {
    hide StartAfter;
    hide Stuck;
    if Placed(images, fs, bytecode) {
      assert Written(images, fs[0]);
      forall b, gs, rest
        ensures !Stuck(b, gs, rest, bytecode, Position(fs[0]))
      {
        StuckIsFinal(images, fs, b, gs, rest, bytecode);
      }
    }
  }
}
