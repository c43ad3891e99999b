/** Linking preserves meaning: the walker, run on pages the allocator wrote, executes
    exactly the instructions of the source macro. */
module Linking {
  import opened Bytes
  import opened Macro
  import opened Store
  import opened Vm

  /** The walker sees these eight pages as sectors 8 to 15. */
  predicate Mounted(pages: Pages, images: Images) {
    forall sector :: FIRST_SECTOR <= sector < FIRST_SECTOR + STORE_PAGES ==> MountedAt(pages, images, sector)
  }

  predicate MountedAt(pages: Pages, images: Images, sector: nat) {
    FIRST_SECTOR <= sector < FIRST_SECTOR + STORE_PAGES &&
    sector in pages && pages[sector] == images[sector - FIRST_SECTOR]
  }

  function TokensOf(images: Images, f: Fragment): seq<Token> {
    match Split(Payload(images, f)) case Ok(tokens) => tokens case Err(_) => []
  }

  function TokensFrom(images: Images, fs: seq<Fragment>, i: nat): seq<Token>
    decreases |fs| - i
  {
    if i >= |fs| then [] else TokensOf(images, fs[i]) + TokensFrom(images, fs, i + 1)
  }

  lemma {:induction false} TextTokens(images: Images, fs: seq<Fragment>, i: nat)
    requires AllWritten(images, fs)
    ensures Split(TextFrom(images, fs, i)) == Ok(TokensFrom(images, fs, i))
    decreases |fs| - i
  {
    hide Payload;
    if i < |fs| {
      assert Written(images, fs[i]);
      TextTokens(images, fs, i + 1);
      SplitConcat(Payload(images, fs[i]), TextFrom(images, fs, i + 1));
    }
  }

  lemma {:induction false} TextLength(images: Images, fs: seq<Fragment>, i: nat)
    requires i <= |fs|
    ensures |TextFrom(images, fs, i)| <= PAGE_DATA_SIZE * (|fs| - i)
    decreases |fs| - i
  {
    hide Payload;
    if i < |fs| {
      PayloadLength(images, fs[i]);
      TextLength(images, fs, i + 1);
    }
  }

  lemma PayloadLength(images: Images, f: Fragment)
    ensures |Payload(images, f)| <= PAGE_DATA_SIZE
  {}

  lemma {:induction false} ConsecutiveSectors(fs: seq<Fragment>, i: nat)
    requires Linked(fs) && i < |fs|
    ensures fs[i].sector == fs[0].sector + i
  {
    if i > 0 {
      ConsecutiveSectors(fs, i - 1);
      assert LinkedAt(fs, i - 1);
    }
  }

  /** Every placed macro is executed well within the walker's instruction budget. */
  lemma WithinBudget(images: Images, fs: seq<Fragment>, bytecode: seq<byte>)
    requires Placed(images, fs, bytecode)
    ensures |TokensFrom(images, fs, 0)| + |fs| < MAX_INSTRUCTIONS
  {
    hide Split;
    ConsecutiveSectors(fs, |fs| - 1);
    assert Written(images, fs[0]) && Written(images, fs[|fs| - 1]);
    TextLength(images, fs, 0);
    TextTokens(images, fs, 0);
    SplitSound(TextFrom(images, fs, 0));
    FlattenAtLeastCount(TokensFrom(images, fs, 0));
  }

  lemma CleanTail(tokens: seq<Token>)
    requires Clean(tokens) && |tokens| > 1
    ensures Clean(tokens[1..]) && tokens[0][0] != OP_END && tokens[0][0] != OP_JUMP
  {
    assert tokens[1..][|tokens| - 2] == tokens[|tokens| - 1];
  }

  // ---------------------------------------------------------------- one instruction

  /** The instruction at an address where a whole token lies inside the payload area. */
  lemma DecodesToken(pages: Pages, images: Images, sector: nat, offset: nat, t: Token)
    requires Mounted(pages, images) && FIRST_SECTOR <= sector < FIRST_SECTOR + STORE_PAGES
    requires IsToken(t) && offset + |t| <= PAGE_DATA_SIZE
    requires images[sector - FIRST_SECTOR][offset..offset + |t|] == t
    requires t[0] == OP_JUMP ==> t[3] == t[4] == 0
    requires t[0] == OP_JUMP ==> FIRST_SECTOR <= UnpackBE(t[1], t[2]) < FIRST_SECTOR + STORE_PAGES
    ensures var r := Decode(pages, sector, offset);
            && r.Ok? && r.value.opcode == t[0] && r.value.size == |t| && BytesOf(pages, r.value) == t
            && r.value.target == (if t[0] == OP_JUMP then Some((UnpackBE(t[1], t[2]), 0)) else None)
    ensures LimitOf(pages, sector).Some? && LimitOf(pages, sector).value >= PAGE_DATA_SIZE
  {
    var page := images[sector - FIRST_SECTOR];
    assert MountedAt(pages, images, sector);
    assert page[offset] == page[offset..offset + |t|][0];
    if t[0] == OP_JUMP {
      assert MountedAt(pages, images, UnpackBE(t[1], t[2]));
      assert t == page[offset..offset + 5];
      assert page[offset + 1] == t[1] && page[offset + 2] == t[2];
      assert page[offset + 3] == t[3] && page[offset + 4] == t[4];
    }
  }

  /** Where token `n` of fragment `i` lies. */
  function AddressOf(images: Images, fs: seq<Fragment>, i: nat, n: nat): Address
    requires i < |fs| && n <= |TokensOf(images, fs[i])|
  {
    (fs[i].sector, fs[i].offset + |Flatten(TokensOf(images, fs[i])[..n])|)
  }

  lemma TokenInFlatten(tokens: seq<Token>, n: nat)
    requires n < |tokens|
    ensures Flatten(tokens) == Flatten(tokens[..n]) + (tokens[n] + Flatten(tokens[n + 1..]))
    ensures |Flatten(tokens[..n + 1])| == |Flatten(tokens[..n])| + |tokens[n]|
  {
    assert tokens == tokens[..n] + tokens[n..] && tokens[n..][1..] == tokens[n + 1..];
    FlattenConcat(tokens[..n], tokens[n..]);
    FlattenConcat(tokens[..n], [tokens[n]]);
    assert tokens[..n + 1] == tokens[..n] + [tokens[n]];
    assert Flatten([tokens[n]]) == tokens[n] + Flatten([]) == tokens[n];
  }

  lemma TokenBytes(images: Images, f: Fragment, n: nat)
    requires Written(images, f) && n < |TokensOf(images, f)|
    ensures var t := TokensOf(images, f)[n];
            var at := f.offset + |Flatten(TokensOf(images, f)[..n])|;
            && IsToken(t) && at + |t| <= PayloadEnd(f)
            && images[f.sector - FIRST_SECTOR][at..at + |t|] == t
            && f.offset + |Flatten(TokensOf(images, f)[..n + 1])| == at + |t|
  {
    hide Split;
    hide Flatten;
    var tokens := TokensOf(images, f);
    SplitSound(Payload(images, f));
    TokenInFlatten(tokens, n);
    SliceOfPayload(images[f.sector - FIRST_SECTOR], f.offset, PayloadEnd(f), Flatten(tokens[..n]), tokens[n],
                   Flatten(tokens[n + 1..]));
  }

  lemma SliceOfPayload(page: seq<byte>, from: nat, to: int, a: seq<byte>, t: seq<byte>, z: seq<byte>)
    requires from <= to <= |page| && page[from..to] == a + (t + z)
    ensures from + |a| + |t| <= to && page[from + |a|..from + |a| + |t|] == t
  {
    assert to - from == |a + (t + z)| == |a| + |t| + |z|;
    var slice := page[from + |a|..from + |a| + |t|];
    assert forall k :: 0 <= k < |t| ==> slice[k] == page[from + |a| + k] == page[from..to][|a| + k];
    assert forall k :: 0 <= k < |t| ==> (a + (t + z))[|a| + k] == t[k];
  }

  lemma AllTokensEnd(images: Images, f: Fragment)
    requires Written(images, f)
    ensures f.offset + |Flatten(TokensOf(images, f)[..|TokensOf(images, f)|])| == PayloadEnd(f)
  {
    hide Split;
    SplitSound(Payload(images, f));
    assert TokensOf(images, f)[..|TokensOf(images, f)|] == TokensOf(images, f);
  }

  // ---------------------------------------------------------------- the whole chain

  /** Every visited address lies before `at`. */
  predicate Ahead(seen: set<Address>, at: Address) {
    forall a :: a in seen ==> a.0 < at.0 || (a.0 == at.0 && a.1 < at.1)
  }

  /** `r` is a finished run that executes exactly `tokens`, JUMPs aside. */
  ghost predicate Executes(pages: Pages, r: Result<seq<Instruction>, VmError>, tokens: seq<Token>) {
    r.Ok? && Readable(pages, r.value) && Erase(pages, r.value) == tokens
  }

  lemma ExecutesPrepend(pages: Pages, ins: Instruction, rest: Result<seq<Instruction>, VmError>, tokens: seq<Token>)
    requires Executes(pages, rest, tokens)
    requires ins.sector in pages && ins.offset + ins.size <= |pages[ins.sector]|
    ensures ins.opcode == OP_JUMP ==> Executes(pages, Prepend(ins, rest), tokens)
    ensures ins.opcode != OP_JUMP ==> Executes(pages, Prepend(ins, rest), [BytesOf(pages, ins)] + tokens)
  {
    var chain := [ins] + rest.value;
    assert chain[1..] == rest.value;
    assert forall i :: 0 <= i < |chain| ==> chain[i] == ins || (i > 0 && chain[i] == rest.value[i - 1]);
  }

  lemma AheadMoves(seen: set<Address>, at: Address, next: Address)
    requires Ahead(seen, at) && (at.0 < next.0 || (at.0 == next.0 && at.1 < next.1))
    ensures Ahead(seen + {at}, next)
  {}

  /** Executing token `n` of a fragment leads to token `n + 1`. */
  lemma StepToken(pages: Pages, images: Images, fs: seq<Fragment>, i: nat, n: nat) returns (ins: Instruction)
    requires Mounted(pages, images) && AllWritten(images, fs)
    requires i < |fs| && n < |TokensOf(images, fs[i])|
    requires IsToken(TokensOf(images, fs[i])[n]) && TokensOf(images, fs[i])[n][0] != OP_JUMP
    ensures var at := AddressOf(images, fs, i, n);
            var t := TokensOf(images, fs[i])[n];
            && Decode(pages, at.0, at.1) == Ok(ins) && ins.opcode == t[0]
            && ins.sector in pages && ins.offset + ins.size <= |pages[ins.sector]| && BytesOf(pages, ins) == t
            && at.1 < AddressOf(images, fs, i, n + 1).1
    ensures LimitOf(pages, ins.sector).Some?
    ensures AddressOf(images, fs, i, n + 1).1 < PAGE_DATA_SIZE ==>
              Next(pages, ins) == Ok(AddressOf(images, fs, i, n + 1))
  {
    hide Split;
    hide Decode;
    hide TokensOf;
    hide Payload;
    assert Written(images, fs[i]);
    TokenBytes(images, fs[i], n);
    var at := AddressOf(images, fs, i, n);
    DecodesToken(pages, images, at.0, at.1, TokensOf(images, fs[i])[n]);
    ins := Decode(pages, at.0, at.1).value;
  }

  lemma JumpNames(sector: nat)
    requires sector < 0x1_0000
    ensures var j := JumpBytes(sector, 0);
            IsToken(j) && j[0] == OP_JUMP && UnpackBE(j[1], j[2]) == sector && j[3] == j[4] == 0
  {
  }

  /** Executing the JUMP of a fragment leads to the start of the next fragment. */
  lemma StepJump(pages: Pages, images: Images, fs: seq<Fragment>, i: nat) returns (ins: Instruction)
    requires Mounted(pages, images) && AllWritten(images, fs) && Linked(fs)
    requires i + 1 < |fs|
    ensures var at := AddressOf(images, fs, i, |TokensOf(images, fs[i])|);
            Decode(pages, at.0, at.1) == Ok(ins) && ins.opcode == OP_JUMP
    ensures ins.sector in pages && ins.offset + ins.size <= |pages[ins.sector]|
    ensures LimitOf(pages, ins.sector).Some? && Next(pages, ins) == Ok(AddressOf(images, fs, i + 1, 0))
  {
    hide Split;
    hide Decode;
    hide Payload;
    hide TokensOf;
    var f, g := fs[i], fs[i + 1];
    assert LinkedAt(fs, i) && Written(images, f) && Written(images, g);
    AllTokensEnd(images, f);
    assert TokensOf(images, g)[..0] == [];
    JumpNames(g.sector);
    hide JumpBytes;
    hide UnpackBE;
    hide AllWritten;
    hide Linked;
    DecodesToken(pages, images, f.sector, f.end - 5, JumpBytes(g.sector, 0));
    ins := Decode(pages, f.sector, f.end - 5).value;
  }

  /** One step of the walker, followed by a run that executes `tokens`. */
  lemma WalkThenExecute(pages: Pages, at: Address, seen: set<Address>, fuel: nat, ins: Instruction, next: Address,
                        tokens: seq<Token>)
    requires Ahead(seen, at) && fuel > 0
    requires Decode(pages, at.0, at.1) == Ok(ins) && ins.opcode != OP_END && Next(pages, ins) == Ok(next)
    requires ins.sector in pages && ins.offset + ins.size <= |pages[ins.sector]|
    requires Executes(pages, WalkFrom(pages, next, seen + {at}, fuel - 1), tokens)
    ensures Executes(pages, WalkFrom(pages, at, seen, fuel),
                     if ins.opcode == OP_JUMP then tokens else [BytesOf(pages, ins)] + tokens)
  {
    hide Decode;
    hide Executes;
    assert at !in seen;
    ExecutesPrepend(pages, ins, WalkFrom(pages, next, seen + {at}, fuel - 1), tokens);
  }

  /** The last step of the walker. */
  lemma WalkEnds(pages: Pages, at: Address, seen: set<Address>, fuel: nat, ins: Instruction)
    requires Ahead(seen, at) && fuel > 0
    requires Decode(pages, at.0, at.1) == Ok(ins) && ins.opcode == OP_END
    requires ins.sector in pages && ins.offset + ins.size <= |pages[ins.sector]|
    ensures Executes(pages, WalkFrom(pages, at, seen, fuel), [BytesOf(pages, ins)])
  {
    hide Decode;
    assert at !in seen;
    assert [ins][1..] == [];
    assert Erase(pages, [ins]) == [BytesOf(pages, ins)] + Erase(pages, []);
  }

  /** The walk from token `n` of fragment `i` to END. */
  lemma {:induction false} WalkFragment(pages: Pages, images: Images, fs: seq<Fragment>,
                                        i: nat, n: nat, seen: set<Address>, fuel: nat)
    requires Mounted(pages, images) && AllWritten(images, fs) && Linked(fs)
    requires i < |fs| && n <= |TokensOf(images, fs[i])|
    requires Clean(TokensOf(images, fs[i])[n..] + TokensFrom(images, fs, i + 1))
    requires Ahead(seen, AddressOf(images, fs, i, n))
    requires fuel > |TokensOf(images, fs[i])| - n + |TokensFrom(images, fs, i + 1)| + (|fs| - i)
    ensures Executes(pages, WalkFrom(pages, AddressOf(images, fs, i, n), seen, fuel),
                     TokensOf(images, fs[i])[n..] + TokensFrom(images, fs, i + 1))
    decreases |fs| - i, |TokensOf(images, fs[i])| - n
  {
    hide Executes;
    hide Decode;
    hide TokensOf;
    hide Ahead;
    hide Mounted;
    hide AllWritten;
    hide WalkFrom;
    hide IsToken;
    var tokens, later := TokensOf(images, fs[i]), TokensFrom(images, fs, i + 1);
    var rest := tokens[n..] + later;
    var at := AddressOf(images, fs, i, n);
    if n == |tokens| {
      assert rest == later;
      assert i + 1 < |fs|;
      var ins := StepJump(pages, images, fs, i);
      var next := AddressOf(images, fs, i + 1, 0);
      assert LinkedAt(fs, i);
      AheadMoves(seen, at, next);
      assert later == TokensOf(images, fs[i + 1])[0..] + TokensFrom(images, fs, i + 2);
      WalkFragment(pages, images, fs, i + 1, 0, seen + {at}, fuel - 1);
      WalkThenExecute(pages, at, seen, fuel, ins, next, later);
    } else {
      assert rest == [tokens[n]] + (tokens[n + 1..] + later);
      assert rest[1..] == tokens[n + 1..] + later;
      HeadIsClean(rest);
      var ins := StepToken(pages, images, fs, i, n);
      if |rest| == 1 {
        assert rest == [tokens[n]];
        WalkEnds(pages, at, seen, fuel, ins);
      } else {
        CleanTail(rest);
        var next := AddressOf(images, fs, i, n + 1);
        NextIsInside(images, fs, i, n);
        AheadMoves(seen, at, next);
        WalkFragment(pages, images, fs, i, n + 1, seen + {at}, fuel - 1);
        WalkThenExecute(pages, at, seen, fuel, ins, next, tokens[n + 1..] + later);
      }
    }
  }

  lemma HeadIsClean(tokens: seq<Token>)
    requires Clean(tokens)
    ensures IsToken(tokens[0]) && tokens[0][0] != OP_JUMP
    ensures |tokens| == 1 ==> tokens[0] == [OP_END]
    ensures |tokens| > 1 ==> tokens[0][0] != OP_END
  {}

  /** While instructions remain, the next address is still inside the payload area. */
  lemma NextIsInside(images: Images, fs: seq<Fragment>, i: nat, n: nat)
    requires AllWritten(images, fs) && Linked(fs)
    requires i < |fs| && n < |TokensOf(images, fs[i])|
    requires TokensOf(images, fs[i])[n + 1..] + TokensFrom(images, fs, i + 1) != []
    ensures AddressOf(images, fs, i, n + 1).1 < PAGE_DATA_SIZE
  {
    hide Split;
    hide TokensOf;
    var f, tokens := fs[i], TokensOf(images, fs[i]);
    assert Written(images, f);
    if n + 1 < |tokens| {
      TokenBytes(images, f, n + 1);
    } else {
      AllTokensEnd(images, f);
      assert tokens[n + 1..] == [];
      assert i + 1 < |fs|;
      assert LinkedAt(fs, i);
    }
  }

  /** MAIN RESULT. A macro placed by the allocator runs to END from its allocated start:
      no cycle, no truncation, no fall-off and no instruction limit, and the executed
      instructions, JUMPs left out, are those of the source bytecode. */
  lemma LinkedMacroRuns(pages: Pages, images: Images, fs: seq<Fragment>, bytecode: seq<byte>)
    requires Mounted(pages, images) && Placed(images, fs, bytecode)
    requires Tokenize(bytecode).Ok? && Clean(Tokenize(bytecode).value)
    ensures Executes(pages, Walk(pages, (fs[0].sector, fs[0].offset)), Tokenize(bytecode).value)
  {
    hide Split;
    hide WalkFrom;
    hide Executes;
    TextTokens(images, fs, 0);
    WithinBudget(images, fs, bytecode);
    var tokens := TokensOf(images, fs[0]);
    assert tokens[..0] == [] && tokens[0..] == tokens;
    assert TokensFrom(images, fs, 0) == tokens + TokensFrom(images, fs, 1);
    WalkFragment(pages, images, fs, 0, 0, {}, MAX_INSTRUCTIONS);
  }
}
