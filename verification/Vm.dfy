/** The independent reader of macro pages: `decode_instruction` and `walk_macro`. */
module Vm {
  import opened Bytes
  import opened Macro
  import opened Sector

  type Pages = map<nat, seq<byte>>
  type Address = (nat, nat)

  /** `sector in ADDRESSABLE_MACRO_SECTORS`. */
  predicate Addressable(sector: nat) {
    6 <= sector < 16
  }

  datatype Instruction = Instruction(sector: nat, offset: nat, opcode: byte, size: nat, target: Option<Address>)

  datatype VmError =
    | OutsideStore | OutsidePayload | BadPageSize
    | TruncatedInstruction | BadJump | BadOpcode
    | JumpCycle | FallsOffPage | InstructionLimit

  /** The payload limit of the page holding `sector`. */
  function LimitOf(pages: Pages, sector: nat): Option<nat> {
    if Addressable(sector) && sector in pages then PayloadLimit(pages[sector]) else None
  }

  function Decode(pages: Pages, sector: nat, offset: nat): (r: Result<Instruction, VmError>)
    ensures r.Ok? ==> LimitOf(pages, sector).Some? && r.value.size == TokenSize(r.value.opcode) > 0
    ensures r.Ok? ==> offset + r.value.size <= LimitOf(pages, sector).value <= |pages[sector]|
    ensures r.Ok? ==> r.value.sector == sector && r.value.offset == offset
    ensures r.Ok? ==> r.value.opcode == pages[sector][offset]
    ensures r.Ok? ==> (r.value.target.Some? <==> r.value.opcode == OP_JUMP)
  {
    if !Addressable(sector) || sector !in pages then Err(OutsideStore)
    else
      var page := pages[sector];
      match PayloadLimit(page)
      case None => Err(BadPageSize)
      case Some(limit) =>
        if offset >= limit then Err(OutsidePayload)
        else
          var op := page[offset];
          if op == OP_END || op == OP_WAIT_FOR_RELEASE || op == OP_REPEAT_WHILE_PRESSED then
            Ok(Instruction(sector, offset, op, 1, None))
          else if op == OP_JUMP then
            if offset + 5 > limit then Err(TruncatedInstruction)
            else
              var targetSector := UnpackBE(page[offset + 1], page[offset + 2]);
              var targetOffset := UnpackBE(page[offset + 3], page[offset + 4]);
              if !Addressable(targetSector) || targetSector !in pages then Err(BadJump)
              else
                match PayloadLimit(pages[targetSector])
                case None => Err(BadPageSize)
                case Some(targetLimit) =>
                  if targetOffset >= targetLimit then Err(BadJump)
                  else Ok(Instruction(sector, offset, op, 5, Some((targetSector, targetOffset))))
          else if ThreeByte(op) then
            if offset + 3 > limit then Err(TruncatedInstruction)
            else Ok(Instruction(sector, offset, op, 3, None))
          else Err(BadOpcode)
  }

  /** Where execution goes after an instruction that is not END. */
  function Next(pages: Pages, ins: Instruction): Result<Address, VmError>
    requires LimitOf(pages, ins.sector).Some?
  {
    if ins.target.Some? then Ok(ins.target.value)
    else if ins.offset + ins.size >= LimitOf(pages, ins.sector).value then Err(FallsOffPage)
    else Ok((ins.sector, ins.offset + ins.size))
  }

  /** Follow instructions from an address for at most `fuel` steps. */
  function WalkFrom(pages: Pages, at: Address, seen: set<Address>, fuel: nat)
    : Result<seq<Instruction>, VmError>
    decreases fuel
  {
    if fuel == 0 then Err(InstructionLimit)
    else if at in seen then Err(JumpCycle)
    else
      match Decode(pages, at.0, at.1)
      case Err(e) => Err(e)
      case Ok(ins) =>
        if ins.opcode == OP_END then Ok([ins])
        else
          match Next(pages, ins)
          case Err(e) => Err(e)
          case Ok(next) => Prepend(ins, WalkFrom(pages, next, seen + {at}, fuel - 1))
  }

  function Prepend(ins: Instruction, rest: Result<seq<Instruction>, VmError>): Result<seq<Instruction>, VmError> {
    match rest
    case Err(e) => Err(e)
    case Ok(tail) => Ok([ins] + tail)
  }

  const MAX_INSTRUCTIONS: nat := 4096

  function Walk(pages: Pages, start: Address): Result<seq<Instruction>, VmError> {
    WalkFrom(pages, start, {}, MAX_INSTRUCTIONS)
  }

  function PrependAll(done: seq<Instruction>, rest: Result<seq<Instruction>, VmError>)
    : Result<seq<Instruction>, VmError>
  {
    match rest
    case Err(e) => Err(e)
    case Ok(tail) => Ok(done + tail)
  }

  lemma PrependAllOne(done: seq<Instruction>, ins: Instruction, rest: Result<seq<Instruction>, VmError>)
    ensures PrependAll(done, Prepend(ins, rest)) == PrependAll(done + [ins], rest)
  {
    if rest.Ok? {
      assert done + ([ins] + rest.value) == (done + [ins]) + rest.value;
    }
  }

  lemma WalkStep(pages: Pages, at: Address, seen: set<Address>, fuel: nat, ins: Instruction, next: Address,
                 done: seq<Instruction>)
    requires fuel > 0 && at !in seen && Decode(pages, at.0, at.1) == Ok(ins) && ins.opcode != OP_END
    requires Next(pages, ins) == Ok(next)
    ensures PrependAll(done, WalkFrom(pages, at, seen, fuel))
         == PrependAll(done + [ins], WalkFrom(pages, next, seen + {at}, fuel - 1))
  {
    hide Decode;
    PrependAllOne(done, ins, WalkFrom(pages, next, seen + {at}, fuel - 1));
  }

  /** The exits of one round of the loop. */
  lemma WalkStops(pages: Pages, at: Address, seen: set<Address>, fuel: nat)
    requires fuel > 0
    ensures at in seen ==> WalkFrom(pages, at, seen, fuel) == Err(JumpCycle)
    ensures at !in seen && Decode(pages, at.0, at.1).Err? ==>
              WalkFrom(pages, at, seen, fuel) == Err(Decode(pages, at.0, at.1).error)
    ensures at !in seen && Decode(pages, at.0, at.1).Ok? ==>
              var ins := Decode(pages, at.0, at.1).value;
              if ins.opcode == OP_END then WalkFrom(pages, at, seen, fuel) == Ok([ins])
              else Next(pages, ins).Err? ==> WalkFrom(pages, at, seen, fuel) == Err(Next(pages, ins).error)
  {
    hide Decode;
  }

  // ---------------------------------------------------------------- what a walk means

  /** A whole instruction lies at this address, inside the payload of its page. */
  predicate InstructionAt(pages: Pages, a: Address) {
    6 <= a.0 <= 15 && a.0 in pages && PayloadLimit(pages[a.0]).Some? &&
    var page, limit := pages[a.0], PayloadLimit(pages[a.0]).value;
    limit <= |page| && a.1 < limit && TokenSize(page[a.1]) > 0 && a.1 + TokenSize(page[a.1]) <= limit
  }

  function OpcodeAt(pages: Pages, a: Address): byte
    requires InstructionAt(pages, a)
  {
    pages[a.0][a.1]
  }

  /** Execution passes from `a` to `b`: the target of a JUMP, two big-endian words, or the
      next instruction of the same page, which must start before the payload ends. */
  predicate Follows(pages: Pages, a: Address, b: Address)
    requires InstructionAt(pages, a)
  {
    var page := pages[a.0];
    if OpcodeAt(pages, a) == OP_JUMP then
      b == (UnpackBE(page[a.1 + 1], page[a.1 + 2]), UnpackBE(page[a.1 + 3], page[a.1 + 4]))
    else
      b == (a.0, a.1 + TokenSize(page[a.1])) && b.1 < PayloadLimit(page).value
  }

  /** Execution passes along these addresses and stops at the last one, the first END. */
  ghost predicate Runs(pages: Pages, chain: seq<Address>) {
    && chain != [] && (forall i :: 0 <= i < |chain| ==> InstructionAt(pages, chain[i]))
    && (forall i :: 0 <= i < |chain| ==> (OpcodeAt(pages, chain[i]) == OP_END <==> i == |chain| - 1))
    && forall i :: 0 <= i < |chain| - 1 ==> Follows(pages, chain[i], chain[i + 1])
  }

  ghost predicate Distinct(chain: seq<Address>) {
    forall i, j :: 0 <= i < j < |chain| ==> chain[i] != chain[j]
  }

  ghost predicate Avoids(chain: seq<Address>, seen: set<Address>) {
    forall i :: 0 <= i < |chain| ==> chain[i] !in seen
  }

  /** A macro that starts here runs to END: at most 4096 instructions, none of them twice. */
  ghost predicate IsRun(pages: Pages, start: Address, chain: seq<Address>) {
    Runs(pages, chain) && chain[0] == start && Distinct(chain) && |chain| <= MAX_INSTRUCTIONS
  }

  ghost predicate RunsToEnd(pages: Pages, start: Address) {
    exists chain :: IsRun(pages, start, chain)
  }

  function Addresses(walked: seq<Instruction>): seq<Address> {
    seq(|walked|, i requires 0 <= i < |walked| => (walked[i].sector, walked[i].offset))
  }

  /** Decoding reads the instruction that lies there. */
  lemma DecodeReads(pages: Pages, a: Address)
    ensures Decode(pages, a.0, a.1).Ok? ==>
              var ins := Decode(pages, a.0, a.1).value;
              && InstructionAt(pages, a) && ins.opcode == OpcodeAt(pages, a)
              && (ins.opcode != OP_END ==> forall b :: Next(pages, ins) == Ok(b) <==> Follows(pages, a, b))
    ensures InstructionAt(pages, a) && OpcodeAt(pages, a) != OP_JUMP ==> Decode(pages, a.0, a.1).Ok?
    ensures InstructionAt(pages, a) && OpcodeAt(pages, a) == OP_JUMP ==>
              forall b :: Follows(pages, a, b) && InstructionAt(pages, b) ==> Decode(pages, a.0, a.1).Ok?
  {
    hide PayloadLimit;
  }

  lemma RunsPrepend(pages: Pages, a: Address, rest: seq<Address>)
    requires Runs(pages, rest) && InstructionAt(pages, a)
    requires OpcodeAt(pages, a) != OP_END && Follows(pages, a, rest[0])
    ensures Runs(pages, [a] + rest)
  {
    hide InstructionAt;
    hide OpcodeAt;
    hide Follows;
    var chain := [a] + rest;
    assert forall i :: 0 < i < |chain| ==> chain[i] == rest[i - 1];
  }

  lemma RunsTail(pages: Pages, chain: seq<Address>)
    requires Runs(pages, chain) && |chain| > 1
    ensures Runs(pages, chain[1..])
  {
    hide InstructionAt;
    hide OpcodeAt;
    hide Follows;
    var rest := chain[1..];
    assert forall i :: 0 <= i < |rest| ==> rest[i] == chain[i + 1];
  }

  lemma {:induction false} WalkIsRun(pages: Pages, at: Address, seen: set<Address>, fuel: nat)
    requires WalkFrom(pages, at, seen, fuel).Ok?
    ensures var chain := Addresses(WalkFrom(pages, at, seen, fuel).value);
            Runs(pages, chain) && chain[0] == at && Distinct(chain) && Avoids(chain, seen) && |chain| <= fuel
    decreases fuel
  {
    hide Decode;
    hide Next;
    hide InstructionAt;
    hide Follows;
    DecodeReads(pages, at);
    var ins := Decode(pages, at.0, at.1).value;
    if ins.opcode == OP_END {
      assert Addresses([ins]) == [at];
    } else {
      var next := Next(pages, ins).value;
      WalkIsRun(pages, next, seen + {at}, fuel - 1);
      var rest := WalkFrom(pages, next, seen + {at}, fuel - 1).value;
      assert Addresses([ins] + rest) == [at] + Addresses(rest);
      RunsPrepend(pages, at, Addresses(rest));
    }
  }

  lemma {:induction false} RunIsWalk(pages: Pages, chain: seq<Address>, seen: set<Address>, fuel: nat)
    requires Runs(pages, chain) && Distinct(chain) && Avoids(chain, seen) && |chain| <= fuel
    ensures WalkFrom(pages, chain[0], seen, fuel).Ok?
    ensures Addresses(WalkFrom(pages, chain[0], seen, fuel).value) == chain
    decreases fuel
  {
    hide Decode;
    hide Next;
    hide InstructionAt;
    hide Follows;
    var at := chain[0];
    DecodeReads(pages, at);
    if |chain| == 1 {
      var ins := Decode(pages, at.0, at.1).value;
      assert Addresses([ins]) == chain;
    } else {
      assert Follows(pages, at, chain[1]) && InstructionAt(pages, chain[1]);
      var ins := Decode(pages, at.0, at.1).value;
      RunsTail(pages, chain);
      RunIsWalk(pages, chain[1..], seen + {at}, fuel - 1);
      var rest := WalkFrom(pages, chain[1], seen + {at}, fuel - 1).value;
      assert Addresses([ins] + rest) == [at] + Addresses(rest) == chain;
    }
  }

  /** MAIN RESULT. On any pages, written by the allocator or not, a walk succeeds if and only
      if a run from this address to END exists, and it visits exactly that run. */
  lemma WalkMeans(pages: Pages, start: Address)
    ensures Walk(pages, start).Ok? <==> RunsToEnd(pages, start)
    ensures Walk(pages, start).Ok? ==> IsRun(pages, start, Addresses(Walk(pages, start).value))
    ensures forall chain :: IsRun(pages, start, chain) ==> chain == Addresses(Walk(pages, start).value)
  {
    hide Runs;
    hide WalkFrom;
    if Walk(pages, start).Ok? {
      WalkIsRun(pages, start, {}, MAX_INSTRUCTIONS);
      assert IsRun(pages, start, Addresses(Walk(pages, start).value));
    }
    forall chain | IsRun(pages, start, chain)
      ensures Walk(pages, start).Ok? && chain == Addresses(Walk(pages, start).value)
    {
      RunIsWalk(pages, chain, {}, MAX_INSTRUCTIONS);
    }
  }

  /** `codec.walk_macro`: the loop with its visited set and instruction budget. */
  method WalkMacro(pages: Pages, start: Address) returns (r: Result<seq<Instruction>, VmError>)
    ensures r == Walk(pages, start)
    ensures r.Ok? <==> RunsToEnd(pages, start)
    ensures r.Ok? ==> IsRun(pages, start, Addresses(r.value))
  {
    hide Decode;
    hide WalkFrom;
    hide IsRun;
    WalkMeans(pages, start);
    var at := start;
    var seen: set<Address> := {};
    var result: seq<Instruction> := [];
    assert forall s: seq<Instruction> :: [] + s == s;
    for count := 0 to MAX_INSTRUCTIONS
      invariant Walk(pages, start) == PrependAll(result, WalkFrom(pages, at, seen, MAX_INSTRUCTIONS - count))
    {
      WalkStops(pages, at, seen, MAX_INSTRUCTIONS - count);
      if at in seen {
        return Err(JumpCycle);
      }
      var ins: Instruction;
      match Decode(pages, at.0, at.1) {
        case Err(e) => return Err(e);
        case Ok(decoded) => ins := decoded;
      }
      if ins.opcode == OP_END {
        return Ok(result + [ins]);
      }
      var next: Address;
      if ins.target.Some? {
        next := ins.target.value;
      } else if ins.offset + ins.size >= PayloadLimit(pages[ins.sector]).value {
        return Err(FallsOffPage);
      } else {
        next := (ins.sector, ins.offset + ins.size);
      }
      WalkStep(pages, at, seen, MAX_INSTRUCTIONS - count, ins, next, result);
      seen, result, at := seen + {at}, result + [ins], next;
    }
    WalkOutOfFuel(pages, at, seen);
    return Err(InstructionLimit);
  }

  lemma WalkOutOfFuel(pages: Pages, at: Address, seen: set<Address>)
    ensures WalkFrom(pages, at, seen, 0) == Err(InstructionLimit)
  {}

  /** The bytes an instruction was decoded from. */
  function BytesOf(pages: Pages, ins: Instruction): Token
    requires ins.sector in pages && ins.offset + ins.size <= |pages[ins.sector]|
  {
    pages[ins.sector][ins.offset..ins.offset + ins.size]
  }

  predicate Readable(pages: Pages, chain: seq<Instruction>) {
    forall i :: 0 <= i < |chain| ==>
      chain[i].sector in pages && chain[i].offset + chain[i].size <= |pages[chain[i].sector]|
  }

  /** The executed instructions with the JUMPs left out. */
  function Erase(pages: Pages, chain: seq<Instruction>): seq<Token>
    requires Readable(pages, chain)
  {
    if chain == [] then []
    else
      assert Readable(pages, chain[1..]);
      if chain[0].opcode == OP_JUMP then Erase(pages, chain[1..])
      else [BytesOf(pages, chain[0])] + Erase(pages, chain[1..])
  }
}
