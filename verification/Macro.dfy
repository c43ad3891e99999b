/** Macro bytecode: opcodes, instruction sizes and the tokenizer of `codec.py`. */
module Macro {
  import opened Bytes

  const OP_WAIT_FOR_RELEASE: byte := 0x01
  const OP_REPEAT_WHILE_PRESSED: byte := 0x02
  const OP_ROLLER: byte := 0x20
  const OP_ACPAN: byte := 0x21
  const OP_DELAY: byte := 0x40
  const OP_KEY_DOWN: byte := 0x43
  const OP_KEY_UP: byte := 0x44
  const OP_CONSUMER_DOWN: byte := 0x45
  const OP_CONSUMER_UP: byte := 0x46
  const OP_JUMP: byte := 0x60
  const OP_XY: byte := 0x61
  const OP_END: byte := 0xFF

  predicate ThreeByte(op: byte) {
    op in {OP_ROLLER, OP_ACPAN, OP_DELAY, OP_KEY_DOWN, OP_KEY_UP, OP_CONSUMER_DOWN, OP_CONSUMER_UP, OP_XY}
  }

  /** Bytes of an instruction with this opcode; 0 for an unknown opcode. */
  function TokenSize(op: byte): (size: nat)
    ensures size in {0, 1, 3, 5}
  {
    if op == OP_WAIT_FOR_RELEASE || op == OP_REPEAT_WHILE_PRESSED || op == OP_END then 1
    else if ThreeByte(op) then 3
    else if op == OP_JUMP then 5
    else 0
  }

  type Token = seq<byte>

  predicate IsToken(t: Token) {
    t != [] && TokenSize(t[0]) == |t|
  }

  predicate AllTokens(tokens: seq<Token>) {
    forall i :: 0 <= i < |tokens| ==> IsToken(tokens[i])
  }

  datatype TokenError = UnknownOpcode | Truncated | NoEnd

  /** Cut bytes into instructions from the front. */
  function Split(b: seq<byte>): Result<seq<Token>, TokenError> {
    if b == [] then Ok([])
    else
      var size := TokenSize(b[0]);
      if size == 0 then Err(UnknownOpcode)
      else if size > |b| then Err(Truncated)
      else After([b[..size]], Split(b[size..]))
  }

  /** `front`, then the tokens of `rest` if it has any. */
  function After(front: seq<Token>, rest: Result<seq<Token>, TokenError>): Result<seq<Token>, TokenError> {
    match rest
    case Ok(tokens) => Ok(front + tokens)
    case Err(e) => Err(e)
  }

  lemma AfterAfter(a: seq<Token>, b: seq<Token>, rest: Result<seq<Token>, TokenError>)
    ensures After(a, After(b, rest)) == After(a + b, rest)
  {
    if rest.Ok? {
      assert a + (b + rest.value) == (a + b) + rest.value;
    }
  }

  lemma {:induction false} SplitSound(b: seq<byte>)
    requires Split(b).Ok?
    ensures Flatten(Split(b).value) == b
    ensures AllTokens(Split(b).value)
  {
    if b != [] {
      var size := TokenSize(b[0]);
      SplitSound(b[size..]);
      assert Split(b).value == [b[..size]] + Split(b[size..]).value;
      assert Split(b).value[1..] == Split(b[size..]).value;
      assert b == b[..size] + b[size..];
    }
  }

  predicate EndsInEnd(tokens: seq<Token>) {
    tokens != [] && tokens[|tokens| - 1] == [OP_END]
  }

  function Tokenize(b: seq<byte>): Result<seq<Token>, TokenError> {
    match Split(b)
    case Err(e) => Err(e)
    case Ok(tokens) => if EndsInEnd(tokens) then Ok(tokens) else Err(NoEnd)
  }

  /** Cutting at an instruction boundary cuts the token list. */
  lemma {:induction false} SplitConcat(a: seq<byte>, b: seq<byte>)
    requires Split(a).Ok?
    ensures Split(a + b) == After(Split(a).value, Split(b))
  {
    hide TokenSize;
    if a == [] {
      assert a + b == b;
      assert Split(b).Ok? ==> [] + Split(b).value == Split(b).value;
    } else {
      var size := TokenSize(a[0]);
      assert (a + b)[0] == a[0] && (a + b)[..size] == a[..size] && (a + b)[size..] == a[size..] + b;
      SplitConcat(a[size..], b);
      AfterAfter([a[..size]], Split(a[size..]).value, Split(b));
    }
  }

  lemma {:induction false} SplitOfFlatten(tokens: seq<Token>)
    requires AllTokens(tokens)
    ensures Split(Flatten(tokens)) == Ok(tokens)
  {
    if tokens != [] {
      assert tokens[0] in tokens && forall u :: u in tokens[1..] ==> u in tokens;
      SplitOfFlatten(tokens[1..]);
      SplitOne(tokens[0]);
      SplitConcat(tokens[0], Flatten(tokens[1..]));
      assert tokens == [tokens[0]] + tokens[1..];
    }
  }

  /** What tokenizing means, without running it: the one way to write the bytecode
      as instructions, the last of them END. */
  lemma TokenizeMeans(b: seq<byte>, tokens: seq<Token>)
    ensures Tokenize(b) == Ok(tokens)
       <==> Flatten(tokens) == b && EndsInEnd(tokens) && AllTokens(tokens)
  {
    if Tokenize(b) == Ok(tokens) {
      SplitSound(b);
    }
    if Flatten(tokens) == b && AllTokens(tokens) {
      SplitOfFlatten(tokens);
    }
  }

  lemma SplitOne(t: Token)
    requires IsToken(t)
    ensures Split(t) == Ok([t])
  {
    assert t[..|t|] == t && t[|t|..] == [] && Split([]) == Ok([]);
    assert [t] + [] == [t];
  }

  /** `codec.tokenize_macro`: one pass with a program counter. */
  method TokenizeMacro(bytecode: seq<byte>) returns (r: Result<seq<Token>, TokenError>)
    ensures r == Tokenize(bytecode)
  {
    var tokens: seq<Token> := [];
    var pc := 0;
    while pc < |bytecode|
      invariant 0 <= pc <= |bytecode|
      invariant Split(bytecode[..pc]) == Ok(tokens)
    {
      assert bytecode == bytecode[..pc] + bytecode[pc..];
      SplitConcat(bytecode[..pc], bytecode[pc..]);
      var op := bytecode[pc];
      var size := 0;
      if op == OP_WAIT_FOR_RELEASE || op == OP_REPEAT_WHILE_PRESSED || op == OP_END {
        size := 1;
      } else if ThreeByte(op) {
        size := 3;
      } else if op == OP_JUMP {
        size := 5;
      } else {
        return Err(UnknownOpcode);
      }
      if pc + size > |bytecode| {
        return Err(Truncated);
      }
      SplitOne(bytecode[pc..pc + size]);
      SplitConcat(bytecode[..pc], bytecode[pc..pc + size]);
      assert bytecode[..pc + size] == bytecode[..pc] + bytecode[pc..pc + size];
      tokens := tokens + [bytecode[pc..pc + size]];
      pc := pc + size;
    }
    assert bytecode[..pc] == bytecode;
    if tokens == [] || tokens[|tokens| - 1] != [OP_END] {
      return Err(NoEnd);
    }
    return Ok(tokens);
  }

  // ---------------------------------------------------------------- what the compiler emits

  /** A macro as the compiler writes it: no JUMP, and END only as the last instruction. */
  predicate Clean(tokens: seq<Token>) {
    EndsInEnd(tokens) &&
    AllTokens(tokens) &&
    forall i :: 0 <= i < |tokens| - 1 ==>
      IsToken(tokens[i]) && tokens[i][0] != OP_JUMP && tokens[i][0] != OP_END
  }

  predicate ShortTokens(tokens: seq<Token>) {
    forall t :: t in tokens ==> 1 <= |t| <= 3
  }

  lemma {:induction false} FlattenAtLeastCount(tokens: seq<Token>)
    requires AllTokens(tokens)
    ensures |tokens| <= |Flatten(tokens)|
  {
    if tokens != [] {
      assert tokens[0] in tokens && forall u :: u in tokens[1..] ==> u in tokens;
      FlattenAtLeastCount(tokens[1..]);
    }
  }
}
