/** The two CRC-16 implementations (polynomial 0x1021, initial value 0xFFFF):
    bit-serial in `codec.py`, byte-parallel in `libs/utils.py`. */
module Crc {
  import opened Bytes
  import opened CrcBits

  // ---------------------------------------------------------------- integers as registers
  // Binary digits, most significant first.

  function Append(c: bv16, digit: bool): bv16 {
    if digit then (c << 1) | 1 else c << 1
  }

  /** The register holding the low `k` binary digits of `n`. */
  function Digits(n: nat, k: nat): bv16 {
    if k == 0 then 0 else Append(Digits(n / 2, k - 1), n % 2 == 1)
  }

  function Widen(b: byte): bv16 { Digits(b, 8) }

  function Half(c: bv16): bv16 {
    c >> 1
  }

  predicate Odd(c: bv16) {
    c & 1 == 1
  }

  /** The number whose low `k` binary digits are those of `c`. */
  function Value(c: bv16, k: nat): nat {
    if k == 0 then 0 else 2 * Value(Half(c), k - 1) + if Odd(c) then 1 else 0
  }

  function Pow2(k: nat): nat {
    if k == 0 then 1 else 2 * Pow2(k - 1)
  }

  /** What remains of `c` above its low `k` digits. */
  function Above(c: bv16, k: nat): bv16 {
    if k == 0 then c else Above(Half(c), k - 1)
  }

  // ---------------------------------------------------------------- specification

  /** The register after a whole message, from register value `c`. */
  function Register(data: seq<byte>, c: bv16): bv16 {
    if data == [] then c else Register(data[1..], ByteStep(c, Widen(data[0])))
  }

  /** The checksum as an integer, from the initial value 0xFFFF. */
  function Crc16(data: seq<byte>): (n: nat)
    ensures n < 0x1_0000
  {
    ValueBelow(Register(data, 0xFFFF), 16);
    Powers();
    Value(Register(data, 0xFFFF), 16)
  }

  lemma {:induction false} RegisterConcat(a: seq<byte>, b: seq<byte>, c: bv16)
    ensures Register(a + b, c) == Register(b, Register(a, c))
  {
    hide ByteStep;
    if a == [] {
      assert a + b == b;
    } else {
      assert (a + b)[1..] == a[1..] + b;
      RegisterConcat(a[1..], b, ByteStep(c, Widen(a[0])));
    }
  }

  lemma RegisterSnoc(a: seq<byte>, b: byte, c: bv16)
    ensures Register(a + [b], c) == ByteStep(Register(a, c), Widen(b))
  {
    hide ByteStep;
    RegisterConcat(a, [b], c);
  }

  // ---------------------------------------------------------------- the two implementations

  /** `codec.crc16_ccitt`: a register shifted eight times a byte. */
  method BitSerial(data: seq<byte>) returns (crc: bv16)
    ensures crc == Register(data, 0xFFFF)
  {
    hide BitStep;
    crc := 0xFFFF;
    for i := 0 to |data|
      invariant crc == Register(data[..i], 0xFFFF)
    {
      RegisterSnoc(data[..i], data[i], 0xFFFF);
      assert data[..i + 1] == data[..i] + [data[i]];
      crc := crc ^ (Widen(data[i]) << 8);
      ghost var start := crc;
      for k := 0 to 8
        invariant crc == BitSteps(start, k)
      {
        BranchIsBitStep(crc);
        if crc & 0x8000 != 0 {
          crc := (crc << 1) ^ 0x1021;
        } else {
          crc := crc << 1;
        }
      }
    }
    assert data[..|data|] == data;
  }

  /** `libs.utils.crc16_ccitt`: two byte registers and no inner loop. */
  method ByteParallel(data: seq<byte>) returns (crc: bv16)
    ensures crc == Register(data, 0xFFFF)
  {
    hide ByteStep;
    hide Rejoined;
    hide Folded;
    var msb: bv16 := 0xFF;
    var lsb: bv16 := 0xFF;
    for i := 0 to |data|
      invariant msb <= 0xFF && lsb <= 0xFF
      invariant (msb << 8) ^ lsb == Register(data[..i], 0xFFFF)
    {
      ghost var w, msb0, lsb0 := Widen(data[i]), msb, lsb;
      WidenSmall(data[i]);
      ByteStepOnHalves(Register(data[..i], 0xFFFF), w, msb, lsb);
      RegisterSnoc(data[..i], data[i], 0xFFFF);
      assert data[..i + 1] == data[..i] + [data[i]];
      var x := Widen(data[i]) ^ msb;
      x := x ^ (x >> 4);
      FoldedIs(w ^ msb);
      msb := (lsb ^ (x >> 3) ^ (x << 4)) & 0xFF;
      lsb := (x ^ (x << 5)) & 0xFF;
      HalvesAssigned(lsb0, x, msb, lsb);
    }
    JoinIsSum(msb, lsb);
    crc := (msb << 8) + lsb;
    assert data[..|data|] == data;
  }

  // ---------------------------------------------------------------- digits

  lemma {:induction false} ValueBelow(c: bv16, k: nat)
    ensures Value(c, k) < Pow2(k)
  {
    if k > 0 {
      ValueBelow(Half(c), k - 1);
    }
  }

  lemma Powers()
    ensures Pow2(8) == 0x100 && Pow2(16) == 0x1_0000
  {
    assert Pow2(4) == 0x10 && Pow2(12) == 0x10 * Pow2(8);
  }

  /** The largest register of `k` digits, for one byte. */
  function Ones(k: nat): bv16 {
    match k
    case 0 => 0
    case 1 => 0x1
    case 2 => 0x3
    case 3 => 0x7
    case 4 => 0xF
    case 5 => 0x1F
    case 6 => 0x3F
    case 7 => 0x7F
    case _ => 0xFF
  }

  lemma AppendSmall(c: bv16, m: bv16, digit: bool)
    ensures c <= m && m <= 0x7F ==> Append(c, digit) <= Append(m, true)
  {}

  predicate Within(c: bv16, m: bv16) {
    c <= m
  }

  lemma AppendWithin(c: bv16, m: bv16, digit: bool, top: bv16)
    requires Within(c, m) && m <= 0x7F && top == Append(m, true)
    ensures Within(Append(c, digit), top)
  {
    hide Append;
    AppendSmall(c, m, digit);
  }

  lemma AppendInjective(c: bv16, x: bool, d: bv16, y: bool)
    ensures c <= 0x7F && d <= 0x7F && Append(c, x) == Append(d, y) ==> c == d && x == y
  {}

  lemma ZeroWithin(m: bv16)
    ensures Within(0, m)
  {}

  lemma OnesSmall(k: nat)
    requires 0 < k <= 8
    ensures Ones(k) == Append(Ones(k - 1), true) && Ones(k - 1) <= 0x7F
  {}

  lemma {:induction false} DigitsSmall(n: nat, k: nat)
    requires k <= 8
    ensures Within(Digits(n, k), Ones(k))
  {
    hide Within;
    ZeroWithin(Ones(k));
    hide Append;
    hide Ones;
    if k > 0 {
      DigitsSmall(n / 2, k - 1);
      OnesSmall(k);
      AppendWithin(Digits(n / 2, k - 1), Ones(k - 1), n % 2 == 1, Ones(k));
    }
  }

  lemma {:induction false} DigitsInjective(m: nat, n: nat, k: nat)
    requires k <= 8 && m < Pow2(k) && n < Pow2(k) && Digits(m, k) == Digits(n, k)
    ensures m == n
  {
    hide Append;
    if k > 0 {
      DigitsSmall(m / 2, k - 1);
      DigitsSmall(n / 2, k - 1);
      OnesSmall(k);
      AppendInjective(Digits(m / 2, k - 1), m % 2 == 1, Digits(n / 2, k - 1), n % 2 == 1);
      DigitsInjective(m / 2, n / 2, k - 1);
    }
  }

  lemma WidenSmall(b: byte)
    ensures Widen(b) <= 0xFF
  {
    DigitsSmall(b, 8);
  }

  lemma WidenInjective(a: byte, b: byte)
    requires Widen(a) == Widen(b)
    ensures a == b
  {
    Powers();
    DigitsInjective(a, b, 8);
  }

  lemma HalvesDetermine(c: bv16, d: bv16)
    ensures c >> 1 == d >> 1 && (c & 1 == 1 <==> d & 1 == 1) ==> c == d
  {}

  lemma HalfAndParity(c: bv16, d: bv16)
    requires Half(c) == Half(d) && (Odd(c) <==> Odd(d))
    ensures c == d
  {
    HalvesDetermine(c, d);
  }

  lemma {:induction false} ValueInjective(c: bv16, d: bv16, k: nat)
    requires Value(c, k) == Value(d, k) && Above(c, k) == Above(d, k)
    ensures c == d
    decreases k
  {
    hide Half;
    hide Odd;
    if k > 0 {
      ValueInjective(Half(c), Half(d), k - 1);
      HalfAndParity(c, d);
    }
  }

  lemma FourShifts(c: bv16)
    ensures c >> 1 >> 1 >> 1 >> 1 == c >> 4
  {}

  lemma FourHalves(c: bv16)
    ensures Half(Half(Half(Half(c)))) == c >> 4
  {
    FourShifts(c);
  }

  lemma ShiftedOut(c: bv16)
    ensures c >> 4 >> 4 >> 4 >> 4 == 0
  {}

  lemma AboveFour(c: bv16, k: nat)
    requires k >= 4
    ensures Above(c, k) == Above(c >> 4, k - 4)
  {
    hide Half;
    FourHalves(c);
    assert Above(c, k) == Above(Half(Half(c)), k - 2);
    assert Above(Half(Half(c)), k - 2) == Above(Half(Half(Half(Half(c)))), k - 4);
  }

  lemma NothingAbove(c: bv16)
    ensures Above(c, 16) == 0
  {
    hide Half;
    AboveFour(c, 16);
    AboveFour(c >> 4, 12);
    AboveFour(c >> 4 >> 4, 8);
    AboveFour(c >> 4 >> 4 >> 4, 4);
    ShiftedOut(c);
  }

  // ---------------------------------------------------------------- error detection

  /** A common tail never hides a difference. */
  lemma {:induction false} TailKeepsDifference(tail: seq<byte>, c: bv16, d: bv16)
    requires c != d
    ensures Register(tail, c) != Register(tail, d)
  {
    hide ByteStep;
    if tail != [] {
      var w := Widen(tail[0]);
      WidenSmall(tail[0]);
      if ByteStep(c, w) == ByteStep(d, w) {
        ByteStepInjective(c, w, d, w);
      }
      TailKeepsDifference(tail[1..], ByteStep(c, w), ByteStep(d, w));
    }
  }

  lemma OneByteKeepsDifference(c: bv16, a: byte, b: byte)
    requires a != b
    ensures Register([a], c) != Register([b], c)
  {
    hide ByteStep;
    WidenSmall(a);
    WidenSmall(b);
    if Register([a], c) == Register([b], c) {
      assert Register([a], c) == ByteStep(c, Widen(a));
      assert Register([b], c) == ByteStep(c, Widen(b));
      ByteStepInjective(c, Widen(a), c, Widen(b));
      WidenInjective(a, b);
    }
  }

  lemma TwoBytesKeepDifference(c: bv16, a: byte, b: byte, a': byte, b': byte)
    requires a != a' || b != b'
    ensures Register([a, b], c) != Register([a', b'], c)
  {
    hide ByteStep;
    WidenSmall(a);
    WidenSmall(b);
    WidenSmall(a');
    WidenSmall(b');
    var d, d' := ByteStep(c, Widen(a)), ByteStep(c, Widen(a'));
    assert [a, b][1..] == [b] && [a', b'][1..] == [b'];
    if Register([a, b], c) == Register([a', b'], c) {
      assert Register([b], d) == ByteStep(d, Widen(b));
      assert Register([b'], d') == ByteStep(d', Widen(b'));
      ByteStepInjective(d, Widen(b), d', Widen(b'));
      LowHalfSeparates(c, Widen(a), Widen(a'));
      WidenInjective(a, a');
      WidenInjective(b, b');
    }
  }

  lemma RegisterThroughMiddle(before: seq<byte>, middle: seq<byte>, after: seq<byte>)
    ensures Register(before + middle + after, 0xFFFF)
         == Register(after, Register(middle, Register(before, 0xFFFF)))
  {
    RegisterConcat(before + middle, after, 0xFFFF);
    RegisterConcat(before, middle, 0xFFFF);
  }

  lemma Crc16Injective(data: seq<byte>, other: seq<byte>)
    requires Crc16(data) == Crc16(other)
    ensures Register(data, 0xFFFF) == Register(other, 0xFFFF)
  {
    NothingAbove(Register(data, 0xFFFF));
    NothingAbove(Register(other, 0xFFFF));
    ValueInjective(Register(data, 0xFFFF), Register(other, 0xFFFF), 16);
  }

  /** Any corruption confined to one byte or two adjacent bytes changes the
      checksum, for messages of every length. */
  lemma DetectsShortBursts(data: seq<byte>, other: seq<byte>, i: nat)
    requires |data| == |other| && data != other
    requires forall k :: 0 <= k < |data| && k != i && k != i + 1 ==> data[k] == other[k]
    ensures Crc16(data) != Crc16(other)
  {
    hide Register;
    hide Crc16;
    var j :| 0 <= j < |data| && data[j] != other[j];
    var n := if i + 1 < |data| then i + 2 else i + 1;
    var before, after := data[..i], data[n..];
    var c := Register(before, 0xFFFF);
    assert data == before + data[i..n] + after;
    assert other == before + other[i..n] + after;
    RegisterThroughMiddle(before, data[i..n], after);
    RegisterThroughMiddle(before, other[i..n], after);
    if n == i + 1 {
      assert data[i..n] == [data[i]] && other[i..n] == [other[i]];
      OneByteKeepsDifference(c, data[i], other[i]);
    } else {
      assert data[i..n] == [data[i], data[i + 1]] && other[i..n] == [other[i], other[i + 1]];
      TwoBytesKeepDifference(c, data[i], data[i + 1], other[i], other[i + 1]);
    }
    TailKeepsDifference(after, Register(data[i..n], c), Register(other[i..n], c));
    if Crc16(data) == Crc16(other) {
      Crc16Injective(data, other);
    }
  }
}
