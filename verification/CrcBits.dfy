/** Bit-vector identities of the 16-bit register with polynomial 0x1021.
    Integers stay out of this module: each identity is one solver query. */
module CrcBits {

  /** Shift one bit through the register: the bit `t` shifted out is folded back at
      the three terms of the polynomial, 12, 5 and 0. */
  function BitStep(c: bv16): bv16 {
    (c << 1) ^ ((c >> 15) << 12) ^ ((c >> 15) << 5) ^ (c >> 15)
  }

  function BitSteps(c: bv16, n: nat): bv16 {
    if n == 0 then c else BitStep(BitSteps(c, n - 1))
  }

  /** The branch of the bit-serial loop is the same step. */
  lemma BranchIsBitStep(c: bv16)
    ensures c & 0x8000 != 0 ==> BitStep(c) == (c << 1) ^ 0x1021
    ensures c & 0x8000 == 0 ==> BitStep(c) == c << 1
  {
    TopBit(c);
    FoldedBack(c, c >> 15);
  }

  lemma TopBit(c: bv16)
    ensures if c & 0x8000 != 0 then c >> 15 == 1 else c >> 15 == 0
  {}

  lemma FoldedBack(c: bv16, t: bv16)
    ensures t == 1 ==> (c << 1) ^ 0x1021 == (c << 1) ^ (t << 12) ^ (t << 5) ^ t
    ensures t == 0 ==> c << 1 == (c << 1) ^ (t << 12) ^ (t << 5) ^ t
  {}

  // ---------------------------------------------------------------- two, four, eight steps at once

  function Two(c: bv16): bv16 {
    (c << 2) ^ ((c >> 14) << 12) ^ ((c >> 14) << 5) ^ (c >> 14)
  }

  function Four(c: bv16): bv16 {
    (c << 4) ^ ((c >> 12) << 12) ^ ((c >> 12) << 5) ^ (c >> 12)
  }

  /** Eight steps: one shift by a byte and three folded copies of a byte `y`. */
  function Eight(c: bv16): bv16 {
    var x := c >> 8;
    var y := x ^ (x >> 4);
    (c << 8) ^ (y << 12) ^ (y << 5) ^ y
  }

  lemma TwoBits(c: bv16)
    ensures var d := (c << 1) ^ ((c >> 15) << 12) ^ ((c >> 15) << 5) ^ (c >> 15);
            (d << 1) ^ ((d >> 15) << 12) ^ ((d >> 15) << 5) ^ (d >> 15)
            == (c << 2) ^ ((c >> 14) << 12) ^ ((c >> 14) << 5) ^ (c >> 14)
  {}

  lemma FourBits(c: bv16)
    ensures var d := (c << 2) ^ ((c >> 14) << 12) ^ ((c >> 14) << 5) ^ (c >> 14);
            (d << 2) ^ ((d >> 14) << 12) ^ ((d >> 14) << 5) ^ (d >> 14)
            == (c << 4) ^ ((c >> 12) << 12) ^ ((c >> 12) << 5) ^ (c >> 12)
  {}

  lemma EightBits(c: bv16)
    ensures var d := (c << 4) ^ ((c >> 12) << 12) ^ ((c >> 12) << 5) ^ (c >> 12);
            (d << 4) ^ ((d >> 12) << 12) ^ ((d >> 12) << 5) ^ (d >> 12)
            == var x := c >> 8; var y := x ^ (x >> 4); (c << 8) ^ (y << 12) ^ (y << 5) ^ y
  {}

  lemma BitStepTwice(c: bv16, d: bv16)
    requires d == BitStep(c)
    ensures BitStep(d) == Two(c)
  {
    TwoBits(c);
  }

  lemma TwoTwice(c: bv16, d: bv16)
    requires d == Two(c)
    ensures Two(d) == Four(c)
  {
    FourBits(c);
  }

  lemma FourTwice(c: bv16, d: bv16)
    requires d == Four(c)
    ensures Four(d) == Eight(c)
  {
    EightBits(c);
  }

  lemma TwoSteps(c: bv16, n: nat)
    ensures BitSteps(c, n + 2) == Two(BitSteps(c, n))
  {
    hide BitStep;
    hide Two;
    BitStepTwice(BitSteps(c, n), BitSteps(c, n + 1));
  }

  lemma EightSteps(c: bv16)
    ensures BitSteps(c, 8) == Eight(c)
  {
    hide BitStep;
    hide Two;
    hide Four;
    hide Eight;
    TwoSteps(c, 0);
    TwoSteps(c, 2);
    TwoSteps(c, 4);
    TwoSteps(c, 6);
    TwoTwice(c, BitSteps(c, 2));
    TwoTwice(BitSteps(c, 4), BitSteps(c, 6));
    FourTwice(c, BitSteps(c, 4));
  }

  // ---------------------------------------------------------------- the byte-parallel form

  /** The register with message byte `w` added to its high half. */
  function Mix(c: bv16, w: bv16): bv16 {
    c ^ (w << 8)
  }

  /** One message byte: eight steps after mixing it in. */
  function ByteStep(c: bv16, w: bv16): bv16 {
    BitSteps(Mix(c, w), 8)
  }

  function Folded(x: bv16): bv16 {
    x ^ (x >> 4)
  }

  /** The two new halves, computed from the old low half and a folded byte, joined. */
  function Rejoined(lsb: bv16, y: bv16): bv16 {
    (((lsb ^ (y >> 3) ^ (y << 4)) & 0xFF) << 8) ^ ((y ^ (y << 5)) & 0xFF)
  }

  lemma RejoinedBits(c: bv16, w: bv16)
    ensures (var s := c ^ ((w & 0xFF) << 8); var x := s >> 8; var y := x ^ (x >> 4);
             (s << 8) ^ (y << 12) ^ (y << 5) ^ y)
         == Rejoined(c & 0xFF, (w & 0xFF) ^ (c >> 8) ^ (((w & 0xFF) ^ (c >> 8)) >> 4))
  {}

  lemma MaskedRejoined(c: bv16, w: bv16)
    ensures Eight(c ^ ((w & 0xFF) << 8))
         == Rejoined(c & 0xFF, (w & 0xFF) ^ (c >> 8) ^ (((w & 0xFF) ^ (c >> 8)) >> 4))
  {
    hide Rejoined;
    RejoinedBits(c, w);
  }

  lemma MaskOfSmall(w: bv16)
    ensures w <= 0xFF ==> w & 0xFF == w
  {}

  lemma FoldedIs(x: bv16)
    ensures Folded(x) == x ^ (x >> 4)
  {}

  /** Eight bit-serial steps are one byte-parallel step. */
  lemma ByteStepIsParallel(c: bv16, w: bv16)
    requires w <= 0xFF
    ensures ByteStep(c, w) == Rejoined(c & 0xFF, Folded(w ^ (c >> 8)))
  {
    hide Eight;
    hide Rejoined;
    hide Folded;
    hide BitSteps;
    MaskOfSmall(w);
    MaskedRejoined(c, w);
    FoldedIs(w ^ (c >> 8));
    EightSteps(Mix(c, w));
  }

  lemma Halves(msb: bv16, lsb: bv16, c: bv16)
    requires msb <= 0xFF && lsb <= 0xFF && c == (msb << 8) ^ lsb
    ensures c >> 8 == msb && c & 0xFF == lsb
  {}

  /** The same step on the two halves kept apart, as the byte-parallel loop keeps them. */
  lemma ByteStepOnHalves(c: bv16, w: bv16, msb: bv16, lsb: bv16)
    requires msb <= 0xFF && lsb <= 0xFF && w <= 0xFF && c == (msb << 8) ^ lsb
    ensures ByteStep(c, w) == Rejoined(lsb, Folded(w ^ msb))
  {
    hide ByteStep;
    hide Rejoined;
    hide Folded;
    Halves(msb, lsb, c);
    ByteStepIsParallel(c, w);
  }

  lemma HalvesAssigned(lsb: bv16, y: bv16, high: bv16, low: bv16)
    requires high == (lsb ^ (y >> 3) ^ (y << 4)) & 0xFF && low == (y ^ (y << 5)) & 0xFF
    ensures Rejoined(lsb, y) == (high << 8) ^ low
    ensures high <= 0xFF && low <= 0xFF
  {}

  lemma JoinIsSum(msb: bv16, lsb: bv16)
    ensures lsb <= 0xFF ==> (msb << 8) ^ lsb == (msb << 8) + lsb
  {}

  // ---------------------------------------------------------------- injectivity

  lemma EightBitsInjective(c: bv16, d: bv16)
    ensures ((var x := c >> 8; var y := x ^ (x >> 4); (c << 8) ^ (y << 12) ^ (y << 5) ^ y)
             == (var x := d >> 8; var y := x ^ (x >> 4); (d << 8) ^ (y << 12) ^ (y << 5) ^ y))
        ==> c == d
  {}

  lemma EightInjective(c: bv16, d: bv16)
    requires Eight(c) == Eight(d)
    ensures c == d
  {
    EightBitsInjective(c, d);
  }

  lemma MixedBits(c: bv16, v: bv16, d: bv16, w: bv16)
    ensures v <= 0xFF && w <= 0xFF && c ^ (v << 8) == d ^ (w << 8)
        ==> c & 0xFF == d & 0xFF && (c == d <==> v == w)
  {}

  lemma MixInjective(c: bv16, v: bv16, d: bv16, w: bv16)
    requires v <= 0xFF && w <= 0xFF && Mix(c, v) == Mix(d, w)
    ensures c & 0xFF == d & 0xFF
    ensures c == d <==> v == w
  {
    MixedBits(c, v, d, w);
  }

  /** Equal registers after one byte: the registers before agree in their low half,
      and they agree entirely exactly when the bytes do. */
  lemma ByteStepInjective(c: bv16, v: bv16, d: bv16, w: bv16)
    requires v <= 0xFF && w <= 0xFF && ByteStep(c, v) == ByteStep(d, w)
    ensures c & 0xFF == d & 0xFF
    ensures c == d <==> v == w
  {
    hide Eight;
    hide BitSteps;
    hide Mix;
    EightSteps(Mix(c, v));
    EightSteps(Mix(d, w));
    EightInjective(Mix(c, v), Mix(d, w));
    MixInjective(c, v, d, w);
  }

  lemma LowOfRejoined(l: bv16, y: bv16)
    ensures Rejoined(l, y) & 0xFF == (y ^ (y << 5)) & 0xFF
  {}

  lemma LowInjective(y: bv16, z: bv16)
    requires y <= 0xFF && z <= 0xFF && (y ^ (y << 5)) & 0xFF == (z ^ (z << 5)) & 0xFF
    ensures y == z
  {}

  lemma FoldedBits(x: bv16, u: bv16)
    ensures x <= 0xFF && u <= 0xFF && x ^ (x >> 4) == u ^ (u >> 4) ==> x == u
  {}

  lemma FoldedSmall(x: bv16)
    ensures x <= 0xFF ==> Folded(x) <= 0xFF
  {}

  lemma FoldedInjective(x: bv16, u: bv16)
    requires x <= 0xFF && u <= 0xFF && Folded(x) == Folded(u)
    ensures x == u
  {
    FoldedBits(x, u);
  }

  lemma MixHalf(t: bv16, v: bv16, w: bv16)
    ensures v ^ (t >> 8) == w ^ (t >> 8) ==> v == w
    ensures v <= 0xFF ==> v ^ (t >> 8) <= 0xFF
  {}

  /** The low half alone separates two bytes fed to the same register. */
  lemma LowHalfSeparates(c: bv16, v: bv16, w: bv16)
    requires v <= 0xFF && w <= 0xFF && ByteStep(c, v) & 0xFF == ByteStep(c, w) & 0xFF
    ensures v == w
  {
    hide ByteStep;
    hide Rejoined;
    hide Folded;
    ByteStepIsParallel(c, v);
    ByteStepIsParallel(c, w);
    var x, u := v ^ (c >> 8), w ^ (c >> 8);
    LowOfRejoined(c & 0xFF, Folded(x));
    LowOfRejoined(c & 0xFF, Folded(u));
    MixHalf(c, v, w);
    MixHalf(c, w, v);
    FoldedSmall(x);
    FoldedSmall(u);
    LowInjective(Folded(x), Folded(u));
    FoldedInjective(x, u);
  }
}
