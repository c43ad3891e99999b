/** Preparation identifiers: a caller's text, '#', and the issuance serial in hexadecimal. */
module Ids {

  function HexDigit(n: nat): char
    requires n < 16
  {
    "0123456789abcdef"[n]
  }

  /** A character's value as a hexadecimal digit; any other character counts as 0. */
  function DigitValue(c: char): (n: nat)
    ensures n < 16
  {
    if '0' <= c <= '9' then (c - '0') as int
    else if 'a' <= c <= 'f' then (c - 'a') as int + 10
    else 0
  }

  /** `format(n, "x")`. */
  function Hex(n: nat): (s: string)
    ensures |s| >= 1
  {
    if n < 16 then [HexDigit(n)] else Hex(n / 16) + [HexDigit(n % 16)]
  }

  /** `format(n, "016x")`. */
  function Padded(n: nat): string {
    var s := Hex(n);
    if |s| >= 16 then s else seq(16 - |s|, _ => '0') + s
  }

  /** `_issued_preparation_id`, for a given value of the serial counter. */
  function IssuedId(candidate: string, serial: nat): string {
    candidate + "#" + Padded(serial)
  }

  /** The number written after the last '#'. */
  function SerialOf(id: string): nat {
    if id == "" || id[|id| - 1] == '#' then 0
    else 16 * SerialOf(id[..|id| - 1]) + DigitValue(id[|id| - 1])
  }

  lemma DigitsRoundTrip(n: nat)
    requires n < 16
    ensures HexDigit(n) != '#' && DigitValue(HexDigit(n)) == n
  {}

  lemma {:induction false} ZerosAreWorthless(prefix: string, k: nat)
    requires prefix != "" && prefix[|prefix| - 1] == '#'
    ensures SerialOf(prefix + seq(k, _ => '0')) == 0
  {
    var s := prefix + seq(k, _ => '0');
    if k == 0 {
      assert s == prefix;
    } else {
      ZerosAreWorthless(prefix, k - 1);
      assert s[..|s| - 1] == prefix + seq(k - 1, _ => '0');
    }
  }

  lemma {:induction false} HexIsRead(prefix: string, n: nat)
    requires SerialOf(prefix) == 0
    ensures SerialOf(prefix + Hex(n)) == n
  {
    hide DigitValue;
    hide HexDigit;
    var s := prefix + Hex(n);
    if n < 16 {
      DigitsRoundTrip(n);
      assert s[..|s| - 1] == prefix;
    } else {
      DigitsRoundTrip(n % 16);
      HexIsRead(prefix, n / 16);
      assert s[..|s| - 1] == prefix + Hex(n / 16);
    }
  }

  /** Whatever the caller's text is, repeated or containing '#', the serial can be read back. */
  lemma SerialIsRecovered(candidate: string, serial: nat)
    ensures SerialOf(IssuedId(candidate, serial)) == serial
  {
    hide SerialOf;
    hide Hex;
    var prefix := candidate + "#";
    var k := if |Hex(serial)| < 16 then 16 - |Hex(serial)| else 0;
    var zeros := seq(k, _ => '0');
    ZerosAreWorthless(prefix, k);
    HexIsRead(prefix + zeros, serial);
    assert prefix + zeros + Hex(serial) == candidate + "#" + (zeros + Hex(serial));
    assert zeros + Hex(serial) == Padded(serial);
  }

  /** MAIN RESULT. No two issuances ever share an identifier. */
  lemma IssuedIdsNeverRepeat(a: string, m: nat, b: string, n: nat)
    ensures IssuedId(a, m) == IssuedId(b, n) <==> a == b && m == n
  {
    SerialIsRecovered(a, m);
    SerialIsRecovered(b, n);
    if IssuedId(a, m) == IssuedId(b, n) {
      assert a == IssuedId(a, m)[..|IssuedId(a, m)| - |Padded(m)| - 1];
      assert b == IssuedId(b, n)[..|IssuedId(b, n)| - |Padded(n)| - 1];
    }
  }
}
