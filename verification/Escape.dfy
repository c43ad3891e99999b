/** The `\xNN` text form of bytes: `escape_bytes` and `unescape_bytes` of `libs/utils.py`. */
module Escape {
  import opened Bytes
  import Ids

  predicate IsHex(c: char) {
    '0' <= c <= '9' || 'a' <= c <= 'f' || 'A' <= c <= 'F'
  }

  function LowerHex(c: char): (r: char) {
    if 'A' <= c <= 'F' then (c - 'A') + 'a' else c
  }

  function Token(b: byte): (r: string)
    ensures |r| == 4
  {
    ['\\', 'x', Ids.HexDigit(b / 16), Ids.HexDigit(b % 16)]
  }

  /** `escape_bytes`. */
  function EscapeBytes(data: seq<byte>): (r: string)
    ensures |r| == 4 * |data|
  {
    if data == [] then "" else EscapeBytes(data[..|data| - 1]) + Token(data[|data| - 1])
  }

  predicate TokenOk(t: string) {
    |t| == 4 && t[0] == '\\' && t[1] == 'x' && IsHex(t[2]) && IsHex(t[3])
  }

  function TokenValue(t: string): byte
    requires |t| == 4
  {
    16 * Ids.DigitValue(LowerHex(t[2])) + Ids.DigitValue(LowerHex(t[3]))
  }

  /** Text made of whole tokens only. */
  predicate Escaped(value: string) {
    |value| % 4 == 0 && forall k :: 0 <= k < |value| / 4 ==> TokenOk(value[4 * k..4 * k + 4])
  }

  /** The same text with its digits in lower case. */
  function Canonical(value: string): string {
    seq(|value|, i requires 0 <= i < |value| => LowerHex(value[i]))
  }

  lemma TokenRoundTrip(b: byte)
    ensures TokenOk(Token(b)) && TokenValue(Token(b)) == b
  {
    Ids.DigitsRoundTrip(b / 16);
    Ids.DigitsRoundTrip(b % 16);
    DigitIsHex(b / 16);
    DigitIsHex(b % 16);
  }

  lemma DigitIsHex(n: nat)
    requires n < 16
    ensures IsHex(Ids.HexDigit(n)) && LowerHex(Ids.HexDigit(n)) == Ids.HexDigit(n)
  {
  }

  lemma DigitOfValue(c: char)
    requires IsHex(c)
    ensures Ids.HexDigit(Ids.DigitValue(LowerHex(c))) == LowerHex(c)
  {
    assert Ids.HexDigit(0) == '0' && Ids.HexDigit(9) == '9' && Ids.HexDigit(10) == 'a' && Ids.HexDigit(15) == 'f';
  }

  /** `unescape_bytes`: exactly the text made of whole tokens is decoded, and escaping the
      result again gives that text with its digits in lower case. */
  method UnescapeBytes(value: string) returns (r: Option<seq<byte>>)
    ensures r.Some? <==> Escaped(value)
    ensures r.Some? ==> EscapeBytes(r.value) == Canonical(value)
  {
    if |value| % 4 != 0 {
      return None;
    }
    hide TokenOk;
    hide TokenValue;
    hide Token;
    hide LowerHex;
    var out: seq<byte> := [];
    while 4 * |out| < |value|
      invariant 4 * |out| <= |value|
      invariant forall k :: 0 <= k < |out| ==> TokenOk(value[4 * k..4 * k + 4])
      invariant EscapeBytes(out) == Canonical(value[..4 * |out|])
      decreases |value| - 4 * |out|
    {
      var at := 4 * |out|;
      var token := value[at..at + 4];
      if !TokenOk(token) {
        return None;
      }
      TokenOfValue(token);
      var more := out + [TokenValue(token)];
      assert more[..|more| - 1] == out;
      assert value[..at + 4] == value[..at] + token;
      CanonicalConcat(value[..at], token);
      out := more;
    }
    assert value[..4 * |out|] == value;
    return Some(out);
  }

  lemma CanonicalConcat(a: string, b: string)
    ensures Canonical(a + b) == Canonical(a) + Canonical(b)
  {
  }

  lemma Recombine(hi: nat, lo: nat)
    requires lo < 16
    ensures (16 * hi + lo) / 16 == hi && (16 * hi + lo) % 16 == lo
  {
  }

  lemma PrefixIsLower()
    ensures LowerHex('\\') == '\\' && LowerHex('x') == 'x'
  {
  }

  lemma TokenOfValue(t: string)
    requires TokenOk(t)
    ensures Token(TokenValue(t)) == Canonical(t)
  {
    hide Ids.HexDigit;
    hide Ids.DigitValue;
    hide LowerHex;
    hide IsHex;
    DigitOfValue(t[2]);
    DigitOfValue(t[3]);
    Recombine(Ids.DigitValue(LowerHex(t[2])), Ids.DigitValue(LowerHex(t[3])));
    PrefixIsLower();
  }

  /** Escaped text is accepted, and is already in lower case. */
  lemma {:induction false} EscapedIsAccepted(data: seq<byte>)
    ensures Escaped(EscapeBytes(data)) && Canonical(EscapeBytes(data)) == EscapeBytes(data)
  {
    if data != [] {
      hide TokenOk;
      hide Token;
      hide TokenValue;
      hide LowerHex;
      var init, last := data[..|data| - 1], data[|data| - 1];
      EscapedIsAccepted(init);
      TokenRoundTrip(last);
      TokenOfValue(Token(last));
      CanonicalConcat(EscapeBytes(init), Token(last));
      LastToken(EscapeBytes(init), Token(last));
    }
  }

  /** MAIN RESULT. No two byte strings escape to the same text, so what `UnescapeBytes`
      returns on an escaped text is the string that was escaped. */
  lemma {:induction false} EscapeIsInjective(a: seq<byte>, b: seq<byte>)
    requires EscapeBytes(a) == EscapeBytes(b)
    ensures a == b
  {
    hide Token;
    hide TokenValue;
    hide TokenOk;
    if a != [] {
      var s := EscapeBytes(a);
      var left, right := a[..|a| - 1], b[..|b| - 1];
      assert s[|s| - 4..] == Token(a[|a| - 1]) == Token(b[|b| - 1]);
      assert s[..|s| - 4] == EscapeBytes(left) == EscapeBytes(right);
      TokenRoundTrip(a[|a| - 1]);
      TokenRoundTrip(b[|b| - 1]);
      EscapeIsInjective(left, right);
      assert a == left + [a[|a| - 1]] && b == right + [b[|b| - 1]];
    }
  }

  lemma LastToken(s: string, t: string)
    requires Escaped(s) && TokenOk(t) && |t| == 4
    ensures Escaped(s + t)
  {
    hide TokenOk;
    var all := s + t;
    forall k | 0 <= k < |all| / 4
      ensures TokenOk(all[4 * k..4 * k + 4])
    {
      if k == |s| / 4 {
        assert all[4 * k..4 * k + 4] == t;
      } else {
        assert all[4 * k..4 * k + 4] == s[4 * k..4 * k + 4];
      }
    }
  }
}
