/** Bytes, results and the memory geometry shared by every other module. */
module Bytes {

  type byte = x: int | 0 <= x < 256

  const SECTOR_SIZE: nat := 255
  const SECTOR_COUNT: nat := 16
  const PAGE_DATA_SIZE: nat := 253

  /** A value, or the error a function raises instead of returning one. */
  datatype Result<+T, +E> = Ok(value: T) | Err(error: E) {
    predicate IsFailure() {
      Err?
    }

    function PropagateFailure<U>(): Result<U, E>
      requires Err?
    {
      Err(error)
    }

    function Extract(): T
      requires Ok?
    {
      value
    }
  }

  datatype Option<+T> = None | Some(value: T)

  /** `struct.pack(">H", n)`. */
  function PackBE(n: nat): (r: seq<byte>)
    requires n < 0x1_0000
    ensures |r| == 2 && UnpackBE(r[0], r[1]) == n
  {
    [n / 256, n % 256]
  }

  /** `struct.unpack(">H", ...)`, also written `(hi << 8) | lo` in the code. */
  function UnpackBE(hi: byte, lo: byte): nat {
    hi * 256 + lo
  }

  /** `struct.pack("<H", n)`. */
  function PackLE(n: nat): (r: seq<byte>)
    requires n < 0x1_0000
    ensures |r| == 2 && UnpackBE(r[1], r[0]) == n
  {
    [n % 256, n / 256]
  }

  /** The slice assignment `s[at:at + len(patch)] = patch`. */
  function Splice<T>(s: seq<T>, at: nat, patch: seq<T>): (r: seq<T>)
    ensures |r| == |s|
  {
    if at + |patch| <= |s| then s[..at] + patch + s[at + |patch|..] else s
  }

  /** `b"".join(parts)`. */
  function Flatten<T>(parts: seq<seq<T>>): seq<T> {
    if parts == [] then [] else parts[0] + Flatten(parts[1..])
  }

  lemma {:induction false} FlattenConcat<T>(a: seq<seq<T>>, b: seq<seq<T>>)
    ensures Flatten(a + b) == Flatten(a) + Flatten(b)
  {
    if a == [] {
      assert a + b == b;
    } else {
      assert (a + b)[0] == a[0] && (a + b)[1..] == a[1..] + b;
      FlattenConcat(a[1..], b);
    }
  }

  function Sum(s: seq<int>): int {
    if s == [] then 0 else s[0] + Sum(s[1..])
  }

  lemma {:induction false} SumConcat(a: seq<int>, b: seq<int>)
    ensures Sum(a + b) == Sum(a) + Sum(b)
  {
    if a == [] {
      assert a + b == b;
    } else {
      SumConcat(a[1..], b);
      assert (a + b)[1..] == a[1..] + b;
    }
  }
}
