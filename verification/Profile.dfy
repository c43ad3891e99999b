/** Profile pages and the directory page: where each field lies, and the routines of
    `codec.py` that edit them in place. */
module Profile {
  import opened Bytes
  import opened Sector

  // ---------------------------------------------------------------- in-place editing

  /** `buffer[at:at + len(bytes)] = bytes`. */
  method Put(buffer: array<byte>, at: nat, bytes: seq<byte>)
    requires at + |bytes| <= buffer.Length
    modifies buffer
    ensures buffer[..] == Splice(old(buffer[..]), at, bytes)
  {
    for i := 0 to |bytes|
      invariant buffer[..] == Splice(old(buffer[..]), at, bytes[..i])
    {
      buffer[at + i] := bytes[i];
      assert bytes[..i + 1] == bytes[..i] + [bytes[i]];
    }
    assert bytes[..|bytes|] == bytes;
  }

  lemma SpliceRead(s: seq<byte>, at: nat, patch: seq<byte>, i: nat)
    requires at + |patch| <= |s| && i < |s|
    ensures Splice(s, at, patch)[i] == if at <= i < at + |patch| then patch[i - at] else s[i]
  {}

  // ---------------------------------------------------------------- routes and bindings

  datatype Layer = Normal | GShift

  /** A binding slot: a layer and a position in `PROFILE3_TARGET_ORDER`. */
  datatype Route = Route(layer: Layer, target: nat)

  const TARGETS: nat := 13
  const WHEEL_DOWN: nat := 11
  const WHEEL_UP: nat := 12

  predicate IsRoute(r: Route) {
    r.target < TARGETS
  }

  /** `profile3_offset`. */
  function Offset(r: Route): nat {
    (if r.layer == Normal then 0x20 else 0x60) + 4 * r.target
  }

  const NOOP: seq<byte> := [0x90, 0x00, 0x00, 0x00]
  const GSHIFT: seq<byte> := [0x90, 0x0B, 0x00, 0x00]

  function Binding(data: seq<byte>, r: Route): (b: seq<byte>)
    ensures |b| == 4
  {
    if Offset(r) + 4 <= |data| then data[Offset(r)..Offset(r) + 4] else NOOP
  }

  /** A byte of some binding slot. */
  predicate InBindings(i: int) {
    0x20 <= i < 0x20 + 4 * TARGETS || 0x60 <= i < 0x60 + 4 * TARGETS
  }

  /** Writing one slot leaves every other slot and every other byte alone. */
  lemma OneSlot(data: seq<byte>, r: Route, b: seq<byte>, other: Route)
    requires |data| == SECTOR_SIZE && |b| == 4 && IsRoute(r) && IsRoute(other)
    ensures Binding(Splice(data, Offset(r), b), other) == if other == r then b else Binding(data, other)
  {
    var after := Splice(data, Offset(r), b);
    if other == r {
      assert after[Offset(r)..Offset(r) + 4] == b;
    } else {
      assert Offset(other) + 4 <= Offset(r) || Offset(r) + 4 <= Offset(other);
      forall i | Offset(other) <= i < Offset(other) + 4
        ensures after[i] == data[i]
      {
        SpliceRead(data, Offset(r), b, i);
      }
      assert after[Offset(other)..Offset(other) + 4] == data[Offset(other)..Offset(other) + 4];
    }
  }

  /** Same bytes outside the binding slots. */
  predicate SameElsewhere(a: seq<byte>, b: seq<byte>) {
    |a| == |b| && forall i :: 0 <= i < |a| && !InBindings(i) ==> a[i] == b[i]
  }

  lemma SlotIsBinding(data: seq<byte>, r: Route, b: seq<byte>)
    requires |data| == SECTOR_SIZE && |b| == 4 && IsRoute(r)
    ensures SameElsewhere(data, Splice(data, Offset(r), b))
  {
    forall i | 0 <= i < |data| && !InBindings(i)
      ensures data[i] == Splice(data, Offset(r), b)[i]
    {
      SpliceRead(data, Offset(r), b, i);
    }
  }

  /** What `_neutralize_macro_pointers` makes of one binding. */
  function Neutral(b: seq<byte>): (r: seq<byte>)
    requires |b| == 4
    ensures |r| == 4
  {
    if b[0] == 0 && 6 <= b[1] <= 15 then NOOP else b
  }

  /** The routes in the order the loops visit them: by layer, then by target. */
  function NthRoute(n: nat): Route {
    if n < TARGETS then Route(Normal, n) else Route(GShift, n - TARGETS)
  }

  function RouteNumber(r: Route): nat {
    if r.layer == Normal then r.target else TARGETS + r.target
  }

  /** `_neutralize_macro_pointers`. */
  method NeutralizeMacroPointers(out: array<byte>)
    requires out.Length == SECTOR_SIZE
    modifies out
    ensures SameElsewhere(old(out[..]), out[..])
    ensures forall r :: IsRoute(r) ==> Binding(out[..], r) == Neutral(Binding(old(out[..]), r))
  {
    for n := 0 to 2 * TARGETS
      invariant SameElsewhere(old(out[..]), out[..])
      invariant forall r :: IsRoute(r) ==>
                  Binding(out[..], r) ==
                    if RouteNumber(r) < n then Neutral(Binding(old(out[..]), r)) else Binding(old(out[..]), r)
    {
      var r := NthRoute(n);
      assert RouteNumber(r) == n;
      assert forall s :: IsRoute(s) && RouteNumber(s) == n ==> s == r;
      var binding := out[Offset(r)..Offset(r) + 4];
      ghost var before := out[..];
      assert binding == Binding(before, r);
      if binding[0] == 0 && 6 <= binding[1] <= 15 {
        Put(out, Offset(r), NOOP);
        forall s | IsRoute(s)
          ensures Binding(out[..], s) == if s == r then NOOP else Binding(before, s)
        {
          OneSlot(before, r, NOOP, s);
        }
        SlotIsBinding(before, r, NOOP);
      }
    }
  }

  // ---------------------------------------------------------------- settings

  datatype Settings = Settings(
    name: Option<seq<byte>>,
    rate: Option<nat>,
    dpi: Option<seq<nat>>,
    defaultDpi: Option<nat>,
    shiftDpi: Option<nat>)

  function RateCode(rate: nat): Option<byte> {
    match rate
    case 1000 => Some(0x01)
    case 500 => Some(0x02)
    case 250 => Some(0x04)
    case 125 => Some(0x08)
    case _ => None
  }

  predicate KnownRate(code: byte) {
    code in {0x01, 0x02, 0x04, 0x08}
  }

  predicate DpiValue(v: nat) {
    1 <= v <= 65535
  }

  predicate DpiChoice(choice: Option<nat>, dpi: Option<seq<nat>>) {
    choice.Some? ==> DpiValue(choice.value) && (dpi.Some? ==> choice.value in dpi.value)
  }

  /** `_validate_settings` accepts. The name is given as its UTF-16 bytes. */
  predicate ValidSettings(s: Settings) {
    (s.name.Some? ==> |s.name.value| <= 48) &&
    (s.rate.Some? ==> RateCode(s.rate.value).Some?) &&
    (s.dpi.Some? ==> 1 <= |s.dpi.value| <= 5 && forall i :: 0 <= i < |s.dpi.value| ==> DpiValue(s.dpi.value[i])) &&
    DpiChoice(s.defaultDpi, s.dpi) && DpiChoice(s.shiftDpi, s.dpi)
  }

  /** The five stored DPI values, little-endian from byte 3. */
  function Dpi(data: seq<byte>, slot: nat): nat
    requires |data| == SECTOR_SIZE && slot < 5
  {
    UnpackBE(data[4 + 2 * slot], data[3 + 2 * slot])
  }

  function DpiList(data: seq<byte>): (dpi: seq<nat>)
    requires |data| == SECTOR_SIZE
    ensures |dpi| == 5
  {
    [Dpi(data, 0), Dpi(data, 1), Dpi(data, 2), Dpi(data, 3), Dpi(data, 4)]
  }

  /** The DPI values in effect: configured ones padded with zero, or the stored ones. */
  function EffectiveDpi(data: seq<byte>, s: Settings): (dpi: seq<nat>)
    requires |data| == SECTOR_SIZE
    ensures |dpi| == 5
  {
    if s.dpi.Some? then seq(5, i requires 0 <= i < 5 => if i < |s.dpi.value| then s.dpi.value[i] else 0)
    else DpiList(data)
  }

  function IndexOf(values: seq<nat>, v: nat): (i: nat)
    ensures i <= |values| && (i < |values| ==> values[i] == v)
    ensures forall j :: 0 <= j < i ==> values[j] != v
  {
    if values == [] then 0 else if values[0] == v then 0 else 1 + IndexOf(values[1..], v)
  }

  predicate ChoicesExist(data: seq<byte>, s: Settings)
    requires |data| == SECTOR_SIZE
  {
    (s.defaultDpi.Some? ==> s.defaultDpi.value in EffectiveDpi(data, s)) &&
    (s.shiftDpi.Some? ==> s.shiftDpi.value in EffectiveDpi(data, s))
  }

  /** A byte that settings may change. */
  predicate InSettings(i: int) {
    0 <= i < 13 || 0xA0 <= i < 0xD0
  }

  function PadName(name: seq<byte>): (r: seq<byte>)
    requires |name| <= 48
    ensures |r| == 48
  {
    name + seq(48 - |name|, i => 0)
  }

  function RateByte(stored: byte, s: Settings): byte {
    if s.rate.Some? && RateCode(s.rate.value).Some? then RateCode(s.rate.value).value else stored
  }

  function SlotByte(stored: byte, choice: Option<nat>, dpi: seq<nat>): nat {
    match choice case Some(v) => IndexOf(dpi, v) case None => stored
  }

  /** The page after settings are applied, field by field. */
  ghost predicate SettingsApplied(before: seq<byte>, after: seq<byte>, s: Settings)
    requires ValidSettings(s)
  {
    |before| == SECTOR_SIZE && |after| == SECTOR_SIZE &&
    (forall i :: 0 <= i < SECTOR_SIZE && !InSettings(i) ==> after[i] == before[i]) &&
    after[0] == RateByte(before[0], s) &&
    DpiList(after) == EffectiveDpi(before, s) &&
    after[1] == SlotByte(before[1], s.defaultDpi, EffectiveDpi(before, s)) &&
    after[2] == SlotByte(before[2], s.shiftDpi, EffectiveDpi(before, s)) &&
    after[0xA0..0xD0] == (match s.name case Some(n) => PadName(n) case None => before[0xA0..0xD0])
  }

  /** The DPI part of `_apply_settings`: write the padded list. */
  method WriteDpi(out: array<byte>, values: seq<nat>)
    requires out.Length == SECTOR_SIZE && 1 <= |values| <= 5
    requires forall i :: 0 <= i < |values| ==> DpiValue(values[i])
    modifies out
    ensures DpiList(out[..]) == seq(5, i requires 0 <= i < 5 => if i < |values| then values[i] else 0)
    ensures forall i :: 0 <= i < SECTOR_SIZE && !(3 <= i < 13) ==> out[i] == old(out[i])
  {
    var padded := values + seq(5 - |values|, _ => 0);
    for index := 0 to 5
      invariant forall j :: 0 <= j < index ==> UnpackBE(out[4 + 2 * j], out[3 + 2 * j]) == padded[j]
      invariant forall i :: 0 <= i < SECTOR_SIZE && !(3 <= i < 13) ==> out[i] == old(out[i])
    {
      var word := PackLE(padded[index]);
      out[3 + index * 2] := word[0];
      out[4 + index * 2] := word[1];
    }
    assert forall j :: 0 <= j < 5 ==> Dpi(out[..], j) == padded[j];
  }

  /** Store the slot of a chosen DPI value; `false` if the list does not hold it. */
  method ChooseSlot(out: array<byte>, at: nat, choice: Option<nat>, dpi: seq<nat>) returns (ok: bool)
    requires at < out.Length && |dpi| == 5
    modifies out
    ensures ok <==> (choice.Some? ==> choice.value in dpi)
    ensures ok ==> SlotByte(old(out[at]), choice, dpi) < 5 || choice.None?
    ensures out[at] == if ok then SlotByte(old(out[at]), choice, dpi) else old(out[at])
    ensures forall i :: 0 <= i < out.Length && i != at ==> out[i] == old(out[i])
  {
    if choice.None? {
      return true;
    }
    var slot := IndexOf(dpi, choice.value);
    if slot == |dpi| {
      return false;
    }
    out[at] := slot;
    return true;
  }

  /** The name field is the padded name, or is left alone. */
  method WriteName(out: array<byte>, name: Option<seq<byte>>)
    requires out.Length == SECTOR_SIZE && (name.Some? ==> |name.value| <= 48)
    modifies out
    ensures out[..][0xA0..0xD0] == (match name case Some(n) => PadName(n) case None => old(out[..])[0xA0..0xD0])
    ensures forall i :: 0 <= i < SECTOR_SIZE && !(0xA0 <= i < 0xD0) ==> out[i] == old(out[i])
  {
    if name.Some? {
      ghost var before := out[..];
      Put(out, 0xA0, PadName(name.value));
      forall i | 0 <= i < SECTOR_SIZE && !(0xA0 <= i < 0xD0)
        ensures out[..][i] == before[i]
      {
        SpliceRead(before, 0xA0, PadName(name.value), i);
      }
    }
  }

  lemma SameDpi(a: seq<byte>, b: seq<byte>)
    requires |a| == |b| == SECTOR_SIZE && forall i :: 3 <= i < 13 ==> a[i] == b[i]
    ensures DpiList(a) == DpiList(b)
  {}

  /** `_apply_settings`: `false` where it raises because a chosen DPI value is
      not in the effective list. */
  method ApplySettings(out: array<byte>, s: Settings) returns (ok: bool)
    requires out.Length == SECTOR_SIZE && ValidSettings(s)
    modifies out
    ensures ok <==> ChoicesExist(old(out[..]), s)
    ensures ok ==> SettingsApplied(old(out[..]), out[..], s)
  {
    hide RateCode;
    hide DpiList;
    hide PadName;
    hide SlotByte;
    ghost var before := out[..];
    if s.rate.Some? {
      out[0] := RateCode(s.rate.value).value;
    }
    SameDpi(before, out[..]);
    if s.dpi.Some? {
      WriteDpi(out, s.dpi.value);
    }
    var dpi := DpiList(out[..]);
    assert dpi == EffectiveDpi(before, s);
    ghost var written := out[..];
    ok := ChooseSlot(out, 1, s.defaultDpi, dpi);
    if !ok {
      return;
    }
    ok := ChooseSlot(out, 2, s.shiftDpi, dpi);
    if !ok {
      return;
    }
    ghost var chosen := out[..];
    WriteName(out, s.name);
    SameDpi(written, out[..]);
    assert s.name.None? ==> chosen[0xA0..0xD0] == before[0xA0..0xD0];
  }
}
