/** The host's side: what it notices of a run of instructions, and what keys, controls and
    buttons are called. Nothing here knows the compiler. */
module HostSide {
  import opened Bytes
  import opened Macro

  // ---------------------------------------------------------------- the host's side

  /** A key or a consumer control that is down. */
  datatype Held = Key(usage: byte) | Control(control: nat)

  /** What the host notices. A key press is noticed with everything held at that moment. */
  datatype Act =
    | Press(held: seq<Held>, usage: byte)
    | Media(control: nat)
    | Pause(ms: nat)
    | Scroll(amount: int)
    | Pan(amount: int)
    | UntilRelease
    | WhilePressed

  type Noticed = Option<(seq<Act>, seq<Held>)>

  /** The modifier bit of a keyboard usage. */
  function Mask(usage: byte): byte {
    match usage
    case 0xE0 => 1
    case 0xE1 => 2
    case 0xE2 => 4
    case 0xE3 => 8
    case _ => 0
  }

  function Signed(b: byte): int {
    if b < 128 then b else b - 256
  }

  /** Only what went down last may come up. */
  function LetGo(held: seq<Held>, h: Held): Noticed {
    if held != [] && held[|held| - 1] == h then Some(([], held[..|held| - 1])) else None
  }

  /** One instruction. */
  function Notice(t: Token, held: seq<Held>): Noticed {
    if |t| == 1 then
      if t[0] == OP_WAIT_FOR_RELEASE then Some(([UntilRelease], held))
      else if t[0] == OP_REPEAT_WHILE_PRESSED then Some(([WhilePressed], held))
      else if t[0] == OP_END then Some(([], held))
      else None
    else if |t| == 3 then
      if t[0] == OP_KEY_DOWN && t[1] == Mask(t[2]) then Some(([Press(held, t[2])], held + [Key(t[2])]))
      else if t[0] == OP_KEY_UP && t[1] == Mask(t[2]) then LetGo(held, Key(t[2]))
      else if t[0] == OP_CONSUMER_DOWN then
        Some(([Media(UnpackBE(t[1], t[2]))], held + [Control(UnpackBE(t[1], t[2]))]))
      else if t[0] == OP_CONSUMER_UP then LetGo(held, Control(UnpackBE(t[1], t[2])))
      else if t[0] == OP_DELAY then Some(([Pause(UnpackBE(t[1], t[2]))], held))
      else if t[0] == OP_ROLLER && t[2] == 0 then Some(([Scroll(Signed(t[1]))], held))
      else if t[0] == OP_ACPAN && t[2] == 0 then Some(([Pan(Signed(t[1]))], held))
      else None
    else None
  }

  function Onward(first: seq<Act>, rest: Noticed): Noticed {
    match rest
    case None => None
    case Some((acts, held)) => Some((first + acts, held))
  }

  /** A run of instructions, starting with these things held. */
  function Host(tokens: seq<Token>, held: seq<Held>): Noticed {
    if tokens == [] then Some(([], held))
    else
      match Notice(tokens[0], held)
      case None => None
      case Some((acts, next)) => Onward(acts, Host(tokens[1..], next))
  }

  lemma OnwardOnward(a: seq<Act>, b: seq<Act>, rest: Noticed)
    ensures Onward(a, Onward(b, rest)) == Onward(a + b, rest)
  {
    if rest.Some? {
      assert a + (b + rest.value.0) == (a + b) + rest.value.0;
    }
  }

  lemma {:induction false} HostConcat(a: seq<Token>, b: seq<Token>, held: seq<Held>)
    ensures Host(a + b, held) ==
            match Host(a, held) { case None => None case Some((acts, mid)) => Onward(acts, Host(b, mid)) }
  {
    hide Notice;
    if a == [] {
      assert a + b == b;
      assert Onward([], Host(b, held)) == Host(b, held) by {
        if Host(b, held).Some? {
          assert [] + Host(b, held).value.0 == Host(b, held).value.0;
        }
      }
    } else {
      assert (a + b)[0] == a[0] && (a + b)[1..] == a[1..] + b;
      match Notice(a[0], held)
      case None =>
      case Some((acts, next)) =>
        HostConcat(a[1..], b, next);
        match Host(a[1..], next)
        case None =>
        case Some((more, mid)) => OnwardOnward(acts, more, Host(b, mid));
    }
  }

  lemma HostOne(t: Token, held: seq<Held>)
    ensures Host([t], held) == Notice(t, held)
  {
    hide Notice;
    assert [t][1..] == [];
    match Notice(t, held)
    case None =>
    case Some((acts, next)) => assert acts + [] == acts;
  }

  // ---------------------------------------------------------------- code that does something

  /** These bytes are whole instructions that make the host notice `acts` and leave held
      what was held. */
  predicate Does(bytes: seq<byte>, held: seq<Held>, acts: seq<Act>) {
    Split(bytes).Ok? && Host(Split(bytes).value, held) == Some((acts, held))
  }

  lemma DoesNothing(held: seq<Held>)
    ensures Does([], held, [])
  {
  }

  lemma DoesBoth(a: seq<byte>, x: seq<Act>, b: seq<byte>, y: seq<Act>, held: seq<Held>)
    requires Does(a, held, x) && Does(b, held, y)
    ensures Does(a + b, held, x + y)
  {
    hide Split;
    hide Host;
    SplitConcat(a, b);
    HostConcat(Split(a).value, Split(b).value, held);
  }

  lemma DoesOne(t: Token, held: seq<Held>, acts: seq<Act>)
    requires IsToken(t) && Notice(t, held) == Some((acts, held))
    ensures Does(t, held, acts)
  {
    hide Notice;
    SplitOne(t);
    HostOne(t, held);
  }

  /** Something done while one more thing is down. */
  lemma DoesAround(down: Token, inner: seq<byte>, up: Token, held: seq<Held>, h: Held, first: seq<Act>, acts: seq<Act>)
    requires IsToken(down) && IsToken(up) && Does(inner, held + [h], acts)
    requires Notice(down, held) == Some((first, held + [h])) && Notice(up, held + [h]) == Some(([], held))
    ensures Does(down + inner + up, held, first + acts)
  {
    hide Split;
    hide Host;
    hide Notice;
    SplitOne(down);
    SplitOne(up);
    SplitConcat(down, inner);
    SplitConcat(down + inner, up);
    HostOne(down, held);
    HostOne(up, held + [h]);
    HostConcat([down], Split(inner).value, held);
    HostConcat([down] + Split(inner).value, [up], held);
    assert first + acts + [] == first + acts;
  }

  lemma KeyGoesDownAndUp(usage: byte, held: seq<Held>)
    ensures IsToken([OP_KEY_DOWN, Mask(usage), usage]) && IsToken([OP_KEY_UP, Mask(usage), usage])
    ensures Notice([OP_KEY_DOWN, Mask(usage), usage], held) == Some(([Press(held, usage)], held + [Key(usage)]))
    ensures Notice([OP_KEY_UP, Mask(usage), usage], held + [Key(usage)]) == Some(([], held))
  {
    hide Mask;
    assert (held + [Key(usage)])[..|held|] == held;
  }

  /** A key pressed around something. */
  lemma KeyAround(usage: byte, inner: seq<byte>, held: seq<Held>, acts: seq<Act>)
    requires Does(inner, held + [Key(usage)], acts)
    ensures Does([OP_KEY_DOWN, Mask(usage), usage] + inner + [OP_KEY_UP, Mask(usage), usage], held,
                 [Press(held, usage)] + acts)
  {
    hide Mask;
    hide Does;
    KeyGoesDownAndUp(usage, held);
    DoesAround([OP_KEY_DOWN, Mask(usage), usage], inner, [OP_KEY_UP, Mask(usage), usage], held, Key(usage),
               [Press(held, usage)], acts);
  }

  lemma KeyAlone(usage: byte, held: seq<Held>)
    ensures Does([OP_KEY_DOWN, Mask(usage), usage] + [OP_KEY_UP, Mask(usage), usage], held, [Press(held, usage)])
  {
    hide Mask;
    hide Does;
    DoesNothing(held + [Key(usage)]);
    KeyAround(usage, [], held, []);
    assert [OP_KEY_DOWN, Mask(usage), usage] + [] + [OP_KEY_UP, Mask(usage), usage] ==
           [OP_KEY_DOWN, Mask(usage), usage] + [OP_KEY_UP, Mask(usage), usage];
    assert [Press(held, usage)] + [] == [Press(held, usage)];
  }

  // ---------------------------------------------------------------- names and characters

  /** The name of a keyboard usage. */
  function NameOf(usage: byte): string {
    if 0x04 <= usage <= 0x1D then [('A' as int + usage - 0x04) as char]
    else if 0x1E <= usage <= 0x26 then [('1' as int + usage - 0x1E) as char]
    else
      match usage
      case 0x27 => "0"
      case 0x28 => "ENTER"
      case 0x29 => "ESC"
      case 0x2A => "BACKSPACE"
      case 0x2B => "TAB"
      case 0x2C => "SPACE"
      case 0x3A => "F1"
      case 0x3B => "F2"
      case 0x3C => "F3"
      case 0x3D => "F4"
      case 0x3E => "F5"
      case 0x3F => "F6"
      case 0x40 => "F7"
      case 0x41 => "F8"
      case 0x42 => "F9"
      case 0x43 => "F10"
      case 0x44 => "F11"
      case 0x45 => "F12"
      case 0x4F => "RIGHT"
      case 0x50 => "LEFT"
      case 0x51 => "DOWN"
      case 0x52 => "UP"
      case 0xE0 => "CTRL"
      case 0xE1 => "SHIFT"
      case 0xE2 => "ALT"
      case 0xE3 => "WIN"
      case _ => ""
  }

  /** The name of a consumer usage. */
  function ControlName(usage: nat): string {
    match usage
    case 0xE9 => "volume_up"
    case 0xEA => "volume_down"
    case _ => ""
  }

  /** The mouse button a one-bit mask stands for. */
  function ButtonName(mask: nat): string {
    match mask
    case 1 => "left"
    case 2 => "right"
    case 4 => "middle"
    case 8 => "back"
    case 16 => "forward"
    case _ => ""
  }

  const PLAIN_DIGITS: string := "1234567890"
  const SHIFTED_DIGITS: string := "!@#$%^&*()"
  const PLAIN_SIGNS: string := "-=[]\\"
  const SHIFTED_SIGNS: string := "_+{}|"
  const PLAIN_MARKS: string := ";'`,./"
  const SHIFTED_MARKS: string := ":\"~<>?"

  /** What a US keyboard types with this key, with or without shift. */
  function Glyph(shift: bool, usage: byte): Option<char> {
    if 0x04 <= usage <= 0x1D then Some(((if shift then 'A' else 'a') as int + usage - 0x04) as char)
    else if 0x1E <= usage <= 0x27 then Some((if shift then SHIFTED_DIGITS else PLAIN_DIGITS)[usage - 0x1E])
    else if usage == 0x28 && !shift then Some('\n')
    else if usage == 0x2B && !shift then Some('\t')
    else if usage == 0x2C && !shift then Some(' ')
    else if 0x2D <= usage <= 0x31 then Some((if shift then SHIFTED_SIGNS else PLAIN_SIGNS)[usage - 0x2D])
    else if 0x33 <= usage <= 0x38 then Some((if shift then SHIFTED_MARKS else PLAIN_MARKS)[usage - 0x33])
    else None
  }

  function Typed(c: Option<char>, rest: Option<string>): Option<string> {
    if c.Some? && rest.Some? then Some([c.value] + rest.value) else None
  }

  /** The text typed by these acts, if they are the acts of typing one. */
  function Read(acts: seq<Act>): Option<string> {
    if acts == [] then Some("")
    else if !acts[0].Press? || acts[0].held != [] then None
    else if acts[0].usage == 0xE1 then
      if |acts| >= 2 && acts[1].Press? && acts[1].held == [Key(0xE1)] then
        Typed(Glyph(true, acts[1].usage), Read(acts[2..]))
      else None
    else Typed(Glyph(false, acts[0].usage), Read(acts[1..]))
  }
}
