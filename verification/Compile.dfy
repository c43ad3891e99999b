/** `compile_action` and `compile_binding`: lowering an action to bytecode or to a
    direct binding. */
module Compile {
  import opened Bytes
  import opened Macro
  import opened Actions
  import opened Config

  datatype CompileError =
    | HostRequired
    | Unsupported
    | TextUnavailable
    | MouseIsDirectOnly

  type Code = Result<seq<byte>, CompileError>

  // ---------------------------------------------------------------- keys

  function KeyBytes(op: byte, name: string): Code {
    match ModifierOf(Upper(name))
    case Some(m) => Ok([op, m.mask, m.usage])
    case None =>
      match KeyUsage(Upper(name))
      case Some(u) => Ok([op, 0, u])
      case None => Err(Unsupported)
  }

  function Join(a: Code, b: Code): Code {
    match a
    case Err(e) => Err(e)
    case Ok(x) => match b case Err(e) => Err(e) case Ok(y) => Ok(x + y)
  }

  function Tap(name: string): Code {
    Join(KeyBytes(OP_KEY_DOWN, name), KeyBytes(OP_KEY_UP, name))
  }

  function ModDown(m: Modifier): Token { [OP_KEY_DOWN, m.mask, m.usage] }
  function ModUp(m: Modifier): Token { [OP_KEY_UP, m.mask, m.usage] }

  /** Modifiers pressed around a key, the first one outermost. */
  function Around(mods: seq<Modifier>, usage: byte): seq<byte> {
    if mods == [] then [OP_KEY_DOWN, 0, usage] + [OP_KEY_UP, 0, usage]
    else ModDown(mods[0]) + Around(mods[1..], usage) + ModUp(mods[0])
  }

  function Modifiers(names: seq<string>): seq<Modifier>
    requires forall i :: 0 <= i < |names| ==> ModifierOf(names[i]).Some?
  {
    seq(|names|, i requires 0 <= i < |names| => ModifierOf(names[i]).value)
  }

  function HotkeyCode(keys: Json): Code {
    if !keys.Arr? || |keys.items| < 2 then Err(Unsupported)
    else
      var names := UpperNames(keys.items);
      if !HotkeyNames(names) then Err(Unsupported)
      else Ok(Around(Modifiers(names[..|names| - 1]), KeyUsage(names[|names| - 1]).value))
  }

  // ---------------------------------------------------------------- text

  /** `_text_key`: modifier mask and usage of one character. */
  function TextKey(c: char, layout: string): Option<(byte, byte)> {
    if 'a' <= c <= 'z' then Some((0, KeyUsage([UpperChar(c)]).value))
    else if 'A' <= c <= 'Z' then Some((2, KeyUsage([c]).value))
    else if '0' <= c <= '9' then Some((0, KeyUsage([c]).value))
    else if c == ' ' then Some((0, 0x2C))
    else if c == '\n' then Some((0, 0x28))
    else if c == '\t' then Some((0, 0x2B))
    else if layout == "us" then UsPunctuation(c)
    else None
  }

  function CharCode(c: char, layout: string): Code {
    match TextKey(c, layout)
    case None => Err(TextUnavailable)
    case Some((mask, usage)) =>
      var tap := [OP_KEY_DOWN, 0, usage] + [OP_KEY_UP, 0, usage];
      if mask == 0 then Ok(tap)
      else Ok([OP_KEY_DOWN, mask, 0xE1] + tap + [OP_KEY_UP, mask, 0xE1])
  }

  function CharsCode(s: string, layout: string): Code {
    if s == "" then Ok([]) else Join(CharCode(s[0], layout), CharsCode(s[1..], layout))
  }

  function TextCode(value: Json, layout: Json): Code {
    var name := Lower(PyStr(layout));
    if !value.Str? || name !in {"basic", "us"} then Err(Unsupported) else CharsCode(value.s, name)
  }

  // ---------------------------------------------------------------- the other kinds

  function DelayCode(ms: Json): Code {
    match AsInt(ms)
    case Some(n) => if 0 <= n <= 65535 then Ok([OP_DELAY] + PackBE(n)) else Err(Unsupported)
    case None => Err(Unsupported)
  }

  function ConsumerCode(command: Json): Code {
    match ConsumerUsage(Lower(PyStr(command)))
    case None => Err(Unsupported)
    case Some(u) =>
      var hi, lo := u / 256 % 256, u % 256;
      Ok([OP_CONSUMER_DOWN, hi, lo] + [OP_CONSUMER_UP, hi, lo])
  }

  function AxisCode(op: byte, amount: Json): Code {
    match AsInt(amount)
    case Some(n) => if n != 0 && -127 <= n <= 127 then Ok([op, n % 256, 0]) else Err(Unsupported)
    case None => Err(Unsupported)
  }

  /** `compile_action` on the kinds that contain no other action. */
  function FlatCode(fields: Fields): Code {
    if RequiresHost(Kind(fields)) then Err(HostRequired) else
    match Kind(fields)
    case "hotkey" => HotkeyCode(Get(fields, "keys", Null))
    case "tap" => Tap(PyStr(Get(fields, "key", Null)))
    case "text" => TextCode(Get(fields, "value", Null), Get(fields, "layout", Str("basic")))
    case "delay" => DelayCode(Get(fields, "ms", Null))
    case "consumer" => ConsumerCode(Get(fields, "command", Null))
    case "wheel" => AxisCode(OP_ROLLER, Get(fields, "amount", Null))
    case "hpan" => AxisCode(OP_ACPAN, Get(fields, "amount", Null))
    case "horizontal_wheel" => AxisCode(OP_ACPAN, Get(fields, "amount", Null))
    case "wait_for_release" => Ok([OP_WAIT_FOR_RELEASE])
    case "repeat_while_pressed" => Ok([OP_REPEAT_WHILE_PRESSED])
    case "mouse" => Err(MouseIsDirectOnly)
    case _ => Err(Unsupported)
  }

  /** `compile_action(normalize_action(spec))`. */
  function ActionCode(spec: Json): Code
    decreases spec, 0
  {
    match spec
    case Str(s) => (match Alias(Lower(s)) case Some(fields) => FlatCode(fields) case None => Err(Unsupported))
    case Obj(fields) =>
      if Kind(fields) == "sequence" then
        if "steps" in fields && fields["steps"].Arr? && fields["steps"].items != [] then
          StepsCode(fields["steps"].items)
        else Err(Unsupported)
      else FlatCode(fields)
    case _ => Err(Unsupported)
  }

  function StepsCode(steps: seq<Json>): Code
    decreases steps, 1
  {
    if steps == [] then Ok([]) else Join(ActionCode(steps[0]), StepsCode(steps[1..]))
  }

  // ---------------------------------------------------------------- bindings

  datatype Item = Direct(binding: seq<byte>) | MacroItem(bytecode: seq<byte>)

  /** `normalize_action`, without descending. */
  function Normalize(spec: Json): Option<Fields> {
    match spec
    case Str(s) => Alias(Lower(s))
    case Obj(fields) => Some(fields)
    case _ => None
  }

  function MaskOf(names: seq<string>): byte {
    // 1, 2 and 4 are distinct bits: the sum of those present is their bitwise or.
    (if "CTRL" in names then 1 else 0) + (if "SHIFT" in names then 2 else 0) + (if "ALT" in names then 4 else 0)
  }

  function DirectKeyboard(fields: Fields): Option<seq<byte>> {
    if Get(fields, "action", Null) != Str("hotkey") then None
    else
      var keys := Get(fields, "keys", Null);
      if !keys.Arr? || |keys.items| < 2 then None
      else
        var names := UpperNames(keys.items);
        var mods, key := names[..|names| - 1], names[|names| - 1];
        if ModifierOf(key).Some? || KeyUsage(key).None? then None
        else if exists i :: 0 <= i < |mods| && mods[i] !in {"CTRL", "SHIFT", "ALT"} then None
        else Some([0x80, 0x02, MaskOf(mods), KeyUsage(key).value])
  }

  function DirectConsumer(fields: Fields): Option<seq<byte>> {
    if Get(fields, "action", Null) != Str("consumer") then None
    else
      match ConsumerUsage(Lower(PyStr(Get(fields, "command", Str("")))))
      case None => None
      case Some(u) => Some([0x80, 0x03, u / 256 % 256, u % 256])
  }

  /** `direct_mouse_binding`; an unknown mouse command raises. */
  function DirectMouse(fields: Fields): Result<Option<seq<byte>>, CompileError> {
    if Get(fields, "action", Null) != Str("mouse") then Ok(None)
    else
      match MouseMask(Lower(PyStr(Get(fields, "command", Str("")))))
      case None => Err(Unsupported)
      case Some(m) => Ok(Some([0x80, 0x01, m / 256 % 256, m % 256]))
  }

  function MacroOf(code: Code): Result<Item, CompileError> {
    match code case Ok(bytes) => Ok(MacroItem(bytes + [OP_END])) case Err(e) => Err(e)
  }

  /** `compile_binding`. */
  function CompileBinding(spec: Json): Result<Item, CompileError> {
    match Normalize(spec)
    case None => Err(Unsupported)
    case Some(fields) =>
      if RequiresHost(Kind(fields)) then Err(HostRequired)
      else if DirectKeyboard(fields).Some? then Ok(Direct(DirectKeyboard(fields).value))
      else if DirectConsumer(fields).Some? then Ok(Direct(DirectConsumer(fields).value))
      else
        match DirectMouse(fields)
        case Err(e) => Err(e)
        case Ok(Some(binding)) => Ok(Direct(binding))
        case Ok(None) => MacroOf(ActionCode(spec))
  }
}
