/** Action specifications as they come out of JSON, and the key tables. */
module Actions {
  import opened Bytes

  datatype Json =
    | Null
    | Bool(b: bool)
    | Int(n: int)
    | Float(text: string)
    | Str(s: string)
    | Arr(items: seq<Json>)
    | Obj(fields: Fields)

  type Fields = map<string, Json>

  // ---------------------------------------------------------------- Python conversions

  function Decimal(n: int): string
    decreases if n < 0 then 1 - n else n
  {
    if n < 0 then "-" + Decimal(-n)
    else if n < 10 then [(n + '0' as int) as char]
    else Decimal(n / 10) + [(n % 10 + '0' as int) as char]
  }

  /** `str(x)`. For lists and dictionaries only the opening bracket is kept: no name
      in any table starts with one. */
  function PyStr(j: Json): string {
    match j
    case Null => "None"
    case Bool(b) => if b then "True" else "False"
    case Int(n) => Decimal(n)
    case Float(text) => text
    case Str(s) => s
    case Arr(_) => "["
    case Obj(_) => "{"
  }

  /** `isinstance(x, int)`, which Python also answers for booleans. */
  function AsInt(j: Json): Option<int> {
    match j
    case Int(n) => Some(n)
    case Bool(b) => Some(if b then 1 else 0)
    case _ => None
  }

  function UpperChar(c: char): char {
    if 'a' <= c <= 'z' then (c as int - 32) as char else c
  }

  function LowerChar(c: char): char {
    if 'A' <= c <= 'Z' then (c as int + 32) as char else c
  }

  function Upper(s: string): string {
    seq(|s|, i requires 0 <= i < |s| => UpperChar(s[i]))
  }

  function Lower(s: string): string {
    seq(|s|, i requires 0 <= i < |s| => LowerChar(s[i]))
  }

  /** `spec.get(key, default)`. */
  function Get(fields: Fields, key: string, default: Json): Json {
    if key in fields then fields[key] else default
  }

  /** The action name as the lower-casing code sees it. */
  function Kind(fields: Fields): string {
    Lower(PyStr(Get(fields, "action", Str(""))))
  }

  // ---------------------------------------------------------------- tables

  function KeyUsage(name: string): Option<byte> {
    if |name| == 1 && 'A' <= name[0] <= 'Z' then Some(0x04 + (name[0] as int - 'A' as int))
    else if |name| == 1 && '1' <= name[0] <= '9' then Some(0x1E + (name[0] as int - '1' as int))
    else
      match name
      case "0" => Some(0x27)
      case "ENTER" => Some(0x28)
      case "ESC" => Some(0x29)
      case "BACKSPACE" => Some(0x2A)
      case "TAB" => Some(0x2B)
      case "SPACE" => Some(0x2C)
      case "F1" => Some(0x3A)
      case "F2" => Some(0x3B)
      case "F3" => Some(0x3C)
      case "F4" => Some(0x3D)
      case "F5" => Some(0x3E)
      case "F6" => Some(0x3F)
      case "F7" => Some(0x40)
      case "F8" => Some(0x41)
      case "F9" => Some(0x42)
      case "F10" => Some(0x43)
      case "F11" => Some(0x44)
      case "F12" => Some(0x45)
      case "RIGHT" => Some(0x4F)
      case "LEFT" => Some(0x50)
      case "DOWN" => Some(0x51)
      case "UP" => Some(0x52)
      case _ => None
  }

  /** `KEYS.values()`. */
  predicate KnownUsage(u: byte) {
    0x04 <= u <= 0x2C || 0x3A <= u <= 0x45 || 0x4F <= u <= 0x52
  }

  lemma UsagesAreKnown(name: string)
    requires KeyUsage(name).Some?
    ensures KnownUsage(KeyUsage(name).value)
  {}

  datatype Modifier = Modifier(mask: byte, usage: byte)

  function ModifierOf(name: string): Option<Modifier> {
    match name
    case "CTRL" => Some(Modifier(0x01, 0xE0))
    case "SHIFT" => Some(Modifier(0x02, 0xE1))
    case "ALT" => Some(Modifier(0x04, 0xE2))
    case "WIN" => Some(Modifier(0x08, 0xE3))
    case _ => None
  }

  function ConsumerUsage(command: string): Option<nat> {
    match command
    case "volume_up" => Some(0x00E9)
    case "volume_down" => Some(0x00EA)
    case _ => None
  }

  function MouseMask(command: string): Option<nat> {
    match command
    case "left" => Some(0x0001)
    case "right" => Some(0x0002)
    case "middle" => Some(0x0004)
    case "back" => Some(0x0008)
    case "forward" => Some(0x0010)
    case _ => None
  }

  predicate RequiresHost(kind: string) {
    kind in {"run", "launch", "start_application", "unicode", "unicode_text", "emoji",
             "obs", "discord", "overwolf", "app_action"}
  }

  function Hotkey(keys: seq<string>): Fields {
    map["action" := Str("hotkey"), "keys" := Arr(seq(|keys|, i requires 0 <= i < |keys| => Str(keys[i])))]
  }

  function Alias(name: string): Option<Fields> {
    match name
    case "copy" => Some(Hotkey(["CTRL", "C"]))
    case "paste" => Some(Hotkey(["CTRL", "V"]))
    case "select_all" => Some(Hotkey(["CTRL", "A"]))
    case "switch_window" => Some(Hotkey(["ALT", "TAB"]))
    case "task_manager" => Some(Hotkey(["CTRL", "SHIFT", "ESC"]))
    case "volume_up" => Some(map["action" := Str("consumer"), "command" := Str("volume_up")])
    case "volume_down" => Some(map["action" := Str("consumer"), "command" := Str("volume_down")])
    case _ => None
  }

  /** `US_CHAR_MAP`: modifier mask and usage of US punctuation. */
  function UsPunctuation(c: char): Option<(byte, byte)> {
    match c
    case '-' => Some((0, 0x2D))
    case '_' => Some((2, 0x2D))
    case '=' => Some((0, 0x2E))
    case '+' => Some((2, 0x2E))
    case '[' => Some((0, 0x2F))
    case '{' => Some((2, 0x2F))
    case ']' => Some((0, 0x30))
    case '}' => Some((2, 0x30))
    case '\\' => Some((0, 0x31))
    case '|' => Some((2, 0x31))
    case ';' => Some((0, 0x33))
    case ':' => Some((2, 0x33))
    case '\'' => Some((0, 0x34))
    case '"' => Some((2, 0x34))
    case '`' => Some((0, 0x35))
    case '~' => Some((2, 0x35))
    case ',' => Some((0, 0x36))
    case '<' => Some((2, 0x36))
    case '.' => Some((0, 0x37))
    case '>' => Some((2, 0x37))
    case '/' => Some((0, 0x38))
    case '?' => Some((2, 0x38))
    case '!' => Some((2, 0x1E))
    case '@' => Some((2, 0x1F))
    case '#' => Some((2, 0x20))
    case '$' => Some((2, 0x21))
    case '%' => Some((2, 0x22))
    case '^' => Some((2, 0x23))
    case '&' => Some((2, 0x24))
    case '*' => Some((2, 0x25))
    case '(' => Some((2, 0x26))
    case ')' => Some((2, 0x27))
    case _ => None
  }
}
