/** What the compiler emits: whole short instructions, no JUMP, one END, and every key
    released again. */
module Emission {
  import opened Bytes
  import opened Macro
  import opened Actions
  import opened Config
  import opened Compile

  // ---------------------------------------------------------------- held keys

  /** The release that matches a press, as the instruction bytes. */
  function Release(t: Token): Token
    requires |t| == 3
  {
    [if t[0] == OP_KEY_DOWN then OP_KEY_UP else OP_CONSUMER_UP, t[1], t[2]]
  }

  /** One instruction on the multiset of releases still owed; `None` when it releases
      something that is not held. */
  function Act(t: Token, owed: multiset<Token>): Option<multiset<Token>>
    requires IsToken(t)
  {
    if t[0] == OP_KEY_DOWN || t[0] == OP_CONSUMER_DOWN then Some(owed + multiset{Release(t)})
    else if t[0] == OP_KEY_UP || t[0] == OP_CONSUMER_UP then
      if t in owed then Some(owed - multiset{t}) else None
    else Some(owed)
  }

  function Perform(tokens: seq<Token>, owed: multiset<Token>): Option<multiset<Token>>
    requires AllTokens(tokens)
  {
    if tokens == [] then Some(owed)
    else
      match Act(tokens[0], owed)
      case None => None
      case Some(next) => Perform(tokens[1..], next)
  }

  /** Whatever is held before is held after, and nothing is released twice. */
  ghost predicate Balanced(tokens: seq<Token>)
    requires AllTokens(tokens)
  {
    forall owed :: Perform(tokens, owed) == Some(owed)
  }

  lemma {:induction false} PerformConcat(a: seq<Token>, b: seq<Token>, owed: multiset<Token>)
    requires AllTokens(a) && AllTokens(b)
    ensures AllTokens(a + b)
    ensures Perform(a + b, owed) == match Perform(a, owed) { case None => None case Some(next) => Perform(b, next) }
  {
    if a == [] {
      assert a + b == b;
    } else {
      assert (a + b)[0] == a[0] && (a + b)[1..] == a[1..] + b;
      match Act(a[0], owed)
      case None =>
      case Some(next) => PerformConcat(a[1..], b, next);
    }
  }

  // ---------------------------------------------------------------- emitted bytes

  /** Short instructions only, none of them JUMP or END, all keys released. */
  ghost predicate Body(bytes: seq<byte>) {
    Split(bytes).Ok? &&
    var tokens := Split(bytes).value;
    AllTokens(tokens) && Plain(tokens) && Balanced(tokens)
  }

  predicate Plain(tokens: seq<Token>) {
    forall i :: 0 <= i < |tokens| ==> PlainToken(tokens[i])
  }

  predicate PlainToken(t: Token) {
    1 <= |t| <= 3 && t[0] != OP_JUMP && t[0] != OP_END
  }

  lemma EmptyBody()
    ensures Body([])
  {}

  lemma BodyConcat(a: seq<byte>, b: seq<byte>)
    requires Body(a) && Body(b)
    ensures Body(a + b)
  {
    hide Split;
    SplitConcat(a, b);
    var s, t := Split(a).value, Split(b).value;
    forall owed
      ensures AllTokens(s + t) && Perform(s + t, owed) == Some(owed)
    {
      PerformConcat(s, t, owed);
    }
    PerformConcat(s, t, multiset{});
  }

  lemma SingleBody(t: Token)
    requires IsToken(t) && PlainToken(t)
    requires t[0] !in {OP_KEY_DOWN, OP_KEY_UP, OP_CONSUMER_DOWN, OP_CONSUMER_UP}
    ensures Body(t)
  {
    SplitOne(t);
    forall owed
      ensures Perform([t], owed) == Some(owed)
    {
      assert [t][1..] == [];
    }
  }

  /** A press, a balanced body, and the matching release. */
  lemma Wrapped(down: Token, inner: seq<byte>, up: Token)
    requires |down| == 3 && down[0] in {OP_KEY_DOWN, OP_CONSUMER_DOWN} && up == Release(down) && Body(inner)
    ensures Body(down + inner + up)
  {
    hide Split;
    var s := Split(inner).value;
    SplitOne(down);
    SplitOne(up);
    SplitConcat(down, inner);
    SplitConcat(down + inner, up);
    var tokens := [down] + s + [up];
    assert Split(down + inner + up) == Ok(tokens);
    forall owed
      ensures AllTokens(tokens) && Perform(tokens, owed) == Some(owed)
    {
      var held := owed + multiset{up};
      PerformConcat([down] + s, [up], owed);
      PerformConcat([down], s, owed);
      assert Perform([down], owed) == Some(held) by { assert [down][1..] == []; }
      assert Perform([up], held) == Some(owed) by {
        assert [up][1..] == [];
        assert held - multiset{up} == owed;
      }
    }
    assert AllTokens(tokens) by { PerformConcat([down] + s, [up], multiset{}); }
  }

  lemma PressRelease(down: Token, up: Token)
    requires |down| == 3 && down[0] in {OP_KEY_DOWN, OP_CONSUMER_DOWN} && up == Release(down)
    ensures Body(down + up)
  {
    EmptyBody();
    Wrapped(down, [], up);
    assert down + [] + up == down + up;
  }

  lemma {:induction false} AroundBody(mods: seq<Modifier>, usage: byte)
    ensures Body(Around(mods, usage))
  {
    if mods == [] {
      PressRelease([OP_KEY_DOWN, 0, usage], [OP_KEY_UP, 0, usage]);
    } else {
      AroundBody(mods[1..], usage);
      Wrapped(ModDown(mods[0]), Around(mods[1..], usage), ModUp(mods[0]));
    }
  }

  lemma JoinBody(a: Code, b: Code)
    requires a.Ok? ==> Body(a.value)
    requires b.Ok? ==> Body(b.value)
    ensures Join(a, b).Ok? ==> Body(Join(a, b).value)
  {
    hide Body;
    if Join(a, b).Ok? {
      BodyConcat(a.value, b.value);
    }
  }

  lemma CharBody(c: char, layout: string)
    ensures CharCode(c, layout).Ok? ==> Body(CharCode(c, layout).value)
  {
    hide Body;
    hide TextKey;
    match TextKey(c, layout)
    case None =>
    case Some((mask, usage)) =>
      PressRelease([OP_KEY_DOWN, 0, usage], [OP_KEY_UP, 0, usage]);
      if mask != 0 {
        Wrapped([OP_KEY_DOWN, mask, 0xE1], [OP_KEY_DOWN, 0, usage] + [OP_KEY_UP, 0, usage], [OP_KEY_UP, mask, 0xE1]);
      }
  }

  lemma {:induction false} CharsBody(s: string, layout: string)
    ensures CharsCode(s, layout).Ok? ==> Body(CharsCode(s, layout).value)
  {
    hide Body;
    hide CharCode;
    if s == "" {
      EmptyBody();
    } else {
      CharBody(s[0], layout);
      CharsBody(s[1..], layout);
      JoinBody(CharCode(s[0], layout), CharsCode(s[1..], layout));
    }
  }

  lemma TapBody(name: string)
    ensures Tap(name).Ok? ==> Body(Tap(name).value)
  {
    hide Body;
    hide KeyUsage;
    hide ModifierOf;
    hide Upper;
    match ModifierOf(Upper(name))
    case Some(m) => PressRelease([OP_KEY_DOWN, m.mask, m.usage], [OP_KEY_UP, m.mask, m.usage]);
    case None =>
      match KeyUsage(Upper(name))
      case Some(u) => PressRelease([OP_KEY_DOWN, 0, u], [OP_KEY_UP, 0, u]);
      case None =>
  }

  lemma ConsumerBody(command: Json)
    ensures ConsumerCode(command).Ok? ==> Body(ConsumerCode(command).value)
  {
    hide Body;
    hide ConsumerUsage;
    hide Lower;
    match ConsumerUsage(Lower(PyStr(command)))
    case None =>
    case Some(u) => PressRelease([OP_CONSUMER_DOWN, u / 256 % 256, u % 256], [OP_CONSUMER_UP, u / 256 % 256, u % 256]);
  }

  lemma AxisBody(op: byte, amount: Json)
    requires op in {OP_ROLLER, OP_ACPAN}
    ensures AxisCode(op, amount).Ok? ==> Body(AxisCode(op, amount).value)
  {
    hide Body;
    if AxisCode(op, amount).Ok? {
      SingleBody(AxisCode(op, amount).value);
    }
  }

  lemma DelayBody(ms: Json)
    ensures DelayCode(ms).Ok? ==> Body(DelayCode(ms).value)
  {
    hide Body;
    if DelayCode(ms).Ok? {
      SingleBody(DelayCode(ms).value);
    }
  }

  lemma TextBody(value: Json, layout: Json)
    ensures TextCode(value, layout).Ok? ==> Body(TextCode(value, layout).value)
  {
    hide Body;
    hide CharsCode;
    hide Lower;
    if value.Str? {
      CharsBody(value.s, Lower(PyStr(layout)));
    }
  }

  lemma HotkeyBody(keys: Json)
    ensures HotkeyCode(keys).Ok? ==> Body(HotkeyCode(keys).value)
  {
    hide Body;
    hide Around;
    hide KeyUsage;
    hide ModifierOf;
    if HotkeyCode(keys).Ok? {
      var names := UpperNames(keys.items);
      AroundBody(Modifiers(names[..|names| - 1]), KeyUsage(names[|names| - 1]).value);
    }
  }

  lemma FlatBody(fields: Fields)
    ensures FlatCode(fields).Ok? ==> Body(FlatCode(fields).value)
  {
    hide Body;
    hide Kind;
    hide HotkeyCode;
    hide TextCode;
    hide Tap;
    hide ConsumerCode;
    hide AxisCode;
    hide DelayCode;
    HotkeyBody(Get(fields, "keys", Null));
    TapBody(PyStr(Get(fields, "key", Null)));
    TextBody(Get(fields, "value", Null), Get(fields, "layout", Str("basic")));
    DelayBody(Get(fields, "ms", Null));
    ConsumerBody(Get(fields, "command", Null));
    AxisBody(OP_ROLLER, Get(fields, "amount", Null));
    AxisBody(OP_ACPAN, Get(fields, "amount", Null));
    SingleBody([OP_WAIT_FOR_RELEASE]);
    SingleBody([OP_REPEAT_WHILE_PRESSED]);
  }

  /** Every action that compiles at all compiles to a body. */
  lemma {:induction false} ActionBody(spec: Json)
    ensures ActionCode(spec).Ok? ==> Body(ActionCode(spec).value)
    decreases spec, 0
  {
    hide Body;
    hide FlatCode;
    hide Kind;
    hide Alias;
    match spec
    case Str(s) =>
      if Alias(Lower(s)).Some? {
        FlatBody(Alias(Lower(s)).value);
      }
    case Obj(fields) =>
      if Kind(fields) == "sequence" {
        if "steps" in fields && fields["steps"].Arr? {
          StepsBody(fields["steps"].items);
        }
      } else {
        FlatBody(fields);
      }
    case _ =>
  }

  lemma {:induction false} StepsBody(steps: seq<Json>)
    ensures StepsCode(steps).Ok? ==> Body(StepsCode(steps).value)
    decreases steps, 1
  {
    hide Body;
    hide ActionCode;
    if steps == [] {
      EmptyBody();
    } else {
      ActionBody(steps[0]);
      StepsBody(steps[1..]);
      JoinBody(ActionCode(steps[0]), StepsCode(steps[1..]));
    }
  }

  /** MAIN RESULT. Macro bytecode tokenizes to short instructions and one final END,
      holds no JUMP, and leaves every key and consumer control released. */
  lemma MacroIsClean(spec: Json)
    requires CompileBinding(spec).Ok? && CompileBinding(spec).value.MacroItem?
    ensures var r := Tokenize(CompileBinding(spec).value.bytecode);
            r.Ok? && Clean(r.value) && ShortTokens(r.value) && AllTokens(r.value) && Balanced(r.value)
  {
    hide ActionCode;
    hide Split;
    hide DirectKeyboard;
    hide DirectConsumer;
    hide DirectMouse;
    hide Balanced;
    hide Body;
    hide Clean;
    hide Normalize;
    hide Kind;
    hide RequiresHost;
    ActionBody(spec);
    BodyThenEnd(ActionCode(spec).value);
  }

  lemma BodyThenEnd(bytes: seq<byte>)
    requires Body(bytes)
    ensures var r := Tokenize(bytes + [OP_END]);
            r.Ok? && Clean(r.value) && ShortTokens(r.value) && AllTokens(r.value) && Balanced(r.value)
  {
    hide Split;
    SplitOne([OP_END]);
    SplitConcat(bytes, [OP_END]);
    var body := Split(bytes).value;
    var tokens := body + [[OP_END]];
    forall owed
      ensures AllTokens(tokens) && Perform(tokens, owed) == Some(owed)
    {
      PerformConcat(body, [[OP_END]], owed);
      assert [[OP_END]][1..] == [];
    }
    PerformConcat(body, [[OP_END]], multiset{});
    forall i | 0 <= i < |tokens| - 1
      ensures IsToken(tokens[i]) && tokens[i][0] != OP_JUMP && tokens[i][0] != OP_END
    {
      assert PlainToken(body[i]);
    }
    assert forall t :: t in tokens ==> t == [OP_END] || (exists i :: 0 <= i < |body| && body[i] == t);
  }

  // ---------------------------------------------------------------- the two loops

  /** `compile_hotkey`: press in order, release in reverse. */
  method CompileHotkey(keys: Json) returns (r: Code)
    ensures r == HotkeyCode(keys)
  {
    hide ModifierOf;
    hide KeyUsage;
    hide Around;
    if !keys.Arr? || |keys.items| < 2 {
      return Err(Unsupported);
    }
    var names := UpperNames(keys.items);
    var last := |names| - 1;
    var mods: seq<Modifier> := [];
    for i := 0 to last
      invariant forall j :: 0 <= j < i ==> ModifierOf(names[j]).Some?
      invariant mods == Modifiers(names[..i])
    {
      if ModifierOf(names[i]).None? {
        return Err(Unsupported);
      }
      mods := mods + [ModifierOf(names[i]).value];
    }
    if ModifierOf(names[last]).Some? || KeyUsage(names[last]).None? {
      return Err(Unsupported);
    }
    var out := EmitAround(mods, KeyUsage(names[last]).value);
    r := Ok(out);
  }

  /** The two emission loops: modifiers pressed in order, released in reverse. */
  method EmitAround(mods: seq<Modifier>, usage: byte) returns (out: seq<byte>)
    ensures out == Around(mods, usage)
  {
    hide Around;
    out := [];
    for i := 0 to |mods|
      invariant out == Presses(mods[..i])
    {
      PressesSnoc(mods[..i], mods[i]);
      assert mods[..i + 1] == mods[..i] + [mods[i]];
      out := out + ModDown(mods[i]);
    }
    out := out + [OP_KEY_DOWN, 0, usage];
    out := out + [OP_KEY_UP, 0, usage];
    assert mods[..|mods|] == mods;
    ghost var middle := out;
    for i := |mods| downto 0
      invariant out == middle + Releases(mods[i..])
    {
      assert mods[i..][1..] == mods[i + 1..];
      out := out + ModUp(mods[i]);
    }
    assert mods[0..] == mods;
    AroundIs(mods, usage);
  }

  function Presses(mods: seq<Modifier>): seq<byte> {
    if mods == [] then [] else ModDown(mods[0]) + Presses(mods[1..])
  }

  /** Releases, the first modifier last. */
  function Releases(mods: seq<Modifier>): seq<byte> {
    if mods == [] then [] else Releases(mods[1..]) + ModUp(mods[0])
  }

  lemma {:induction false} PressesSnoc(mods: seq<Modifier>, m: Modifier)
    ensures Presses(mods + [m]) == Presses(mods) + ModDown(m)
  {
    if mods == [] {
      assert [m][1..] == [];
      assert mods + [m] == [m];
    } else {
      assert (mods + [m])[1..] == mods[1..] + [m];
      PressesSnoc(mods[1..], m);
    }
  }

  lemma {:induction false} AroundIs(mods: seq<Modifier>, usage: byte)
    ensures Around(mods, usage) == Presses(mods) + [OP_KEY_DOWN, 0, usage] + [OP_KEY_UP, 0, usage] + Releases(mods)
  {
    if mods != [] {
      AroundIs(mods[1..], usage);
    }
  }

  /** `compile_text`: one character after the other. */
  method CompileText(value: Json, layout: Json) returns (r: Code)
    ensures r == TextCode(value, layout)
  {
    var name := Lower(PyStr(layout));
    if !value.Str? || name !in {"basic", "us"} {
      return Err(Unsupported);
    }
    var out: seq<byte> := [];
    JoinEmpty(CharsCode(value.s, name));
    assert value.s[0..] == value.s;
    for i := 0 to |value.s|
      invariant CharsCode(value.s, name) == Join(Ok(out), CharsCode(value.s[i..], name))
    {
      assert value.s[i..][1..] == value.s[i + 1..];
      match TextKey(value.s[i], name) {
        case None => return Err(TextUnavailable);
        case Some((mask, usage)) =>
          ghost var before := out;
          if mask != 0 {
            out := out + [OP_KEY_DOWN, mask, 0xE1];
          }
          out := out + [OP_KEY_DOWN, 0, usage, OP_KEY_UP, 0, usage];
          if mask != 0 {
            out := out + [OP_KEY_UP, mask, 0xE1];
          }
          assert out == before + CharCode(value.s[i], name).value;
          JoinJoin(before, CharCode(value.s[i], name).value, CharsCode(value.s[i + 1..], name));
      }
    }
    assert out + [] == out;
    r := Ok(out);
  }

  lemma JoinEmpty(code: Code)
    ensures Join(Ok([]), code) == code
  {
    if code.Ok? {
      assert [] + code.value == code.value;
    }
  }

  lemma JoinJoin(a: seq<byte>, b: seq<byte>, rest: Code)
    ensures Join(Ok(a), Join(Ok(b), rest)) == Join(Ok(a + b), rest)
  {
    if rest.Ok? {
      assert a + (b + rest.value) == (a + b) + rest.value;
    }
  }
}
