/** What a specification asks for, read from its text alone; compiled code makes the host
    notice exactly that. */
module Meaning {
  import opened Bytes
  import opened Macro
  import opened Actions
  import opened Config
  import opened Compile
  import opened HostSide
  import Frontend

  // ---------------------------------------------------------------- what a specification asks for

  /** The keys go down in this order, each while all before it are held. */
  predicate Chord(acts: seq<Act>, names: seq<string>) {
    |acts| == |names| &&
    forall i :: 0 <= i < |acts| ==>
      acts[i].Press? && NameOf(acts[i].usage) == names[i] && |acts[i].held| == i &&
      forall j :: 0 <= j < i ==> acts[j].Press? && acts[i].held[j] == Key(acts[j].usage)
  }

  /** What the kinds that contain no other action ask for. */
  predicate AsksFlat(fields: Fields, acts: seq<Act>) {
    match Kind(fields)
    case "hotkey" =>
      var keys := Get(fields, "keys", Null);
      keys.Arr? && Chord(acts, UpperNames(keys.items))
    case "tap" => Chord(acts, [Upper(PyStr(Get(fields, "key", Null)))])
    case "text" => Get(fields, "value", Null).Str? && Read(acts) == Some(Get(fields, "value", Null).s)
    case "delay" =>
      var ms := AsInt(Get(fields, "ms", Null));
      ms.Some? && ms.value >= 0 && acts == [Pause(ms.value)]
    case "consumer" =>
      |acts| == 1 && acts[0].Media? && ControlName(acts[0].control) == Lower(PyStr(Get(fields, "command", Null)))
    case "wheel" =>
      var amount := AsInt(Get(fields, "amount", Null));
      amount.Some? && acts == [Scroll(amount.value)]
    case "hpan" =>
      var amount := AsInt(Get(fields, "amount", Null));
      amount.Some? && acts == [Pan(amount.value)]
    case "horizontal_wheel" =>
      var amount := AsInt(Get(fields, "amount", Null));
      amount.Some? && acts == [Pan(amount.value)]
    case "wait_for_release" => acts == [UntilRelease]
    case "repeat_while_pressed" => acts == [WhilePressed]
    case _ => false
  }

  /** What a specification asks for; a sequence asks for its steps one after the other. */
  ghost predicate Asks(spec: Json, acts: seq<Act>)
    decreases spec, 0
  {
    match spec
    case Str(s) => Alias(Lower(s)).Some? && AsksFlat(Alias(Lower(s)).value, acts)
    case Obj(fields) =>
      if Kind(fields) == "sequence" then
        "steps" in fields && fields["steps"].Arr? &&
        exists parts :: AskEach(fields["steps"].items, parts) && Flatten(parts) == acts
      else AsksFlat(fields, acts)
    case _ => false
  }

  ghost predicate AskEach(steps: seq<Json>, parts: seq<seq<Act>>)
    decreases steps, 1
  {
    |parts| == |steps| && forall i :: 0 <= i < |steps| ==> Asks(steps[i], parts[i])
  }

  // ---------------------------------------------------------------- the tables

  /** The key and modifier tables list each name under its own usage. */
  lemma NamesAreRight(name: string)
    ensures KeyUsage(name).Some? ==> NameOf(KeyUsage(name).value) == name && Mask(KeyUsage(name).value) == 0
    ensures ModifierOf(name).Some? ==>
              NameOf(ModifierOf(name).value.usage) == name &&
              Mask(ModifierOf(name).value.usage) == ModifierOf(name).value.mask
  {
    if |name| == 1 {
      assert name == [name[0]];
    }
  }

  lemma GlyphsAreRight(c: char, layout: string)
    requires TextKey(c, layout).Some?
    ensures var (mask, usage) := TextKey(c, layout).value;
            mask in {0, 2} && usage != 0xE1 && Mask(usage) == 0 && Glyph(mask == 2, usage) == Some(c)
  {
    hide UsPunctuation;
    if 'a' <= c <= 'z' || 'A' <= c <= 'Z' || '0' <= c <= '9' {
      LettersAndDigits(c);
    } else if UsPunctuation(c).Some? {
      Punctuation(c);
    }
  }

  lemma LettersAndDigits(c: char)
    ensures 'a' <= c <= 'z' ==> KeyUsage([UpperChar(c)]) == Some(c as int - 'a' as int + 4)
    ensures 'A' <= c <= 'Z' ==> KeyUsage([c]) == Some(c as int - 'A' as int + 4)
    ensures '1' <= c <= '9' ==> KeyUsage([c]) == Some(c as int - '1' as int + 0x1E)
    ensures '0' <= c <= '9' ==> KeyUsage([c]).Some? && Glyph(false, KeyUsage([c]).value) == Some(c)
  {
    if '0' <= c <= '9' {
      assert c == '0' || PLAIN_DIGITS[c as int - '1' as int] == c;
      assert c == '0' ==> [c] == "0";
    }
  }

  lemma Punctuation(c: char)
    requires UsPunctuation(c).Some?
    ensures var (mask, usage) := UsPunctuation(c).value;
            mask in {0, 2} && usage != 0xE1 && Mask(usage) == 0 && Glyph(mask == 2, usage) == Some(c)
  {
  }

  // ---------------------------------------------------------------- the flat kinds

  function Usages(mods: seq<Modifier>): seq<byte> {
    seq(|mods|, i requires 0 <= i < |mods| => mods[i].usage)
  }

  /** Pressing these one after the other, on top of what is held. */
  function PressAll(usages: seq<byte>, held: seq<Held>): seq<Act> {
    if usages == [] then [] else [Press(held, usages[0])] + PressAll(usages[1..], held + [Key(usages[0])])
  }

  lemma {:induction false} PressAllAt(usages: seq<byte>, held: seq<Held>, i: nat)
    requires i < |usages|
    ensures |PressAll(usages, held)| == |usages|
    ensures PressAll(usages, held)[i].Press? && PressAll(usages, held)[i].usage == usages[i]
    ensures var now := PressAll(usages, held)[i].held;
            |now| == |held| + i && now[..|held|] == held && forall j :: 0 <= j < i ==> now[|held| + j] == Key(usages[j])
  {
    var rest, more := usages[1..], held + [Key(usages[0])];
    if i > 0 {
      PressAllAt(rest, more, i - 1);
      var now := PressAll(usages, held)[i].held;
      assert now == PressAll(rest, more)[i - 1].held;
      assert now[..|held|] == now[..|more|][..|held|] == held;
      assert now[|held|] == now[..|more|][|held|] == Key(usages[0]);
      forall j | 0 < j < i
        ensures now[|held| + j] == Key(usages[j])
      {
        assert now[|more| + (j - 1)] == Key(rest[j - 1]);
      }
    } else if rest != [] {
      PressAllAt(rest, more, 0);
    } else {
      assert PressAll(rest, more) == [];
    }
  }

  predicate KnownModifiers(mods: seq<Modifier>) {
    forall i :: 0 <= i < |mods| ==> Mask(mods[i].usage) == mods[i].mask
  }

  lemma {:induction false} AroundDoes(mods: seq<Modifier>, usage: byte, held: seq<Held>)
    requires KnownModifiers(mods) && Mask(usage) == 0
    ensures Does(Around(mods, usage), held, PressAll(Usages(mods) + [usage], held))
  {
    hide Does;
    hide Mask;
    if mods == [] {
      KeyAlone(usage, held);
      assert Usages(mods) + [usage] == [usage] && [usage][1..] == [];
      assert [Press(held, usage)] + [] == [Press(held, usage)];
    } else {
      var all := Usages(mods) + [usage];
      AroundDoes(mods[1..], usage, held + [Key(mods[0].usage)]);
      assert all[0] == mods[0].usage && all[1..] == Usages(mods[1..]) + [usage];
      KeyAround(mods[0].usage, Around(mods[1..], usage), held, PressAll(all[1..], held + [Key(mods[0].usage)]));
    }
  }

  lemma {:induction false} EachOncePressed(usages: seq<byte>, held: seq<Held>)
    ensures |PressAll(usages, held)| == |usages|
  {
    if usages != [] {
      EachOncePressed(usages[1..], held + [Key(usages[0])]);
    }
  }

  lemma PressAllIsChord(usages: seq<byte>, names: seq<string>)
    requires |usages| == |names| && forall i :: 0 <= i < |usages| ==> NameOf(usages[i]) == names[i]
    ensures Chord(PressAll(usages, []), names)
  {
    hide NameOf;
    hide PressAll;
    var none: seq<Held> := [];
    var acts := PressAll(usages, none);
    EachOncePressed(usages, none);
    forall i | 0 <= i < |usages|
      ensures acts[i].Press? && acts[i].usage == usages[i] && |acts[i].held| == i
      ensures forall j :: 0 <= j < i ==> acts[i].held[j] == Key(usages[j])
    {
      PressAllAt(usages, none, i);
      var now := acts[i].held;
      forall j | 0 <= j < i
        ensures now[j] == Key(usages[j])
      {
        assert now[|none| + j] == Key(usages[j]);
      }
    }
  }

  lemma HotkeyMeans(keys: Json) returns (acts: seq<Act>)
    requires HotkeyCode(keys).Ok?
    ensures keys.Arr? && Does(HotkeyCode(keys).value, [], acts) && Chord(acts, UpperNames(keys.items))
  {
    hide Does;
    hide Mask;
    hide NameOf;
    hide KeyUsage;
    hide ModifierOf;
    hide Around;
    hide Chord;
    var names := UpperNames(keys.items);
    var last := |names| - 1;
    var mods, usage := Modifiers(names[..last]), KeyUsage(names[last]).value;
    forall i | 0 <= i < last
      ensures Mask(mods[i].usage) == mods[i].mask && NameOf(mods[i].usage) == names[i]
    {
      NamesAreRight(names[i]);
    }
    NamesAreRight(names[last]);
    var usages := Usages(mods) + [usage];
    AroundDoes(mods, usage, []);
    PressAllIsChord(usages, names);
    acts := PressAll(usages, []);
  }

  lemma TapMeans(name: string) returns (acts: seq<Act>)
    requires Tap(name).Ok?
    ensures Does(Tap(name).value, [], acts) && Chord(acts, [Upper(name)])
  {
    hide Does;
    hide Mask;
    hide NameOf;
    hide KeyUsage;
    hide ModifierOf;
    hide Chord;
    hide Upper;
    NamesAreRight(Upper(name));
    var usage := match ModifierOf(Upper(name)) case Some(m) => m.usage case None => KeyUsage(Upper(name)).value;
    KeyAlone(usage, []);
    PressAllIsChord([usage], [Upper(name)]);
    assert PressAll([usage], []) == [Press([], usage)] by {
      assert [usage][1..] == [];
    }
    acts := [Press([], usage)];
  }

  lemma CharMeans(c: char, layout: string) returns (acts: seq<Act>)
    requires CharCode(c, layout).Ok?
    ensures Does(CharCode(c, layout).value, [], acts)
    ensures acts != [] && forall rest :: Read(acts + rest) == Typed(Some(c), Read(rest))
  {
    hide Does;
    hide Mask;
    hide Glyph;
    hide TextKey;
    GlyphsAreRight(c, layout);
    var (mask, usage) := TextKey(c, layout).value;
    if mask == 0 {
      KeyAlone(usage, []);
      acts := [Press([], usage)];
      forall rest
        ensures Read(acts + rest) == Typed(Some(c), Read(rest))
      {
        assert (acts + rest)[1..] == rest;
      }
    } else {
      assert Mask(0xE1) == 2 by { ShiftMask(); }
      KeyAlone(usage, [Key(0xE1)]);
      assert [] + [Key(0xE1)] == [Key(0xE1)];
      KeyAround(0xE1, [OP_KEY_DOWN, 0, usage] + [OP_KEY_UP, 0, usage], [], [Press([Key(0xE1)], usage)]);
      acts := [Press([], 0xE1)] + [Press([Key(0xE1)], usage)];
      forall rest
        ensures Read(acts + rest) == Typed(Some(c), Read(rest))
      {
        assert (acts + rest)[2..] == rest;
      }
    }
  }

  lemma ShiftMask()
    ensures Mask(0xE1) == 2
  {
  }

  /** Text round-trips: what is typed reads back as the text. */
  lemma {:induction false} CharsMean(s: string, layout: string) returns (acts: seq<Act>)
    requires CharsCode(s, layout).Ok?
    ensures Does(CharsCode(s, layout).value, [], acts) && Read(acts) == Some(s)
  {
    hide Does;
    hide CharCode;
    if s == "" {
      acts := [];
      DoesNothing([]);
    } else {
      var first := CharMeans(s[0], layout);
      var rest := CharsMean(s[1..], layout);
      acts := first + rest;
      DoesBoth(CharCode(s[0], layout).value, first, CharsCode(s[1..], layout).value, rest, []);
      assert [s[0]] + s[1..] == s;
    }
  }

  lemma DelayMeans(ms: Json)
    requires DelayCode(ms).Ok?
    ensures AsInt(ms).Some? && AsInt(ms).value >= 0 && Does(DelayCode(ms).value, [], [Pause(AsInt(ms).value)])
  {
    DoesOne(DelayCode(ms).value, [], [Pause(AsInt(ms).value)]);
  }

  lemma AxisMeans(op: byte, amount: Json)
    requires op in {OP_ROLLER, OP_ACPAN} && AxisCode(op, amount).Ok?
    ensures AsInt(amount).Some?
    ensures Does(AxisCode(op, amount).value, [],
                 [if op == OP_ROLLER then Scroll(AsInt(amount).value) else Pan(AsInt(amount).value)])
  {
    var n := AsInt(amount).value;
    assert Signed(n % 256) == n;
    DoesOne(AxisCode(op, amount).value, [], [if op == OP_ROLLER then Scroll(n) else Pan(n)]);
  }

  lemma ControlsAreRight(command: string)
    requires ConsumerUsage(command).Some?
    ensures var u := ConsumerUsage(command).value;
            u < 0x1_0000 && ControlName(u) == command && UnpackBE(u / 256 % 256, u % 256) == u
  {
  }

  lemma ControlGoesDownAndUp(u: nat)
    requires u < 0x1_0000
    ensures var hi, lo := u / 256 % 256, u % 256;
            && IsToken([OP_CONSUMER_DOWN, hi, lo]) && IsToken([OP_CONSUMER_UP, hi, lo])
            && Notice([OP_CONSUMER_DOWN, hi, lo], []) == Some(([Media(u)], [Control(u)]))
            && Notice([OP_CONSUMER_UP, hi, lo], [Control(u)]) == Some(([], []))
  {
    assert UnpackBE(u / 256 % 256, u % 256) == u;
    assert [] + [Control(u)] == [Control(u)];
  }

  lemma ConsumerMeans(command: Json) returns (usage: nat)
    requires ConsumerCode(command).Ok?
    ensures Does(ConsumerCode(command).value, [], [Media(usage)]) && ControlName(usage) == Lower(PyStr(command))
  {
    hide Does;
    hide ConsumerUsage;
    hide Lower;
    hide ControlName;
    hide Notice;
    ControlsAreRight(Lower(PyStr(command)));
    var u := ConsumerUsage(Lower(PyStr(command))).value;
    var down, up := [OP_CONSUMER_DOWN, u / 256 % 256, u % 256], [OP_CONSUMER_UP, u / 256 % 256, u % 256];
    ControlGoesDownAndUp(u);
    DoesNothing([Control(u)]);
    assert [] + [Control(u)] == [Control(u)];
    DoesAround(down, [], up, [], Control(u), [Media(u)], []);
    assert down + [] + up == down + up && [Media(u)] + [] == [Media(u)];
    usage := u;
  }

  lemma HoldMeans()
    ensures Does([OP_WAIT_FOR_RELEASE], [], [UntilRelease]) && Does([OP_REPEAT_WHILE_PRESSED], [], [WhilePressed])
  {
    DoesOne([OP_WAIT_FOR_RELEASE], [], [UntilRelease]);
    DoesOne([OP_REPEAT_WHILE_PRESSED], [], [WhilePressed]);
  }

  lemma TextMeans(value: Json, layout: Json) returns (acts: seq<Act>)
    requires TextCode(value, layout).Ok?
    ensures value.Str? && Does(TextCode(value, layout).value, [], acts) && Read(acts) == Some(value.s)
  {
    hide Does;
    hide CharsCode;
    hide Lower;
    acts := CharsMean(value.s, Lower(PyStr(layout)));
  }

  lemma FlatMeans(fields: Fields) returns (acts: seq<Act>)
    requires FlatCode(fields).Ok?
    ensures Does(FlatCode(fields).value, [], acts) && AsksFlat(fields, acts)
  {
    hide Does;
    hide Kind;
    hide HotkeyCode;
    hide TextCode;
    hide Tap;
    hide ConsumerCode;
    hide AxisCode;
    hide DelayCode;
    hide Chord;
    hide Read;
    hide ControlName;
    hide Upper;
    hide Lower;
    match Kind(fields)
    case "hotkey" =>
      acts := HotkeyMeans(Get(fields, "keys", Null));
    case "tap" =>
      acts := TapMeans(PyStr(Get(fields, "key", Null)));
    case "text" =>
      acts := TextMeans(Get(fields, "value", Null), Get(fields, "layout", Str("basic")));
    case "delay" =>
      DelayMeans(Get(fields, "ms", Null));
      acts := [Pause(AsInt(Get(fields, "ms", Null)).value)];
    case "consumer" =>
      var usage := ConsumerMeans(Get(fields, "command", Null));
      acts := [Media(usage)];
    case "wheel" =>
      AxisMeans(OP_ROLLER, Get(fields, "amount", Null));
      acts := [Scroll(AsInt(Get(fields, "amount", Null)).value)];
    case "hpan" =>
      AxisMeans(OP_ACPAN, Get(fields, "amount", Null));
      acts := [Pan(AsInt(Get(fields, "amount", Null)).value)];
    case "horizontal_wheel" =>
      AxisMeans(OP_ACPAN, Get(fields, "amount", Null));
      acts := [Pan(AsInt(Get(fields, "amount", Null)).value)];
    case "wait_for_release" =>
      HoldMeans();
      acts := [UntilRelease];
    case "repeat_while_pressed" =>
      HoldMeans();
      acts := [WhilePressed];
  }

  // ---------------------------------------------------------------- whole actions

  lemma {:induction false} ActionMeans(spec: Json) returns (acts: seq<Act>)
    requires ActionCode(spec).Ok?
    ensures Does(ActionCode(spec).value, [], acts) && Asks(spec, acts)
    decreases spec, 0
  {
    hide Does;
    hide FlatCode;
    hide AsksFlat;
    hide Kind;
    hide Alias;
    match spec
    case Str(s) => acts := FlatMeans(Alias(Lower(s)).value);
    case Obj(fields) =>
      if Kind(fields) == "sequence" {
        var parts := StepsMean(fields["steps"].items);
        acts := Flatten(parts);
      } else {
        acts := FlatMeans(fields);
      }
  }

  /** The code of a sequence is cut into the code of its steps, in order. */
  lemma {:induction false} StepsMean(steps: seq<Json>) returns (parts: seq<seq<Act>>)
    requires StepsCode(steps).Ok?
    ensures AskEach(steps, parts) && Does(StepsCode(steps).value, [], Flatten(parts))
    decreases steps, 1
  {
    hide Does;
    hide ActionCode;
    hide Asks;
    if steps == [] {
      parts := [];
      DoesNothing([]);
    } else {
      var first := ActionMeans(steps[0]);
      var rest := StepsMean(steps[1..]);
      parts := [first] + rest;
      assert parts[1..] == rest;
      DoesBoth(ActionCode(steps[0]).value, first, StepsCode(steps[1..]).value, Flatten(rest), []);
      assert forall i :: 0 < i < |steps| ==> steps[i] == steps[1..][i - 1];
    }
  }

  /** What a macro makes the host notice, from nothing held to nothing held. */
  ghost predicate Performs(tokens: seq<Token>, spec: Json) {
    var noticed := Host(tokens, []);
    noticed.Some? && noticed.value.1 == [] && Asks(spec, noticed.value.0)
  }

  /** MAIN RESULT. A compiled macro makes the host notice exactly what its specification
      asks for, in its order, and leaves nothing held. */
  lemma MacroPerforms(spec: Json)
    requires CompileBinding(spec).Ok? && CompileBinding(spec).value.MacroItem?
    ensures var r := Tokenize(CompileBinding(spec).value.bytecode); r.Ok? && Performs(r.value, spec)
  {
    hide ActionCode;
    hide DirectKeyboard;
    hide DirectConsumer;
    hide DirectMouse;
    hide Normalize;
    hide Kind;
    hide RequiresHost;
    hide Asks;
    hide Split;
    var code := ActionCode(spec).value;
    var acts := ActionMeans(spec);
    DoesOne([OP_END], [], []);
    DoesBoth(code, acts, [OP_END], [], []);
    assert acts + [] == acts;
    SplitOne([OP_END]);
    SplitConcat(code, [OP_END]);
  }

  // ---------------------------------------------------------------- direct bindings

  /** What the four bytes of a direct binding ask for. */
  predicate DirectAsks(fields: Fields, b: seq<byte>) {
    |b| == 4 && b[0] == 0x80 &&
    match b[1]
    case 0x01 =>
      Kind(fields) == "mouse" && ButtonName(UnpackBE(b[2], b[3])) == Lower(PyStr(Get(fields, "command", Null)))
    case 0x02 =>
      Kind(fields) == "hotkey" &&
      var keys := Get(fields, "keys", Null);
      keys.Arr? && ChordByte(b[2], b[3], UpperNames(keys.items))
    case 0x03 =>
      Kind(fields) == "consumer" && ControlName(UnpackBE(b[2], b[3])) == Lower(PyStr(Get(fields, "command", Null)))
    case _ => false
  }

  /** One bit for each modifier named, and the last key. */
  predicate ChordByte(mask: byte, usage: byte, names: seq<string>) {
    names != [] && NameOf(usage) == names[|names| - 1] && mask < 8 &&
    var mods := names[..|names| - 1];
    (mask % 2 == 1 <==> "CTRL" in mods) && (mask / 2 % 2 == 1 <==> "SHIFT" in mods) &&
    (mask / 4 == 1 <==> "ALT" in mods) && forall m :: m in mods ==> m in {"CTRL", "SHIFT", "ALT"}
  }

  lemma KeyboardMeans(fields: Fields)
    requires DirectKeyboard(fields).Some?
    ensures DirectAsks(fields, DirectKeyboard(fields).value)
  {
    hide KeyUsage;
    hide ModifierOf;
    hide NameOf;
    hide Kind;
    Frontend.DirectNames(fields);
    var names := UpperNames(Get(fields, "keys", Null).items);
    NamesAreRight(names[|names| - 1]);
  }

  /** The commands a missing field stands for are no commands. */
  lemma MissingCommand(fields: Fields)
    ensures "command" !in fields ==>
              var name := Lower(PyStr(Get(fields, "command", Str(""))));
              ConsumerUsage(name).None? && MouseMask(name).None?
  {
  }

  lemma ConsumerBindingMeans(fields: Fields)
    requires DirectConsumer(fields).Some?
    ensures DirectAsks(fields, DirectConsumer(fields).value)
  {
    hide ConsumerUsage;
    hide MouseMask;
    hide ControlName;
    hide Lower;
    hide Kind;
    Frontend.DirectNames(fields);
    MissingCommand(fields);
    ControlsAreRight(Lower(PyStr(fields["command"])));
  }

  lemma ButtonsAreRight(command: string)
    requires MouseMask(command).Some?
    ensures var m := MouseMask(command).value; ButtonName(m) == command && UnpackBE(m / 256 % 256, m % 256) == m
  {
  }

  lemma MouseBindingMeans(fields: Fields)
    requires DirectMouse(fields).Ok? && DirectMouse(fields).value.Some?
    ensures DirectAsks(fields, DirectMouse(fields).value.value)
  {
    hide ConsumerUsage;
    hide MouseMask;
    hide ButtonName;
    hide Lower;
    hide Kind;
    Frontend.DirectNames(fields);
    MissingCommand(fields);
    ButtonsAreRight(Lower(PyStr(fields["command"])));
  }

  /** A direct binding names the keys, the control or the button that was asked for. */
  lemma BindingMeans(spec: Json)
    requires CompileBinding(spec).Ok? && CompileBinding(spec).value.Direct?
    ensures DirectAsks(Normalize(spec).value, CompileBinding(spec).value.binding)
  {
    hide ActionCode;
    hide DirectKeyboard;
    hide DirectConsumer;
    hide DirectMouse;
    hide DirectAsks;
    hide Kind;
    hide RequiresHost;
    var fields := Normalize(spec).value;
    if DirectKeyboard(fields).Some? {
      KeyboardMeans(fields);
    } else if DirectConsumer(fields).Some? {
      ConsumerBindingMeans(fields);
    } else {
      MouseBindingMeans(fields);
    }
  }

  /** The four bytes of each alias. */
  function AliasBinding(name: string): seq<byte> {
    match name
    case "copy" => [0x80, 0x02, 0x01, 0x06]
    case "paste" => [0x80, 0x02, 0x01, 0x19]
    case "select_all" => [0x80, 0x02, 0x01, 0x04]
    case "switch_window" => [0x80, 0x02, 0x04, 0x2B]
    case "task_manager" => [0x80, 0x02, 0x03, 0x29]
    case "volume_up" => [0x80, 0x03, 0x00, 0xE9]
    case "volume_down" => [0x80, 0x03, 0x00, 0xEA]
    case _ => []
  }

  lemma ChordAlias(name: string)
    requires Alias(name).Some? && name !in {"volume_up", "volume_down"}
    ensures DirectKeyboard(Alias(name).value) == Some(AliasBinding(name))
  {
    hide DirectKeyboard;
    hide Upper;
    CapitalNames();
    match name
    case "copy" => AliasChord(["CTRL"], "C"); assert ["CTRL"] + ["C"] == ["CTRL", "C"];
    case "paste" => AliasChord(["CTRL"], "V"); assert ["CTRL"] + ["V"] == ["CTRL", "V"];
    case "select_all" => AliasChord(["CTRL"], "A"); assert ["CTRL"] + ["A"] == ["CTRL", "A"];
    case "switch_window" => AliasChord(["ALT"], "TAB"); assert ["ALT"] + ["TAB"] == ["ALT", "TAB"];
    case "task_manager" =>
      AliasChord(["CTRL", "SHIFT"], "ESC");
      assert ["CTRL", "SHIFT"] + ["ESC"] == ["CTRL", "SHIFT", "ESC"];
  }

  lemma VolumeAlias(name: string)
    requires name in {"volume_up", "volume_down"}
    ensures Alias(name).Some? && DirectKeyboard(Alias(name).value).None?
    ensures DirectConsumer(Alias(name).value) == Some(AliasBinding(name))
  {
    assert Lower("volume_up") == "volume_up" && Lower("volume_down") == "volume_down";
  }

  /** An alias in any letter case is bound directly, to these bytes. */
  lemma AliasesMean(s: string)
    requires Alias(Lower(s)).Some?
    ensures CompileBinding(Str(s)) == Ok(Direct(AliasBinding(Lower(s))))
  {
    hide Alias;
    hide AliasBinding;
    hide DirectKeyboard;
    hide DirectConsumer;
    hide DirectMouse;
    hide ActionCode;
    hide Kind;
    hide RequiresHost;
    Frontend.AliasNeedsNoHost(Lower(s));
    if Lower(s) in {"volume_up", "volume_down"} {
      VolumeAlias(Lower(s));
    } else {
      ChordAlias(Lower(s));
    }
  }

  lemma CapitalNames()
    ensures Upper("CTRL") == "CTRL" && Upper("SHIFT") == "SHIFT" && Upper("ALT") == "ALT"
    ensures Upper("C") == "C" && Upper("V") == "V" && Upper("A") == "A"
    ensures Upper("TAB") == "TAB" && Upper("ESC") == "ESC"
  {
  }

  lemma AliasChord(mods: seq<string>, key: string)
    requires mods != [] && (forall i :: 0 <= i < |mods| ==> mods[i] in {"CTRL", "SHIFT", "ALT"})
    requires forall i :: 0 <= i < |mods| ==> Upper(mods[i]) == mods[i]
    requires Upper(key) == key && KeyUsage(key).Some? && ModifierOf(key).None?
    ensures DirectKeyboard(Hotkey(mods + [key])) == Some([0x80, 0x02, MaskOf(mods), KeyUsage(key).value])
  {
    hide KeyUsage;
    hide ModifierOf;
    hide Upper;
    hide MaskOf;
    var keys := mods + [key];
    var names := UpperNames(Get(Hotkey(keys), "keys", Null).items);
    assert names == keys && names[..|names| - 1] == mods && names[|names| - 1] == key;
  }
}
