/** Soundness of the front end: what an accepted specification compiles to. */
module Frontend {
  import opened Bytes
  import opened Macro
  import opened Actions
  import opened Config
  import opened Compile

  // ---------------------------------------------------------------- which specifications compile

  /** A character with no onboard key in this layout. */
  predicate Untypable(c: char, layout: string) {
    !('a' <= c <= 'z' || 'A' <= c <= 'Z' || '0' <= c <= '9' || c in " \n\t") &&
    !(layout == "us" && UsPunctuation(c).Some?)
  }

  predicate UnavailableText(fields: Fields) {
    Kind(fields) == "text" && Get(fields, "value", Null).Str? &&
    var layout := if Get(fields, "layout", Str("basic")) == Str("us") then "us" else "basic";
    exists i :: 0 <= i < |fields["value"].s| && Untypable(fields["value"].s[i], layout)
  }

  /** Some text inside this action uses a character with no onboard key. */
  predicate HasUnavailableText(spec: Json)
    decreases spec
  {
    spec.Obj? &&
    if Kind(spec.fields) == "sequence" then
      "steps" in spec.fields && spec.fields["steps"].Arr? &&
      exists i :: 0 <= i < |spec.fields["steps"].items| && HasUnavailableText(spec.fields["steps"].items[i])
    else UnavailableText(spec.fields)
  }

  lemma TextKeyNone(c: char, layout: string)
    ensures TextKey(c, layout).None? <==> Untypable(c, layout)
  {}

  lemma {:induction false} CharsFail(s: string, layout: string)
    ensures CharsCode(s, layout).Err? <==> exists i :: 0 <= i < |s| && Untypable(s[i], layout)
    ensures CharsCode(s, layout).Err? ==> CharsCode(s, layout).error == TextUnavailable
  {
    hide Untypable;
    hide TextKey;
    if s != "" {
      TextKeyNone(s[0], layout);
      CharsFail(s[1..], layout);
      assert forall i :: 0 < i < |s| ==> s[i] == s[1..][i - 1];
      assert forall i :: 0 <= i < |s| - 1 ==> s[1..][i] == s[i + 1];
    }
  }

  lemma TextFails(fields: Fields)
    requires AcceptsText(fields) && Kind(fields) == "text"
    ensures FlatCode(fields) == TextCode(Get(fields, "value", Null), Get(fields, "layout", Str("basic")))
    ensures FlatCode(fields).Err? <==> UnavailableText(fields)
    ensures FlatCode(fields).Err? ==> FlatCode(fields).error == TextUnavailable
  {
    hide Untypable;
    var layout := Get(fields, "layout", Str("basic"));
    assert Lower("us") == "us" && Lower("basic") == "basic";
    assert Lower(PyStr(layout)) == if layout == Str("us") then "us" else "basic";
    CharsFail(fields["value"].s, Lower(PyStr(layout)));
  }

  /** The default `None` for a missing key or command is no name of either. */
  lemma DefaultsAreUnknown()
    ensures Upper("") == "" && Lower("") == ""
    ensures KeyUsage("").None? && ModifierOf("").None? && ConsumerUsage("").None? && MouseMask("").None?
  {}

  lemma FlatFails(fields: Fields)
    requires AcceptsFlat(fields)
    ensures FlatCode(fields).Err? <==> UnavailableText(fields) || Kind(fields) == "mouse"
    ensures FlatCode(fields).Err? ==>
              FlatCode(fields).error == if Kind(fields) == "mouse" then MouseIsDirectOnly else TextUnavailable
  {
    hide KeyUsage;
    hide ModifierOf;
    hide Upper;
    hide Lower;
    hide Untypable;
    hide CharsCode;
    DefaultsAreUnknown();
    if Kind(fields) == "text" {
      TextFails(fields);
    } else if Kind(fields) == "tap" {
      assert "key" in fields;
    }
  }

  lemma AliasesCompile(name: string)
    requires Alias(name).Some?
    ensures FlatCode(Alias(name).value).Ok? && Kind(Alias(name).value) in {"hotkey", "consumer"}
    ensures DirectKeyboard(Alias(name).value).Some? || DirectConsumer(Alias(name).value).Some?
  {
    AliasKind(name);
    AliasNames(name);
  }

  lemma AliasKind(name: string)
    requires Alias(name).Some?
    ensures Kind(Alias(name).value) in {"hotkey", "consumer"}
  {
    LowerNames();
  }

  lemma LowerNames()
    ensures Lower("hotkey") == "hotkey" && Lower("consumer") == "consumer" && Lower("mouse") == "mouse"
    ensures Lower("volume_up") == "volume_up" && Lower("volume_down") == "volume_down"
  {}

  lemma UpperNamesOfKeys(keys: seq<string>)
    requires forall i :: 0 <= i < |keys| ==> Upper(keys[i]) == keys[i]
    ensures UpperNames(Get(Hotkey(keys), "keys", Null).items) == keys
  {}

  lemma BoundModifier(name: string)
    requires name in {"CTRL", "SHIFT", "ALT"}
    ensures Upper(name) == name && ModifierOf(name).Some?
  {
  }

  lemma AliasHotkey(mods: seq<string>, key: string)
    requires mods != [] && (forall i :: 0 <= i < |mods| ==> mods[i] in {"CTRL", "SHIFT", "ALT"})
    requires Upper(key) == key && KeyUsage(key).Some? && ModifierOf(key).None?
    ensures FlatCode(Hotkey(mods + [key])).Ok? && DirectKeyboard(Hotkey(mods + [key])).Some?
  {
    hide KeyUsage;
    hide ModifierOf;
    hide Upper;
    hide Around;
    LowerNames();
    var keys := mods + [key];
    forall i | 0 <= i < |keys|
      ensures Upper(keys[i]) == keys[i] && (i < |mods| ==> ModifierOf(keys[i]).Some?)
    {
      if i < |mods| {
        BoundModifier(mods[i]);
      }
    }
    UpperNamesOfKeys(keys);
    assert keys[..|keys| - 1] == mods;
  }

  lemma AliasNames(name: string)
    requires Alias(name).Some?
    ensures FlatCode(Alias(name).value).Ok?
    ensures DirectKeyboard(Alias(name).value).Some? || DirectConsumer(Alias(name).value).Some?
  {
    hide FlatCode;
    hide DirectKeyboard;
    assert Upper("C") == "C" && Upper("V") == "V" && Upper("A") == "A";
    assert Upper("TAB") == "TAB" && Upper("ESC") == "ESC";
    match name
    case "copy" => AliasHotkey(["CTRL"], "C"); assert ["CTRL"] + ["C"] == ["CTRL", "C"];
    case "paste" => AliasHotkey(["CTRL"], "V"); assert ["CTRL"] + ["V"] == ["CTRL", "V"];
    case "select_all" => AliasHotkey(["CTRL"], "A"); assert ["CTRL"] + ["A"] == ["CTRL", "A"];
    case "switch_window" => AliasHotkey(["ALT"], "TAB"); assert ["ALT"] + ["TAB"] == ["ALT", "TAB"];
    case "task_manager" =>
      AliasHotkey(["CTRL", "SHIFT"], "ESC");
      assert ["CTRL", "SHIFT"] + ["ESC"] == ["CTRL", "SHIFT", "ESC"];
    case _ => AliasConsumer(name);
  }

  lemma AliasConsumer(name: string)
    requires name in {"volume_up", "volume_down"}
    ensures FlatCode(Alias(name).value).Ok? && DirectConsumer(Alias(name).value).Some?
  {
    LowerNames();
  }

  /** A lower-case raw name is its own kind. */
  lemma DirectNames(fields: Fields)
    ensures Get(fields, "action", Null) == Str("hotkey") ==> Kind(fields) == "hotkey"
    ensures Get(fields, "action", Null) == Str("consumer") ==> Kind(fields) == "consumer"
    ensures Get(fields, "action", Null) == Str("mouse") ==> Kind(fields) == "mouse"
  {
    LowerNames();
  }

  lemma OnlyText(fields: Fields)
    ensures UnavailableText(fields) ==> Kind(fields) == "text"
  {
    hide Kind;
  }

  lemma AcceptedNeedsNoHost(fields: Fields)
    requires AcceptsAction(Obj(fields))
    ensures !RequiresHost(Kind(fields))
    ensures Kind(fields) == "mouse" ==> AcceptsMouse(fields)
  {
    hide Kind;
  }

  /** For every accepted action that is not itself a mouse action, compilation fails
      exactly when some text character has no onboard key, and with that error. */
  lemma {:induction false} ActionFails(spec: Json)
    requires AcceptsAction(spec)
    ensures ActionCode(spec).Err? <==> HasUnavailableText(spec) || IsMouse(spec)
    ensures ActionCode(spec).Err? ==>
              ActionCode(spec).error == if IsMouse(spec) then MouseIsDirectOnly else TextUnavailable
    decreases spec, 0
  {
    hide FlatCode;
    hide UnavailableText;
    hide AcceptsFlat;
    hide Kind;
    match spec
    case Str(s) =>
      AliasesCompile(Lower(s));
    case Obj(fields) =>
      if Kind(fields) == "sequence" {
        StepsFail(fields["steps"].items);
      } else {
        FlatFails(fields);
      }
  }

  lemma {:induction false} StepsFail(steps: seq<Json>)
    requires forall i :: 0 <= i < |steps| ==> AcceptsAction(steps[i]) && !IsMouse(steps[i])
    ensures StepsCode(steps).Err? <==> exists i :: 0 <= i < |steps| && HasUnavailableText(steps[i])
    ensures StepsCode(steps).Err? ==> StepsCode(steps).error == TextUnavailable
    decreases steps, 1
  {
    hide HasUnavailableText;
    hide AcceptsAction;
    hide IsMouse;
    hide ActionCode;
    if steps != [] {
      ActionFails(steps[0]);
      assert forall i :: 0 <= i < |steps| - 1 ==> steps[1..][i] == steps[i + 1];
      assert forall i :: 0 < i < |steps| ==> steps[i] == steps[1..][i - 1];
      StepsFail(steps[1..]);
    }
  }

  /** The action name is spelled `mouse` as the direct-binding code compares it. */
  predicate SpelledMouse(spec: Json) {
    spec.Obj? && Get(spec.fields, "action", Null) == Str("mouse")
  }

  /** MAIN RESULT. An accepted specification fails to compile exactly when it contains
      an unavailable text character, or is a mouse action whose name is not written in
      lower case: the validator folds case there, the direct binding does not. */
  lemma BindingFails(spec: Json)
    requires AcceptsAction(spec)
    ensures CompileBinding(spec).Err? <==> HasUnavailableText(spec) || (IsMouse(spec) && !SpelledMouse(spec))
  {
    hide FlatCode;
    hide ActionCode;
    hide Kind;
    hide UnavailableText;
    hide Alias;
    ActionFails(spec);
    match spec
    case Str(s) =>
      AliasesCompile(Lower(s));
    case Obj(fields) =>
      DirectNames(fields);
      AcceptedNeedsNoHost(fields);
      assert UnavailableText(fields) ==> Kind(fields) == "text" by { OnlyText(fields); }
  }

  /** The refused family is not empty: this specification is accepted and does not compile. */
  lemma UpperCaseMouseIsRefused()
    ensures var spec := Obj(map["action" := Str("Mouse"), "command" := Str("left")]);
            AcceptsAction(spec) && CompileBinding(spec) == Err(MouseIsDirectOnly)
  {
    var fields: Fields := map["action" := Str("Mouse"), "command" := Str("left")];
    assert Lower("Mouse") == "mouse" && Lower("left") == "left";
    assert Kind(fields) == "mouse";
  }

  /** A shifted wheel slot is meant for a direct consumer binding. The validator's test
      folds case, so it holds exactly for aliases and for the lower-case spelling. */
  lemma WheelSlotIsDirect(spec: Json)
    requires AcceptsAction(spec) && IsConsumerSpec(spec)
    ensures CompileBinding(spec).Ok?
    ensures CompileBinding(spec).value.Direct? <==>
              (spec.Str? || Get(spec.fields, "action", Null) == Str("consumer"))
  {
    hide ActionCode;
    hide Alias;
    BindingFails(spec);
    LowerNames();
    match spec
    case Str(s) =>
      AliasesCompile(Lower(s));
    case Obj(fields) =>
      DirectNames(fields);
      hide FlatCode;
      AcceptedNeedsNoHost(fields);
  }

  /** The action is named in lower case and is a mouse or consumer action, or a chord of the
      three modifiers a keyboard binding has bits for; or it is an alias. */
  predicate BoundDirectly(spec: Json) {
    match spec
    case Str(_) => true
    case Obj(fields) =>
      var name := Get(fields, "action", Null);
      name == Str("mouse") || name == Str("consumer") ||
      (name == Str("hotkey") && Get(fields, "keys", Null).Arr? &&
       NoWindowsKey(UpperNames(Get(fields, "keys", Null).items)))
    case _ => false
  }

  predicate NoWindowsKey(names: seq<string>) {
    forall i :: 0 <= i < |names| - 1 ==> names[i] in {"CTRL", "SHIFT", "ALT"}
  }

  /** Which accepted specifications take no room in the macro store. */
  lemma DirectExactly(spec: Json)
    requires AcceptsAction(spec)
    ensures CompileBinding(spec).Ok? && CompileBinding(spec).value.Direct? <==> BoundDirectly(spec)
  {
    hide ActionCode;
    hide Alias;
    hide Kind;
    hide RequiresHost;
    hide NoWindowsKey;
    match spec
    case Str(s) =>
      AliasesCompile(Lower(s));
      AliasNeedsNoHost(Lower(s));
    case Obj(fields) =>
      DirectNames(fields);
      AcceptedNeedsNoHost(fields);
      DirectIsNamed(fields);
      if Get(fields, "action", Null) == Str("hotkey") {
        ChordBinding(fields);
      } else if Get(fields, "action", Null) == Str("mouse") {
        assert AcceptsMouse(fields);
      } else if Get(fields, "action", Null) == Str("consumer") {
        assert AcceptsConsumer(fields);
      }
  }

  lemma AliasNeedsNoHost(name: string)
    requires Alias(name).Some?
    ensures !RequiresHost(Kind(Alias(name).value))
  {
    AliasKind(name);
  }

  lemma ChordBinding(fields: Fields)
    requires AcceptsHotkey(fields) && Get(fields, "action", Null) == Str("hotkey")
    ensures DirectKeyboard(fields).Some? <==> NoWindowsKey(UpperNames(fields["keys"].items))
  {
    hide KeyUsage;
    hide ModifierOf;
    var names := UpperNames(fields["keys"].items);
    var mods := names[..|names| - 1];
    assert forall i :: 0 <= i < |mods| ==> mods[i] == names[i];
  }

  // ---------------------------------------------------------------- what is accepted

  /** The fields an action of this kind may have. */
  function FieldsOf(kind: string): set<string> {
    match kind
    case "hotkey" => {"action", "keys"}
    case "tap" => {"action", "key"}
    case "text" => {"action", "value", "layout"}
    case "delay" => {"action", "ms"}
    case "consumer" => {"action", "command"}
    case "mouse" => {"action", "command"}
    case "wheel" => {"action", "amount"}
    case "horizontal_wheel" => {"action", "amount"}
    case "wait_for_release" => {"action"}
    case "repeat_while_pressed" => {"action"}
    case _ => {}
  }

  /** The validator and the compiler agree: an action without steps is accepted exactly if it
      has no field its kind does not know and compiles; text only has to be text in a known
      layout, and a mouse action to name a button. */
  lemma AcceptedExactly(fields: Fields)
    ensures AcceptsFlat(fields) <==>
              && FieldsOf(Kind(fields)) != {} && fields.Keys <= FieldsOf(Kind(fields))
              && if Kind(fields) == "mouse" then MouseMask(Lower(PyStr(Get(fields, "command", Str(""))))).Some?
                 else if Kind(fields) == "text" then
                   Get(fields, "value", Null).Str? && Get(fields, "layout", Str("basic")) in {Str("basic"), Str("us")}
                 else FlatCode(fields).Ok?
  {
    hide KeyUsage;
    hide ModifierOf;
    hide ConsumerUsage;
    hide MouseMask;
    hide Upper;
    hide Lower;
    hide TextCode;
    hide Around;
    hide Kind;
    hide RequiresHost;
    DefaultsAreUnknown();
    assert Upper("None") == "NONE" && Lower("None") == "none" by { NoneInCapitals(); }
    NoneIsUnknown();
    KindsNeedNoHost(Kind(fields));
  }

  lemma NoneInCapitals()
    ensures Upper("None") == "NONE" && Lower("None") == "none"
  {
  }

  lemma NoneIsUnknown()
    ensures KeyUsage("NONE").None? && ModifierOf("NONE").None? && ConsumerUsage("none").None?
  {
  }

  lemma KindsNeedNoHost(kind: string)
    ensures FieldsOf(kind) != {} ==> !RequiresHost(kind)
  {
  }

  // ---------------------------------------------------------------- which macros are empty

  /** Every leaf of this action is a text with nothing in it. */
  predicate SaysNothing(spec: Json)
    decreases spec
  {
    spec.Obj? &&
    if Kind(spec.fields) == "sequence" then
      "steps" in spec.fields && spec.fields["steps"].Arr? &&
      forall i :: 0 <= i < |spec.fields["steps"].items| ==> SaysNothing(spec.fields["steps"].items[i])
    else EmptyText(spec.fields)
  }

  predicate EmptyText(fields: Fields) {
    Kind(fields) == "text" && Get(fields, "value", Null) == Str("")
  }

  lemma {:induction false} CharsSaySomething(s: string, layout: string)
    ensures CharsCode(s, layout).Ok? ==> (CharsCode(s, layout).value == [] <==> s == "")
  {
    hide TextKey;
  }

  lemma AroundSaysSomething(mods: seq<Modifier>, usage: byte)
    ensures Around(mods, usage) != []
  {
  }

  /** Every kind but text emits at least one instruction. */
  lemma OnlyTextIsEmpty(fields: Fields)
    ensures FlatCode(fields) == Ok([]) ==> Kind(fields) == "text"
  {
    hide Kind;
    hide KeyUsage;
    hide ModifierOf;
    hide ConsumerUsage;
    hide RequiresHost;
    hide Upper;
    hide Lower;
    hide TextCode;
    hide Around;
    if Kind(fields) == "hotkey" && HotkeyCode(Get(fields, "keys", Null)).Ok? {
      var names := UpperNames(Get(fields, "keys", Null).items);
      AroundSaysSomething(Modifiers(names[..|names| - 1]), KeyUsage(names[|names| - 1]).value);
    }
  }

  lemma FlatSays(fields: Fields)
    requires AcceptsFlat(fields)
    ensures FlatCode(fields) == Ok([]) <==> EmptyText(fields)
  {
    OnlyTextIsEmpty(fields);
    if Kind(fields) == "text" {
      TextSays(fields);
    }
  }

  lemma TextSays(fields: Fields)
    requires AcceptsText(fields) && Kind(fields) == "text"
    ensures FlatCode(fields) == Ok([]) <==> Get(fields, "value", Null) == Str("")
  {
    hide FlatCode;
    hide CharsCode;
    hide Kind;
    hide UnavailableText;
    TextFails(fields);
    var layout := Get(fields, "layout", Str("basic"));
    assert Lower("us") == "us" && Lower("basic") == "basic";
    CharsSaySomething(fields["value"].s, Lower(PyStr(layout)));
    if fields["value"].s == "" {
      NoCharacters(Lower(PyStr(layout)));
    }
  }

  lemma NoCharacters(layout: string)
    ensures CharsCode("", layout) == Ok([])
  {
  }

  lemma AliasSays(name: string)
    ensures Alias(name).Some? ==> FlatCode(Alias(name).value) != Ok([])
  {
    hide FlatCode;
    hide Alias;
    if Alias(name).Some? {
      AliasKind(name);
      OnlyTextIsEmpty(Alias(name).value);
    }
  }

  lemma {:induction false} ActionSays(spec: Json)
    requires AcceptsAction(spec)
    ensures ActionCode(spec) == Ok([]) <==> SaysNothing(spec)
    decreases spec, 0
  {
    hide FlatCode;
    hide EmptyText;
    hide AcceptsFlat;
    hide Kind;
    match spec
    case Str(s) => AliasSays(Lower(s));
    case Obj(fields) =>
      if Kind(fields) == "sequence" {
        StepsSay(fields["steps"].items);
      } else {
        FlatSays(fields);
      }
  }

  lemma JoinSays(a: Code, b: Code)
    ensures Join(a, b) == Ok([]) <==> a == Ok([]) && b == Ok([])
  {
    if a.Ok? && b.Ok? {
      assert |a.value + b.value| == |a.value| + |b.value|;
    }
  }

  lemma {:induction false} StepsSay(steps: seq<Json>)
    requires forall i :: 0 <= i < |steps| ==> AcceptsAction(steps[i])
    ensures StepsCode(steps) == Ok([]) <==> forall i :: 0 <= i < |steps| ==> SaysNothing(steps[i])
    decreases steps, 1
  {
    hide SaysNothing;
    hide AcceptsAction;
    hide ActionCode;
    if steps != [] {
      ActionSays(steps[0]);
      assert forall i :: 0 <= i < |steps| - 1 ==> steps[1..][i] == steps[i + 1];
      assert forall i :: 0 < i < |steps| ==> steps[i] == steps[1..][i - 1];
      StepsSay(steps[1..]);
      JoinSays(ActionCode(steps[0]), StepsCode(steps[1..]));
    }
  }

  /** MAIN RESULT. An accepted specification compiles to a bare END exactly when every leaf
      of it is an empty text, through any nesting of sequences. */
  lemma BareEndSaysNothing(spec: Json)
    requires AcceptsAction(spec)
    ensures CompileBinding(spec) == Ok(MacroItem([OP_END])) <==> SaysNothing(spec)
  {
    hide ActionCode;
    hide Alias;
    hide Kind;
    hide RequiresHost;
    hide EmptyText;
    hide AcceptsFlat;
    hide DirectKeyboard;
    hide DirectConsumer;
    hide DirectMouse;
    hide MacroOf;
    ActionSays(spec);
    MacroSays(ActionCode(spec));
    match spec
    case Str(s) =>
      AliasesCompile(Lower(s));
    case Obj(fields) =>
      DirectIsNamed(fields);
      AcceptedNeedsNoHost(fields);
      EmptyTextIsText(fields);
  }

  lemma MacroSays(code: Code)
    ensures MacroOf(code) == Ok(MacroItem([OP_END])) <==> code == Ok([])
  {
    if code.Ok? {
      assert |code.value + [OP_END]| == |code.value| + 1;
      assert code.value == [] ==> code.value + [OP_END] == [OP_END];
    }
  }

  lemma DirectIsNamed(fields: Fields)
    ensures DirectKeyboard(fields).Some? ==> Kind(fields) == "hotkey"
    ensures DirectConsumer(fields).Some? ==> Kind(fields) == "consumer"
    ensures DirectMouse(fields) != Ok(None) ==> Kind(fields) == "mouse"
  {
    hide Kind;
    DirectNames(fields);
  }

  lemma EmptyTextIsText(fields: Fields)
    ensures EmptyText(fields) ==> Kind(fields) == "text"
  {
  }

  /** The empty family is not empty: this specification is accepted and says nothing. */
  lemma EmptyTextIsAccepted()
    ensures var spec := Obj(map["action" := Str("text"), "value" := Str("")]);
            AcceptsAction(spec) && SaysNothing(spec) && CompileBinding(spec) == Ok(MacroItem([OP_END]))
  {
    var fields: Fields := map["action" := Str("text"), "value" := Str("")];
    assert Lower("text") == "text";
    assert Kind(fields) == "text" && Get(fields, "layout", Str("basic")) == Str("basic");
    assert AcceptsText(fields);
    BareEndSaysNothing(Obj(fields));
  }
}
