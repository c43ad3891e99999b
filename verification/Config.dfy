/** `_validate_action`: which action specifications a configuration may contain. */
module Config {
  import opened Bytes
  import opened Actions

  predicate OnlyFields(fields: Fields, allowed: set<string>) {
    fields.Keys <= allowed
  }

  function UpperNames(items: seq<Json>): seq<string> {
    seq(|items|, i requires 0 <= i < |items| => Upper(PyStr(items[i])))
  }

  /** Modifiers first, one ordinary key last. */
  predicate HotkeyNames(names: seq<string>) {
    |names| >= 2 &&
    (forall i :: 0 <= i < |names| - 1 ==> ModifierOf(names[i]).Some?) &&
    ModifierOf(names[|names| - 1]).None? && KeyUsage(names[|names| - 1]).Some?
  }

  predicate AcceptsHotkey(fields: Fields) {
    OnlyFields(fields, {"action", "keys"}) &&
    var keys := Get(fields, "keys", Null);
    keys.Arr? && HotkeyNames(UpperNames(keys.items))
  }

  predicate AcceptsTap(fields: Fields) {
    OnlyFields(fields, {"action", "key"}) &&
    var key := Upper(PyStr(Get(fields, "key", Str(""))));
    KeyUsage(key).Some? || ModifierOf(key).Some?
  }

  predicate AcceptsText(fields: Fields) {
    OnlyFields(fields, {"action", "value", "layout"}) && Get(fields, "value", Null).Str? &&
    Get(fields, "layout", Str("basic")) in {Str("basic"), Str("us")}
  }

  predicate AcceptsDelay(fields: Fields) {
    OnlyFields(fields, {"action", "ms"}) &&
    var ms := AsInt(Get(fields, "ms", Null));
    ms.Some? && 0 <= ms.value <= 65535
  }

  predicate AcceptsConsumer(fields: Fields) {
    OnlyFields(fields, {"action", "command"}) &&
    ConsumerUsage(Lower(PyStr(Get(fields, "command", Str(""))))).Some?
  }

  predicate AcceptsMouse(fields: Fields) {
    OnlyFields(fields, {"action", "command"}) &&
    MouseMask(Lower(PyStr(Get(fields, "command", Str(""))))).Some?
  }

  predicate AcceptsWheel(fields: Fields) {
    OnlyFields(fields, {"action", "amount"}) &&
    var amount := AsInt(Get(fields, "amount", Null));
    amount.Some? && amount.value != 0 && -127 <= amount.value <= 127
  }

  /** The kinds that contain no other action. */
  predicate AcceptsFlat(fields: Fields) {
    match Kind(fields)
    case "hotkey" => AcceptsHotkey(fields)
    case "tap" => AcceptsTap(fields)
    case "text" => AcceptsText(fields)
    case "delay" => AcceptsDelay(fields)
    case "consumer" => AcceptsConsumer(fields)
    case "mouse" => AcceptsMouse(fields)
    case "wheel" => AcceptsWheel(fields)
    case "horizontal_wheel" => AcceptsWheel(fields)
    case "wait_for_release" => OnlyFields(fields, {"action"})
    case "repeat_while_pressed" => OnlyFields(fields, {"action"})
    case _ => false
  }

  predicate IsMouse(spec: Json) {
    spec.Obj? && Kind(spec.fields) == "mouse"
  }

  /** `_validate_action` returns without raising. */
  predicate AcceptsAction(spec: Json)
    decreases spec
  {
    match spec
    case Str(s) => Alias(Lower(s)).Some?
    case Obj(fields) =>
      if Kind(fields) == "sequence" then
        OnlyFields(fields, {"action", "steps"}) && "steps" in fields && fields["steps"].Arr? &&
        fields["steps"].items != [] &&
        forall i :: 0 <= i < |fields["steps"].items| ==>
          AcceptsAction(fields["steps"].items[i]) && !IsMouse(fields["steps"].items[i])
      else AcceptsFlat(fields)
    case _ => false
  }

  /** `_is_consumer_spec`. */
  predicate IsConsumerSpec(spec: Json) {
    match spec
    case Str(s) => Alias(Lower(s)).Some? && Get(Alias(Lower(s)).value, "action", Null) == Str("consumer")
    case Obj(fields) => Kind(fields) == "consumer"
    case _ => false
  }
}
