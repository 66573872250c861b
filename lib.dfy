/**
 * The commands of lib.rs that edit a script's event list and that build a
 * macro from the strings the frontend sends.
 */
module Commands {
  import opened Wrappers
  import opened Scripts
  import Macros

  // ---------------------------------------------------------------------------
  // Script edit commands
  // ---------------------------------------------------------------------------

  /**
   * `update_event_delay`: the event at `index`, if there is one, gets the new
   * delay; every other event, the order and the length stay as they were.
   */
  method UpdateEventDelay(events: seq<ScriptEvent>, index: nat, delay: U64) returns (r: seq<ScriptEvent>)
    ensures |r| == |events|
    ensures index < |events| ==> r[index].delayMs == delay && SameExceptDelay(events[index], r[index])
    ensures forall j | 0 <= j < |events| && j != index :: r[j] == events[j]
    ensures index >= |events| ==> r == events
    ensures index < |events| ==> SumDelays(r) == SumDelays(events) - events[index].delayMs + delay
  {
    r := events;
    if index < |events| {
      r := r[index := SetDelayMs(r[index], delay)];
      SumDelaysUpdate(events, index, delay);
    }
  }

  /** Replacing one delay changes the total by the difference. */
  lemma {:induction false} SumDelaysUpdate(events: seq<ScriptEvent>, index: nat, delay: U64)
    requires index < |events|
    ensures SumDelays(events[index := SetDelayMs(events[index], delay)]) ==
              SumDelays(events) - events[index].delayMs + delay
  {
    var updated := events[index := SetDelayMs(events[index], delay)];
    assert events == events[..index] + [events[index]] + events[index + 1..];
    assert updated == events[..index] + [SetDelayMs(events[index], delay)] + events[index + 1..];
    SumDelaysAppend(events[..index] + [events[index]], events[index + 1..]);
    SumDelaysAppend(events[..index], [events[index]]);
    SumDelaysAppend(events[..index] + [SetDelayMs(events[index], delay)], events[index + 1..]);
    SumDelaysAppend(events[..index], [SetDelayMs(events[index], delay)]);
  }

  /**
   * `delete_event`: the event at `index`, if there is one, is removed and the
   * others keep their order; otherwise the list is returned as it was.
   */
  method DeleteEvent(events: seq<ScriptEvent>, index: nat) returns (r: seq<ScriptEvent>)
    ensures index < |events| ==> |r| == |events| - 1
    ensures index < |events| ==> forall j | 0 <= j < index :: r[j] == events[j]
    ensures index < |events| ==> forall j | index <= j < |r| :: r[j] == events[j + 1]
    ensures index < |events| ==> multiset(r) + multiset{events[index]} == multiset(events)
    ensures index < |events| ==> SumDelays(r) == SumDelays(events) - events[index].delayMs
    ensures index >= |events| ==> r == events
  {
    r := events;
    if index < |events| {
      r := events[..index] + events[index + 1..];
      SumDelaysRemove(events, index);
      assert events == events[..index] + [events[index]] + events[index + 1..];
    }
  }

  /** Removing one event takes its delay off the total. */
  lemma {:induction false} SumDelaysRemove(events: seq<ScriptEvent>, index: nat)
    requires index < |events|
    ensures SumDelays(events[..index] + events[index + 1..]) == SumDelays(events) - events[index].delayMs
  {
    assert events == events[..index] + [events[index]] + events[index + 1..];
    SumDelaysAppend(events[..index] + [events[index]], events[index + 1..]);
    SumDelaysAppend(events[..index], [events[index]]);
    SumDelaysAppend(events[..index], events[index + 1..]);
    assert SumDelays([events[index]]) == events[index].delayMs by {
      assert [events[index]][1..] == [];
    }
  }

  /** `(delay as f64 * factor) as u64`, on exact reals. */
  function ScaledDelay(delay: U64, factor: real): (r: U64)
    ensures factor == 1.0 ==> r == delay
    ensures 0.0 <= delay as real * factor < U64_MAX as real ==>
              r as real <= delay as real * factor < r as real + 1.0
  {
    SaturatingCast(delay as real * factor)
  }

  /**
   * `scale_delays`: each event in turn gets its delay multiplied by the
   * factor; kinds, keys, buttons and coordinates are untouched.
   */
  method ScaleDelays(events: seq<ScriptEvent>, factor: real) returns (r: seq<ScriptEvent>)
    ensures |r| == |events|
    ensures forall i | 0 <= i < |events| ::
              SameExceptDelay(events[i], r[i]) && r[i].delayMs == ScaledDelay(events[i].delayMs, factor)
    ensures factor == 1.0 ==> r == events
  {
    r := events;
    var i := 0;
    while i < |r|
      invariant i <= |r| == |events|
      invariant forall j | 0 <= j < i ::
                  SameExceptDelay(events[j], r[j]) && r[j].delayMs == ScaledDelay(events[j].delayMs, factor)
      invariant forall j | i <= j < |r| :: r[j] == events[j]
    {
      var newDelay := SaturatingCast(r[i].delayMs as real * factor);
      r := r[i := SetDelayMs(r[i], newDelay)];
      i := i + 1;
    }
    if factor == 1.0 {
      forall j | 0 <= j < |r|
        ensures r[j] == events[j]
      {
        SameExceptDelayDetermines(events[j], r[j]);
      }
    }
  }

  // ---------------------------------------------------------------------------
  // create_input_mapping
  // ---------------------------------------------------------------------------

  /** The number of bytes a character takes in UTF-8. */
  function Utf8Width(c: char): nat {
    if c as int < 0x80 then 1
    else if c as int < 0x800 then 2
    else if c as int < 0x1_0000 then 3
    else 4
  }

  /** `String::len`: the length in UTF-8 bytes, not in characters. */
  function Utf8Len(s: string): nat {
    if s == [] then 0 else Utf8Width(s[0]) + Utf8Len(s[1..])
  }

  /** A string is one byte long exactly when it is a single ASCII character. */
  lemma Utf8LenOne(s: string)
    ensures Utf8Len(s) == 1 <==> |s| == 1 && s[0] as int < 0x80
  {
    if |s| > 1 {
      assert Utf8Len(s) >= Utf8Width(s[0]) + Utf8Width(s[1]);
    }
  }

  /** The key named by a trigger or action value: one byte is a character, anything else a special key. */
  function ParseKey(value: string): (k: KeyboardKey) {
    if Utf8Len(value) == 1 then Char(value[0]) else Special(value)
  }

  /** The text a key was parsed from. */
  function KeyText(k: KeyboardKey): string {
    match k
    case Char(c) => [c]
    case Special(n) => n
  }

  /**
   * The value is kept whole: a `Char` is the value's one ASCII character, and
   * every other value, including a single non-ASCII character, is a `Special`.
   */
  lemma ParseKeySpec(value: string)
    ensures KeyText(ParseKey(value)) == value
    ensures ParseKey(value).Char? <==> |value| == 1 && value[0] as int < 0x80
  {
    Utf8LenOne(value);
    if Utf8Len(value) == 1 {
      assert value == [value[0]];
    }
  }

  /** The button names the frontend may send. */
  function ParseButton(value: string): Option<MouseButton> {
    if value == "left" then Some(Left)
    else if value == "right" then Some(Right)
    else if value == "middle" then Some(Middle)
    else None
  }

  /** The name under which a button is sent, for the three that have one. */
  function ButtonName(b: MouseButton): Option<string> {
    match b
    case Left => Some("left")
    case Right => Some("right")
    case Middle => Some("middle")
    case _ => None
  }

  /** Parsing a button name is the inverse of naming it. */
  lemma ParseButtonInverse(value: string, b: MouseButton)
    ensures ParseButton(value) == Some(b) <==> ButtonName(b) == Some(value)
  {
  }

  /** The trigger part of `create_input_mapping`. */
  function ParseTrigger(triggerType: string, value: string): (r: Result<MacroTrigger, string>)
    ensures r.Ok? <==> triggerType == "key" || (triggerType == "mouse" && ParseButton(value).Some?)
    ensures triggerType == "mouse" && ParseButton(value).None? ==> r == Err("Invalid mouse button")
    ensures triggerType != "mouse" && triggerType != "key" ==> r == Err("Invalid trigger type")
  {
    if triggerType == "mouse" then
      match ParseButton(value)
      case None => Err("Invalid mouse button")
      case Some(b) => Ok(MacroTrigger.MousePress(b))
    else if triggerType == "key" then
      Ok(MacroTrigger.KeyPress(ParseKey(value)))
    else
      Err("Invalid trigger type")
  }

  /** A successful trigger is the button or the key the value names. */
  lemma ParseTriggerOk(triggerType: string, value: string)
    ensures ParseTrigger(triggerType, value).Ok? && triggerType == "mouse" ==>
              ButtonName(ParseTrigger(triggerType, value).value.button) == Some(value)
    ensures ParseTrigger(triggerType, value).Ok? && triggerType == "key" ==>
              KeyText(ParseTrigger(triggerType, value).value.key) == value
  {
    ParseKeySpec(value);
  }

  /** The action part of `create_input_mapping`. */
  function ParseAction(actionType: string, value: string): (r: Result<seq<ScriptEvent>, string>)
    ensures r.Ok? <==> actionType == "key_press" || (actionType == "mouse_click" && ParseButton(value).Some?)
    ensures actionType == "mouse_click" && ParseButton(value).None? ==> r == Err("Invalid mouse button")
    ensures actionType != "mouse_click" && actionType != "key_press" ==> r == Err("Invalid action type")
  {
    if actionType == "mouse_click" then
      match ParseButton(value)
      case None => Err("Invalid mouse button")
      case Some(b) => Ok([ScriptEvent.MousePress(b, 0.0, 0.0, 0), ScriptEvent.MouseRelease(b, 0.0, 0.0, 50)])
    else if actionType == "key_press" then
      var k := ParseKey(value);
      Ok([ScriptEvent.KeyPress(k, 0), ScriptEvent.KeyRelease(k, 50)])
    else
      Err("Invalid action type")
  }

  /**
   * A successful action is a press then a release of the same key or button,
   * the press at once and the release 50 ms later.
   */
  lemma ParseActionOk(actionType: string, value: string)
    requires ParseAction(actionType, value).Ok?
    ensures var es := ParseAction(actionType, value).value;
            |es| == 2 && es[0].delayMs == 0 && es[1].delayMs == 50 && SumDelays(es) == 50
    ensures var es := ParseAction(actionType, value).value;
            actionType == "mouse_click" ==>
              es[0].MousePress? && es[1].MouseRelease? && es[0].button == es[1].button &&
              ButtonName(es[0].button) == Some(value) &&
              es[0].x == es[0].y == es[1].x == es[1].y == 0.0
    ensures var es := ParseAction(actionType, value).value;
            actionType == "key_press" ==>
              es[0].KeyPress? && es[1].KeyRelease? && es[0].key == es[1].key && KeyText(es[0].key) == value
  {
    var es := ParseAction(actionType, value).value;
    ParseKeySpec(value);
    assert es[1..][1..] == [];
    assert SumDelays(es[1..]) == 50 + SumDelays(es[1..][1..]);
  }

  /**
   * `create_input_mapping`: the trigger, then the action, are parsed; the
   * first failure is returned and the registry is not touched. Otherwise the
   * new enabled macro is registered and returned. The time-based id is a
   * parameter.
   */
  method CreateInputMapping(state: Macros.MacroState, id: string, name: string, triggerType: string,
                            triggerValue: string, actionType: string, actionValue: string)
    returns (r: Result<MacroDefinition, string>)
    modifies state`macros
    ensures ParseTrigger(triggerType, triggerValue).Err? ==>
              r == Err(ParseTrigger(triggerType, triggerValue).error)
    ensures ParseTrigger(triggerType, triggerValue).Ok? && ParseAction(actionType, actionValue).Err? ==>
              r == Err(ParseAction(actionType, actionValue).error)
    ensures r.Err? ==> state.macros == old(state.macros)
    ensures r.Ok? <==> ParseTrigger(triggerType, triggerValue).Ok? && ParseAction(actionType, actionValue).Ok?
    ensures r.Ok? ==> r.value == Macros.CreateSimpleMacro(id, name, ParseTrigger(triggerType, triggerValue).value,
                                                          ParseAction(actionType, actionValue).value)
    ensures r.Ok? ==> state.macros == Macros.Insert(old(state.macros), r.value)
    ensures r.Ok? && old(state.Valid()) ==> state.Valid() && Macros.Lookup(state.macros, r.value.trigger) == Some(r.value)
  {
    var trigger := ParseTrigger(triggerType, triggerValue);
    if trigger.Err? {
      return Err(trigger.error);
    }
    var events := ParseAction(actionType, actionValue);
    if events.Err? {
      return Err(events.error);
    }
    var m := Macros.CreateSimpleMacro(id, name, trigger.value, events.value);
    state.AddMacro(m);
    r := Ok(m);
  }
}
