/**
 * The event data model of script.rs: keys, buttons, recorded events, macro
 * definitions and the `Script` container, with the conversions from the hook's
 * types and to the injector's types.
 */
module Scripts {
  import Rdev
  import Enigo
  import opened Wrappers

  const U64_MAX: int := 0xFFFF_FFFF_FFFF_FFFF

  /** Rust's `u64`, the type of every delay. */
  type U64 = x: int | 0 <= x <= U64_MAX

  const U32_MAX: int := 0xFFFF_FFFF

  /** Rust's `u32`, the type of the loop count. */
  type U32 = x: int | 0 <= x <= U32_MAX

  /** Rust's `as u64` on a (finite) f64: truncation toward zero, saturating at both ends. */
  function SaturatingCast(x: real): (r: U64)
    ensures x <= 0.0 ==> r == 0
    ensures 0.0 <= x < U64_MAX as real ==> r as real <= x < r as real + 1.0
    ensures x >= U64_MAX as real ==> r == U64_MAX
  {
    if x <= 0.0 then 0
    else if x >= U64_MAX as real then U64_MAX
    else x.Floor
  }

  // ---------------------------------------------------------------------------
  // Mouse buttons
  // ---------------------------------------------------------------------------

  datatype MouseButton = Left | Right | Middle | Back | Forward | Unknown

  /** `From<rdev::Button> for MouseButton`. */
  function FromRdevButton(b: Rdev.Button): MouseButton {
    match b
    case Left => MouseButton.Left
    case Right => MouseButton.Right
    case Middle => MouseButton.Middle
    case Unknown(code) =>
      if code == 1 then Back
      else if code == 2 then Forward
      else MouseButton.Unknown
  }

  /** The conversion sends the named buttons to themselves, side buttons 1 and 2 to Back and Forward, and every other code to Unknown. */
  lemma FromRdevButtonTable(b: Rdev.Button)
    ensures b == Rdev.Button.Left <==> FromRdevButton(b) == MouseButton.Left
    ensures b == Rdev.Button.Right <==> FromRdevButton(b) == MouseButton.Right
    ensures b == Rdev.Button.Middle <==> FromRdevButton(b) == MouseButton.Middle
    ensures b == Rdev.Button.Unknown(1) <==> FromRdevButton(b) == Back
    ensures b == Rdev.Button.Unknown(2) <==> FromRdevButton(b) == Forward
    ensures FromRdevButton(b) == MouseButton.Unknown <==> b.Unknown? && b.code != 1 && b.code != 2
  {
  }

  /** `From<MouseButton> for enigo::Button`: Unknown is injected as a left click. */
  function ToEnigoButton(b: MouseButton): Enigo.Button {
    match b
    case Left => Enigo.Button.Left
    case Right => Enigo.Button.Right
    case Middle => Enigo.Button.Middle
    case Back => Enigo.Button.Back
    case Forward => Enigo.Button.Forward
    case Unknown => Enigo.Button.Left
  }

  /** The only two buttons the injector cannot tell apart are Left and Unknown. */
  lemma ToEnigoButtonCollision(b1: MouseButton, b2: MouseButton)
    ensures ToEnigoButton(b1) == ToEnigoButton(b2) <==>
              b1 == b2 || {b1, b2} == {MouseButton.Left, MouseButton.Unknown}
  {
  }

  // ---------------------------------------------------------------------------
  // Keyboard keys
  // ---------------------------------------------------------------------------

  datatype KeyboardKey = Char(c: char) | Special(name: string)

  /** `From<rdev::Key> for KeyboardKey`. */
  function FromRdevKey(k: Rdev.Key): KeyboardKey {
    match k
    case Alt => Special("Alt")
    case AltGr => Special("AltGr")
    case Backspace => Special("Backspace")
    case CapsLock => Special("CapsLock")
    case ControlLeft => Special("ControlLeft")
    case ControlRight => Special("ControlRight")
    case Delete => Special("Delete")
    case DownArrow => Special("DownArrow")
    case End => Special("End")
    case Escape => Special("Escape")
    case F1 => Special("F1")
    case F2 => Special("F2")
    case F3 => Special("F3")
    case F4 => Special("F4")
    case F5 => Special("F5")
    case F6 => Special("F6")
    case F7 => Special("F7")
    case F8 => Special("F8")
    case F9 => Special("F9")
    case F10 => Special("F10")
    case F11 => Special("F11")
    case F12 => Special("F12")
    case Home => Special("Home")
    case LeftArrow => Special("LeftArrow")
    case MetaLeft => Special("MetaLeft")
    case MetaRight => Special("MetaRight")
    case PageDown => Special("PageDown")
    case PageUp => Special("PageUp")
    case Return => Special("Return")
    case RightArrow => Special("RightArrow")
    case ShiftLeft => Special("ShiftLeft")
    case ShiftRight => Special("ShiftRight")
    case Space => Special("Space")
    case Tab => Special("Tab")
    case UpArrow => Special("UpArrow")
    case PrintScreen => Special("PrintScreen")
    case ScrollLock => Special("ScrollLock")
    case Pause => Special("Pause")
    case NumLock => Special("NumLock")
    case Insert => Special("Insert")
    case Num0 => Char('0')
    case Num1 => Char('1')
    case Num2 => Char('2')
    case Num3 => Char('3')
    case Num4 => Char('4')
    case Num5 => Char('5')
    case Num6 => Char('6')
    case Num7 => Char('7')
    case Num8 => Char('8')
    case Num9 => Char('9')
    case KeyA => Char('a')
    case KeyB => Char('b')
    case KeyC => Char('c')
    case KeyD => Char('d')
    case KeyE => Char('e')
    case KeyF => Char('f')
    case KeyG => Char('g')
    case KeyH => Char('h')
    case KeyI => Char('i')
    case KeyJ => Char('j')
    case KeyK => Char('k')
    case KeyL => Char('l')
    case KeyM => Char('m')
    case KeyN => Char('n')
    case KeyO => Char('o')
    case KeyP => Char('p')
    case KeyQ => Char('q')
    case KeyR => Char('r')
    case KeyS => Char('s')
    case KeyT => Char('t')
    case KeyU => Char('u')
    case KeyV => Char('v')
    case KeyW => Char('w')
    case KeyX => Char('x')
    case KeyY => Char('y')
    case KeyZ => Char('z')
    case Other(_) => Special("Unknown")
  }

  /** The names the conversion gives to named keys; the reverse table of FromRdevKey. */
  function ToRdevKey(key: KeyboardKey): Option<Rdev.Key> {
    match key
    case Char(c) => (
      match c
      case '0' => Some(Rdev.Num0)
      case '1' => Some(Rdev.Num1)
      case '2' => Some(Rdev.Num2)
      case '3' => Some(Rdev.Num3)
      case '4' => Some(Rdev.Num4)
      case '5' => Some(Rdev.Num5)
      case '6' => Some(Rdev.Num6)
      case '7' => Some(Rdev.Num7)
      case '8' => Some(Rdev.Num8)
      case '9' => Some(Rdev.Num9)
      case 'a' => Some(Rdev.KeyA)
      case 'b' => Some(Rdev.KeyB)
      case 'c' => Some(Rdev.KeyC)
      case 'd' => Some(Rdev.KeyD)
      case 'e' => Some(Rdev.KeyE)
      case 'f' => Some(Rdev.KeyF)
      case 'g' => Some(Rdev.KeyG)
      case 'h' => Some(Rdev.KeyH)
      case 'i' => Some(Rdev.KeyI)
      case 'j' => Some(Rdev.KeyJ)
      case 'k' => Some(Rdev.KeyK)
      case 'l' => Some(Rdev.KeyL)
      case 'm' => Some(Rdev.KeyM)
      case 'n' => Some(Rdev.KeyN)
      case 'o' => Some(Rdev.KeyO)
      case 'p' => Some(Rdev.KeyP)
      case 'q' => Some(Rdev.KeyQ)
      case 'r' => Some(Rdev.KeyR)
      case 's' => Some(Rdev.KeyS)
      case 't' => Some(Rdev.KeyT)
      case 'u' => Some(Rdev.KeyU)
      case 'v' => Some(Rdev.KeyV)
      case 'w' => Some(Rdev.KeyW)
      case 'x' => Some(Rdev.KeyX)
      case 'y' => Some(Rdev.KeyY)
      case 'z' => Some(Rdev.KeyZ)
      case _ => None)
    case Special(name) =>
      if name == [] then None
      else match name[0]
        case 'A' =>
          if name == "Alt" then Some(Rdev.Alt)
          else if name == "AltGr" then Some(Rdev.AltGr)
          else None
        case 'B' => if name == "Backspace" then Some(Rdev.Backspace) else None
        case 'C' =>
          if name == "CapsLock" then Some(Rdev.CapsLock)
          else if name == "ControlLeft" then Some(Rdev.ControlLeft)
          else if name == "ControlRight" then Some(Rdev.ControlRight)
          else None
        case 'D' =>
          if name == "Delete" then Some(Rdev.Delete)
          else if name == "DownArrow" then Some(Rdev.DownArrow)
          else None
        case 'E' =>
          if name == "End" then Some(Rdev.End)
          else if name == "Escape" then Some(Rdev.Escape)
          else None
        case 'F' =>
          if name == "F1" then Some(Rdev.F1)
          else if name == "F2" then Some(Rdev.F2)
          else if name == "F3" then Some(Rdev.F3)
          else if name == "F4" then Some(Rdev.F4)
          else if name == "F5" then Some(Rdev.F5)
          else if name == "F6" then Some(Rdev.F6)
          else if name == "F7" then Some(Rdev.F7)
          else if name == "F8" then Some(Rdev.F8)
          else if name == "F9" then Some(Rdev.F9)
          else if name == "F10" then Some(Rdev.F10)
          else if name == "F11" then Some(Rdev.F11)
          else if name == "F12" then Some(Rdev.F12)
          else None
        case 'H' => if name == "Home" then Some(Rdev.Home) else None
        case 'I' => if name == "Insert" then Some(Rdev.Insert) else None
        case 'L' => if name == "LeftArrow" then Some(Rdev.LeftArrow) else None
        case 'M' =>
          if name == "MetaLeft" then Some(Rdev.MetaLeft)
          else if name == "MetaRight" then Some(Rdev.MetaRight)
          else None
        case 'N' => if name == "NumLock" then Some(Rdev.NumLock) else None
        case 'P' =>
          if name == "PageDown" then Some(Rdev.PageDown)
          else if name == "PageUp" then Some(Rdev.PageUp)
          else if name == "PrintScreen" then Some(Rdev.PrintScreen)
          else if name == "Pause" then Some(Rdev.Pause)
          else None
        case 'R' =>
          if name == "Return" then Some(Rdev.Return)
          else if name == "RightArrow" then Some(Rdev.RightArrow)
          else None
        case 'S' =>
          if name == "ShiftLeft" then Some(Rdev.ShiftLeft)
          else if name == "ShiftRight" then Some(Rdev.ShiftRight)
          else if name == "Space" then Some(Rdev.Space)
          else if name == "ScrollLock" then Some(Rdev.ScrollLock)
          else None
        case 'T' => if name == "Tab" then Some(Rdev.Tab) else None
        case 'U' => if name == "UpArrow" then Some(Rdev.UpArrow) else None
        case _ => None
  }

  /** Modifier, editing and arrow keys: ToRdevKey undoes FromRdevKey on them. */
  lemma RoundTripNamedKeys(k: Rdev.Key)
    requires k.Alt? || k.AltGr? || k.Backspace? || k.CapsLock? || k.ControlLeft? || k.ControlRight? || k.Delete? || k.DownArrow? || k.End? || k.Escape? || k.Home? || k.LeftArrow? || k.MetaLeft? || k.MetaRight? || k.PageDown? || k.PageUp? || k.Return? || k.RightArrow? || k.ShiftLeft? || k.ShiftRight? || k.Space? || k.Tab? || k.UpArrow?
    ensures ToRdevKey(FromRdevKey(k)) == Some(k)
  {
  }

  /** Function keys F1 to F12. */
  lemma RoundTripFunctionKeys(k: Rdev.Key)
    requires k.F1? || k.F2? || k.F3? || k.F4? || k.F5? || k.F6? || k.F7? || k.F8? || k.F9? || k.F10? || k.F11? || k.F12?
    ensures ToRdevKey(FromRdevKey(k)) == Some(k)
  {
  }

  /** Lock and system keys. */
  lemma RoundTripLockKeys(k: Rdev.Key)
    requires k.PrintScreen? || k.ScrollLock? || k.Pause? || k.NumLock? || k.Insert?
    ensures ToRdevKey(FromRdevKey(k)) == Some(k)
  {
  }

  /** Digit keys 0 to 4. */
  lemma RoundTripDigits0To4(k: Rdev.Key)
    requires k.Num0? || k.Num1? || k.Num2? || k.Num3? || k.Num4?
    ensures ToRdevKey(FromRdevKey(k)) == Some(k)
  {
  }

  /** Digit keys 5 to 9. */
  lemma RoundTripDigits5To9(k: Rdev.Key)
    requires k.Num5? || k.Num6? || k.Num7? || k.Num8? || k.Num9?
    ensures ToRdevKey(FromRdevKey(k)) == Some(k)
  {
  }

  /** Letter keys A to D. */
  lemma RoundTripLettersAToD(k: Rdev.Key)
    requires k.KeyA? || k.KeyB? || k.KeyC? || k.KeyD?
    ensures ToRdevKey(FromRdevKey(k)) == Some(k)
  {
  }

  /** Letter keys E to H. */
  lemma RoundTripLettersEToH(k: Rdev.Key)
    requires k.KeyE? || k.KeyF? || k.KeyG? || k.KeyH?
    ensures ToRdevKey(FromRdevKey(k)) == Some(k)
  {
  }

  /** Letter keys I to L. */
  lemma RoundTripLettersIToL(k: Rdev.Key)
    requires k.KeyI? || k.KeyJ? || k.KeyK? || k.KeyL?
    ensures ToRdevKey(FromRdevKey(k)) == Some(k)
  {
  }

  /** Letter keys M to P. */
  lemma RoundTripLettersMToP(k: Rdev.Key)
    requires k.KeyM? || k.KeyN? || k.KeyO? || k.KeyP?
    ensures ToRdevKey(FromRdevKey(k)) == Some(k)
  {
  }

  /** Letter keys Q to T. */
  lemma RoundTripLettersQToT(k: Rdev.Key)
    requires k.KeyQ? || k.KeyR? || k.KeyS? || k.KeyT?
    ensures ToRdevKey(FromRdevKey(k)) == Some(k)
  {
  }

  /** Letter keys U to W. */
  lemma RoundTripLettersUToW(k: Rdev.Key)
    requires k.KeyU? || k.KeyV? || k.KeyW?
    ensures ToRdevKey(FromRdevKey(k)) == Some(k)
  {
  }

  /** Letter keys X to Z. */
  lemma RoundTripLettersXToZ(k: Rdev.Key)
    requires k.KeyX? || k.KeyY? || k.KeyZ?
    ensures ToRdevKey(FromRdevKey(k)) == Some(k)
  {
  }

  /**
   * Every key the table names is recovered from what it is converted to, so no
   * two named keys share a KeyboardKey.
   */
  lemma FromRdevKeyRoundTrip(k: Rdev.Key)
    ensures !k.Other? ==> ToRdevKey(FromRdevKey(k)) == Some(k)
  {
    match k
    case Alt | AltGr | Backspace | CapsLock | ControlLeft | ControlRight | Delete | DownArrow | End | Escape
       | Home | LeftArrow | MetaLeft | MetaRight | PageDown | PageUp | Return | RightArrow
       | ShiftLeft | ShiftRight | Space | Tab | UpArrow => RoundTripNamedKeys(k);
    case F1 | F2 | F3 | F4 | F5 | F6 | F7 | F8 | F9 | F10 | F11 | F12 => RoundTripFunctionKeys(k);
    case PrintScreen | ScrollLock | Pause | NumLock | Insert => RoundTripLockKeys(k);
    case Num0 | Num1 | Num2 | Num3 | Num4 => RoundTripDigits0To4(k);
    case Num5 | Num6 | Num7 | Num8 | Num9 => RoundTripDigits5To9(k);
    case KeyA | KeyB | KeyC | KeyD => RoundTripLettersAToD(k);
    case KeyE | KeyF | KeyG | KeyH => RoundTripLettersEToH(k);
    case KeyI | KeyJ | KeyK | KeyL => RoundTripLettersIToL(k);
    case KeyM | KeyN | KeyO | KeyP => RoundTripLettersMToP(k);
    case KeyQ | KeyR | KeyS | KeyT => RoundTripLettersQToT(k);
    case KeyU | KeyV | KeyW => RoundTripLettersUToW(k);
    case KeyX | KeyY | KeyZ => RoundTripLettersXToZ(k);
    case Other(_) =>
  }

  /** Every key outside the table, and no key in it, becomes Special("Unknown"). */
  lemma FromRdevKeyUnknown(k: Rdev.Key)
    ensures k.Other? <==> FromRdevKey(k) == Special("Unknown")
  {
    if !k.Other? {
      FromRdevKeyRoundTrip(k);
      assert ToRdevKey(Special("Unknown")) == None;
    }
  }

  // ---------------------------------------------------------------------------
  // Script events
  // ---------------------------------------------------------------------------

  /** One recorded input with the delay before it. Coordinates are f64 values, taken as exact reals. */
  datatype ScriptEvent =
    | KeyPress(key: KeyboardKey, delayMs: U64)
    | KeyRelease(key: KeyboardKey, delayMs: U64)
    | MousePress(button: MouseButton, x: real, y: real, delayMs: U64)
    | MouseRelease(button: MouseButton, x: real, y: real, delayMs: U64)
    | MouseMove(x: real, y: real, delayMs: U64)
    | MouseScroll(deltaX: Rdev.I64, deltaY: Rdev.I64, delayMs: U64)

  /** The two events are of the same kind and agree on every field except the delay. */
  predicate SameExceptDelay(e1: ScriptEvent, e2: ScriptEvent) {
    match e1
    case KeyPress(k, _) => e2.KeyPress? && e2.key == k
    case KeyRelease(k, _) => e2.KeyRelease? && e2.key == k
    case MousePress(b, x, y, _) => e2.MousePress? && e2.button == b && e2.x == x && e2.y == y
    case MouseRelease(b, x, y, _) => e2.MouseRelease? && e2.button == b && e2.x == x && e2.y == y
    case MouseMove(x, y, _) => e2.MouseMove? && e2.x == x && e2.y == y
    case MouseScroll(dx, dy, _) => e2.MouseScroll? && e2.deltaX == dx && e2.deltaY == dy
  }

  /** An event is determined by its shape and its delay. */
  lemma {:induction false} SameExceptDelayDetermines(e1: ScriptEvent, e2: ScriptEvent)
    requires SameExceptDelay(e1, e2)
    ensures e1.delayMs == e2.delayMs <==> e1 == e2
  {
    match e1
    case KeyPress(_, _) =>
    case KeyRelease(_, _) =>
    case MousePress(_, _, _, _) =>
    case MouseRelease(_, _, _, _) =>
    case MouseMove(_, _, _) =>
    case MouseScroll(_, _, _) =>
  }

  /** `ScriptEvent::set_delay_ms`: the delay is replaced and nothing else changes. */
  function SetDelayMs(e: ScriptEvent, d: U64): (r: ScriptEvent)
    ensures r.delayMs == d
    ensures SameExceptDelay(e, r)
  {
    e.(delayMs := d)
  }

  /** Sum of the delays of a list of events, with unbounded integers. */
  function SumDelays(events: seq<ScriptEvent>): nat {
    if events == [] then 0 else events[0].delayMs + SumDelays(events[1..])
  }

  lemma {:induction false} SumDelaysAppend(a: seq<ScriptEvent>, b: seq<ScriptEvent>)
    ensures SumDelays(a + b) == SumDelays(a) + SumDelays(b)
  {
    if a == [] {
      assert a + b == b;
    } else {
      assert (a + b)[1..] == a[1..] + b;
      SumDelaysAppend(a[1..], b);
    }
  }

  // ---------------------------------------------------------------------------
  // Macros
  // ---------------------------------------------------------------------------

  /** What fires a macro. */
  datatype MacroTrigger = KeyPress(key: KeyboardKey) | MousePress(button: MouseButton)

  /** A trigger bound to an inline list of events; `id` is unique per creation. */
  datatype MacroDefinition = MacroDefinition(
    id: string,
    name: string,
    trigger: MacroTrigger,
    events: seq<ScriptEvent>,
    enabled: bool)

  // ---------------------------------------------------------------------------
  // Scripts
  // ---------------------------------------------------------------------------

  /** count == 0 repeats until stopped. */
  datatype LoopConfig = LoopConfig(count: U32, delayBetweenMs: U64)

  /** `LoopConfig::default()`: play once, no pause between passes. */
  const DefaultLoopConfig := LoopConfig(1, 0)

  /** A recorded script. The creation and modification timestamps are not modelled. */
  class Script {
    var name: string
    var description: string
    var events: seq<ScriptEvent>
    var loopConfig: LoopConfig
    var speedMultiplier: real

    /** `Script::default()`. */
    constructor Default()
      ensures name == "Untitled Script" && description == ""
      ensures events == [] && loopConfig == DefaultLoopConfig && speedMultiplier == 1.0
    {
      name := "Untitled Script";
      description := "";
      events := [];
      loopConfig := DefaultLoopConfig;
      speedMultiplier := 1.0;
    }

    /** `Script::new(name)`: the defaults with the given name. */
    constructor New(n: string)
      ensures name == n && description == ""
      ensures events == [] && loopConfig.count == 1 && loopConfig.delayBetweenMs == 0
      ensures speedMultiplier == 1.0
    {
      name := n;
      description := "";
      events := [];
      loopConfig := DefaultLoopConfig;
      speedMultiplier := 1.0;
    }

    /** `Script::add_event`: one event at the end, the earlier ones untouched. */
    method AddEvent(e: ScriptEvent)
      modifies this`events
      ensures events == old(events) + [e]
      ensures TotalDurationMs() == old(TotalDurationMs()) + e.delayMs
    {
      SumDelaysAppend(events, [e]);
      events := events + [e];
    }

    /** `Script::clear_events`. */
    method ClearEvents()
      modifies this`events
      ensures events == [] && TotalDurationMs() == 0
    {
      events := [];
    }

    /** `Script::total_duration_ms`: the sum of the event delays. */
    function TotalDurationMs(): nat
      reads this
    {
      SumDelays(events)
    }
  }
}
