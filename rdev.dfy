/**
 * The input types of the global hook library (rdev) that the core consumes.
 * Only what the core inspects is modelled: `Key` lists every key the conversion
 * table in script.rs names, and `Other` stands for all remaining rdev keys
 * (BackQuote, Minus, the keypad keys, `Unknown(code)`, ...).
 */
module Rdev {

  type Byte = x: int | 0 <= x < 256

  /** 64-bit signed integers, the type of wheel deltas. */
  type I64 = x: int | -0x8000_0000_0000_0000 <= x < 0x8000_0000_0000_0000

  datatype Key =
    | Alt | AltGr | Backspace | CapsLock | ControlLeft | ControlRight | Delete | DownArrow
    | End | Escape | F1 | F2 | F3 | F4 | F5 | F6 | F7 | F8 | F9 | F10 | F11 | F12
    | Home | LeftArrow | MetaLeft | MetaRight | PageDown | PageUp | Return | RightArrow
    | ShiftLeft | ShiftRight | Space | Tab | UpArrow | PrintScreen | ScrollLock | Pause
    | NumLock | Insert
    | Num0 | Num1 | Num2 | Num3 | Num4 | Num5 | Num6 | Num7 | Num8 | Num9
    | KeyA | KeyB | KeyC | KeyD | KeyE | KeyF | KeyG | KeyH | KeyI | KeyJ | KeyK | KeyL | KeyM
    | KeyN | KeyO | KeyP | KeyQ | KeyR | KeyS | KeyT | KeyU | KeyV | KeyW | KeyX | KeyY | KeyZ
    | Other(code: nat)

  datatype Button = Left | Right | Middle | Unknown(code: Byte)

  /** What one hook callback reports. Coordinates are the hook's f64 values, taken as exact reals. */
  datatype EventType =
    | KeyPress(key: Key)
    | KeyRelease(key: Key)
    | ButtonPress(button: Button)
    | ButtonRelease(button: Button)
    | MouseMove(x: real, y: real)
    | Wheel(deltaX: I64, deltaY: I64)
}
