/**
 * The output types of the input-injection library (enigo) that playback produces.
 * Only the keys and buttons the core can produce are listed.
 */
module Enigo {

  datatype Key =
    | Unicode(c: char)
    | Alt | Backspace | CapsLock | Control | Delete | DownArrow | End | Escape
    | F1 | F2 | F3 | F4 | F5 | F6 | F7 | F8 | F9 | F10 | F11 | F12
    | Home | LeftArrow | Meta | PageDown | PageUp | Return | RightArrow | Shift
    | Space | Tab | UpArrow

  datatype Button = Left | Right | Middle | Back | Forward

  datatype Direction = Press | Release

  datatype Axis = Horizontal | Vertical
}
