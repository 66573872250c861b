/**
 * hotkey.rs: the configurable hotkey bindings and the payload of the
 * notifications sent to the frontend when a hotkey acts.
 */
module Hotkeys {
  import Rdev
  import opened Wrappers

  /** `HotkeyEvent`: what a hotkey did, and the recording and playing flags reported with it. */
  datatype HotkeyEvent = HotkeyEvent(action: string, recording: bool, playing: bool)

  /** `HotkeyState`: the key bound to recording and the key bound to playback. */
  class HotkeyState {
    var recordingKey: Rdev.Key
    var playbackKey: Rdev.Key

    /** `HotkeyState::new`: F9 records, F10 plays. */
    constructor ()
      ensures recordingKey == Rdev.F9 && playbackKey == Rdev.F10
    {
      recordingKey := Rdev.F9;
      playbackKey := Rdev.F10;
    }

    /** `get_all_keys`: both bindings, recording first. */
    method GetAllKeys() returns (keys: seq<Rdev.Key>)
      ensures |keys| == 2 && keys[0] == recordingKey && keys[1] == playbackKey
    {
      keys := [recordingKey, playbackKey];
    }

    /** `set_hotkeys`: each binding given as Some is replaced; a None leaves its binding as it was. */
    method SetHotkeys(recording: Option<Rdev.Key>, playback: Option<Rdev.Key>)
      modifies this
      ensures recording.Some? ==> recordingKey == recording.value
      ensures recording.None? ==> recordingKey == old(recordingKey)
      ensures playback.Some? ==> playbackKey == playback.value
      ensures playback.None? ==> playbackKey == old(playbackKey)
    {
      if recording.Some? {
        recordingKey := recording.value;
      }
      if playback.Some? {
        playbackKey := playback.value;
      }
    }
  }
}
