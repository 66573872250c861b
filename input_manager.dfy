/**
 * input_manager.rs: the one handler every hook event goes through. It routes
 * F9, F10 and Escape presses to the recorder and the player, ignores input
 * while playing, records input while recording, and otherwise looks for a
 * macro bound to a press. The notification sent to the frontend is the
 * handler's result; windows and the overlay are not modelled.
 */
module InputManager {
  import opened Wrappers
  import opened Scripts
  import Rdev
  import Recorder
  import Player
  import Macros
  import Hotkeys

  /** Mouse moves closer together than this are not recorded. */
  const MOVE_THROTTLE_MS: nat := 20

  /** A press of one of the three keys the handler reserves. */
  predicate IsHotkeyPress(ev: Rdev.EventType) {
    ev.KeyPress? && (ev.key == Rdev.F9 || ev.key == Rdev.F10 || ev.key == Rdev.Escape)
  }

  /**
   * The event the recorder commits for a hook event, given the time since the
   * last commit and the last pointer position; a move that comes too soon is
   * not recorded.
   */
  function Recorded(ev: Rdev.EventType, elapsed: U64, pos: (real, real)): Option<ScriptEvent> {
    match ev
    case KeyPress(k) => Some(ScriptEvent.KeyPress(FromRdevKey(k), elapsed))
    case KeyRelease(k) => Some(ScriptEvent.KeyRelease(FromRdevKey(k), elapsed))
    case ButtonPress(b) => Some(ScriptEvent.MousePress(FromRdevButton(b), pos.0, pos.1, elapsed))
    case ButtonRelease(b) => Some(ScriptEvent.MouseRelease(FromRdevButton(b), pos.0, pos.1, elapsed))
    case MouseMove(x, y) => if elapsed >= MOVE_THROTTLE_MS then Some(ScriptEvent.MouseMove(x, y, elapsed)) else None
    case Wheel(dx, dy) => Some(ScriptEvent.MouseScroll(dx, dy, elapsed))
  }

  /** The macro trigger a hook event can fire: only key presses and button presses have one. */
  function HookTrigger(ev: Rdev.EventType): Option<MacroTrigger> {
    match ev
    case KeyPress(k) => Some(MacroTrigger.KeyPress(FromRdevKey(k)))
    case ButtonPress(b) => Some(MacroTrigger.MousePress(FromRdevButton(b)))
    case _ => None
  }

  /**
   * What is recorded carries the elapsed time as its delay; every event but
   * a too-early move is recorded; clicks take the last pointer position;
   * and a recorded move replays as a move to the same place.
   */
  lemma RecordedSpec(ev: Rdev.EventType, elapsed: U64, pos: (real, real))
    ensures Recorded(ev, elapsed, pos).None? <==> ev.MouseMove? && elapsed < MOVE_THROTTLE_MS
    ensures Recorded(ev, elapsed, pos).Some? ==> Recorded(ev, elapsed, pos).value.delayMs == elapsed
    ensures ev.ButtonPress? || ev.ButtonRelease? ==>
              Recorded(ev, elapsed, pos).value.x == pos.0 && Recorded(ev, elapsed, pos).value.y == pos.1
    ensures ev.MouseMove? && elapsed >= MOVE_THROTTLE_MS ==>
              Player.Actions(Recorded(ev, elapsed, pos).value, true) ==
                [Player.MoveTo(Player.SaturatingCastI32(ev.x), Player.SaturatingCastI32(ev.y))]
  {
  }

  /**
   * A recorded key event is replayed unless the key is one the injector does
   * not know; a recorded click is replayed as the same button.
   */
  lemma {:induction false} RecordThenReplay(ev: Rdev.EventType, elapsed: U64, pos: (real, real), usePos: bool)
    requires ev.KeyPress? || ev.KeyRelease? || ev.ButtonPress? || ev.ButtonRelease?
    ensures ev.KeyPress? || ev.KeyRelease? ==>
              (Player.Actions(Recorded(ev, elapsed, pos).value, usePos) == [] <==>
                 ev.key.Other? || ev.key in Player.NotInjectable)
    ensures ev.ButtonPress? || ev.ButtonRelease? ==>
              Player.Actions(Recorded(ev, elapsed, pos).value, usePos)[|Player.Actions(Recorded(ev, elapsed, pos).value, usePos)| - 1].button ==
                ToEnigoButton(FromRdevButton(ev.button))
  {
    if ev.KeyPress? || ev.KeyRelease? {
      Player.HookKeysInjectable(ev.key);
    }
  }

  /** The notification payload for a hotkey action. */
  function Notice(action: string, recording: bool, playing: bool): Option<Hotkeys.HotkeyEvent> {
    Some(Hotkeys.HotkeyEvent(action, recording, playing))
  }

  /**
   * `handle_event`. Time is the parameter `now`, used both for the elapsed
   * time read before a commit and for the commit itself. The results are the
   * `hotkey-event` notification sent, if any, and the playback a fired macro
   * starts, if any.
   */
  method HandleEvent(ev: Rdev.EventType, now: nat, rec: Recorder.RecordingState,
                     player: Player.PlaybackState, macros: Macros.MacroState)
    returns (notice: Option<Hotkeys.HotkeyEvent>, job: Option<Player.Job>)
    modifies rec, player
    // Only a press that fires a macro while nothing else goes on starts a playback.
    ensures job.Some? ==> !IsHotkeyPress(ev) && !old(player.isPlaying) && !old(rec.isRecording)
    // F9: stop recording, or start it when not playing.
    ensures ev == Rdev.KeyPress(Rdev.F9) && old(rec.isRecording) ==>
              !rec.isRecording && rec.events == old(rec.events) && unchanged(player) &&
              rec.startTime == old(rec.startTime) && rec.lastEventTime == old(rec.lastEventTime) &&
              rec.mousePosition == old(rec.mousePosition) &&
              notice == Notice("recording-stopped", false, old(player.isPlaying))
    ensures ev == Rdev.KeyPress(Rdev.F9) && !old(rec.isRecording) && !old(player.isPlaying) ==>
              rec.isRecording && rec.events == [] && rec.startTime == Some(now) && rec.lastEventTime == Some(now) &&
              rec.mousePosition == old(rec.mousePosition) && unchanged(player) &&
              notice == Notice("recording-started", true, false)
    ensures ev == Rdev.KeyPress(Rdev.F9) && !old(rec.isRecording) && old(player.isPlaying) ==>
              unchanged(rec) && unchanged(player) && notice == None
    // F10: stop playing, or ask the frontend to start.
    ensures ev == Rdev.KeyPress(Rdev.F10) && old(player.isPlaying) ==>
              player.stopRequested && !player.isPlaying && unchanged(rec) &&
              notice == Notice("playback-stopped", rec.isRecording, false)
    ensures ev == Rdev.KeyPress(Rdev.F10) && !old(player.isPlaying) ==>
              unchanged(player) && unchanged(rec) && notice == Notice("playback-requested", rec.isRecording, false)
    // Escape: everything stops.
    ensures ev == Rdev.KeyPress(Rdev.Escape) ==>
              !rec.isRecording && !player.isPlaying && rec.events == old(rec.events) &&
              rec.startTime == old(rec.startTime) && rec.lastEventTime == old(rec.lastEventTime) &&
              rec.mousePosition == old(rec.mousePosition)
    ensures ev == Rdev.KeyPress(Rdev.Escape) && old(player.isPlaying) ==> player.stopRequested
    ensures ev == Rdev.KeyPress(Rdev.Escape) ==>
              notice == if old(rec.isRecording) || old(player.isPlaying) then Notice("emergency-stop", false, false) else None
    ensures ev == Rdev.KeyPress(Rdev.Escape) && !old(player.isPlaying) ==> unchanged(player)
    // Any other event: nothing while playing.
    ensures !IsHotkeyPress(ev) ==> notice == None
    ensures !IsHotkeyPress(ev) && old(player.isPlaying) ==> unchanged(rec) && unchanged(player)
    // While recording: the event is committed, and no macro is looked for.
    ensures !IsHotkeyPress(ev) && !old(player.isPlaying) && old(rec.isRecording) ==>
              var r := Recorded(ev, old(rec.ElapsedAt(now)), old(rec.mousePosition));
              rec.events == old(rec.events) + (if r.Some? then [r.value] else []) &&
              rec.lastEventTime == (if r.Some? then Some(now) else old(rec.lastEventTime)) &&
              rec.mousePosition == (if ev.MouseMove? then (ev.x, ev.y) else old(rec.mousePosition)) &&
              rec.isRecording && unchanged(player)
    // Otherwise: a press may fire a macro.
    ensures !IsHotkeyPress(ev) && !old(player.isPlaying) && !old(rec.isRecording) ==>
              unchanged(rec) &&
              (HookTrigger(ev).Some? && Macros.Fires(macros.isActive, macros.macros, HookTrigger(ev).value) <==>
                 player.isPlaying) &&
              (!player.isPlaying ==> unchanged(player)) &&
              (player.isPlaying ==> !player.stopRequested && player.currentLoop == 0) &&
              job == (if player.isPlaying
                      then Some(Player.Job(Macros.Lookup(macros.macros, HookTrigger(ev).value).value.events,
                                           DefaultLoopConfig, 1.0))
                      else None)
  {
    // Hotkeys.
    if ev.KeyPress? && ev.key == Rdev.F9 {
      var recording := rec.IsRecording();
      if recording {
        var _ := Recorder.StopRecording(rec);
        var playing := player.IsPlaying();
        return Notice("recording-stopped", false, playing), None;
      }
      var playing := player.IsPlaying();
      if !playing {
        var _ := Recorder.StartRecording(rec, now);
        return Notice("recording-started", true, false), None;
      }
      return None, None;
    }
    if ev.KeyPress? && ev.key == Rdev.F10 {
      var playing := player.IsPlaying();
      var recording := rec.IsRecording();
      if playing {
        Player.StopPlayback(player);
        return Notice("playback-stopped", recording, false), None;
      }
      return Notice("playback-requested", recording, false), None;
    }
    if ev.KeyPress? && ev.key == Rdev.Escape {
      var wasRecording := rec.IsRecording();
      var wasPlaying := player.IsPlaying();
      if wasRecording {
        var _ := Recorder.StopRecording(rec);
      }
      if wasPlaying {
        Player.StopPlayback(player);
      }
      if wasRecording || wasPlaying {
        return Notice("emergency-stop", false, false), None;
      }
      return None, None;
    }

    // Nothing reaches recording or macros while playing.
    var playing := player.IsPlaying();
    if playing {
      return None, None;
    }

    var recording := rec.IsRecording();
    if recording {
      RecordHookEvent(rec, ev, now);
    }

    var active := macros.IsActive();
    recording := rec.IsRecording();
    if active && !recording {
      var trigger := HookTrigger(ev);
      if trigger.Some? {
        var _, started := macros.CheckAndExecute(trigger.value, player);
        return None, started;
      }
    }
    notice, job := None, None;
  }

  /** The recording part of `handle_event`, entered while recording. */
  method RecordHookEvent(rec: Recorder.RecordingState, ev: Rdev.EventType, now: nat)
    requires rec.isRecording
    modifies rec`events, rec`lastEventTime, rec`mousePosition
    ensures var r := Recorded(ev, old(rec.ElapsedAt(now)), old(rec.mousePosition));
            rec.events == old(rec.events) + (if r.Some? then [r.value] else []) &&
            rec.lastEventTime == (if r.Some? then Some(now) else old(rec.lastEventTime))
    ensures rec.mousePosition == (if ev.MouseMove? then (ev.x, ev.y) else old(rec.mousePosition))
  {
    var elapsed := rec.GetElapsedMs(now);
    match ev
    case KeyPress(k) =>
      rec.CommitEvent(ScriptEvent.KeyPress(FromRdevKey(k), elapsed), now);
    case KeyRelease(k) =>
      rec.CommitEvent(ScriptEvent.KeyRelease(FromRdevKey(k), elapsed), now);
    case ButtonPress(b) =>
      var pos := rec.GetMousePosition();
      rec.CommitEvent(ScriptEvent.MousePress(FromRdevButton(b), pos.0, pos.1, elapsed), now);
    case ButtonRelease(b) =>
      var pos := rec.GetMousePosition();
      rec.CommitEvent(ScriptEvent.MouseRelease(FromRdevButton(b), pos.0, pos.1, elapsed), now);
    case MouseMove(x, y) =>
      rec.UpdateMousePosition(x, y);
      if elapsed >= MOVE_THROTTLE_MS {
        rec.CommitEvent(ScriptEvent.MouseMove(x, y, elapsed), now);
      }
    case Wheel(dx, dy) =>
      rec.CommitEvent(ScriptEvent.MouseScroll(dx, dy, elapsed), now);
  }
}
