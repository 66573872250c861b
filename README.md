# AutoKB core, modelled in Dafny

AutoKB records keyboard and mouse input from a global OS hook and replays it
through an input injector. It also binds short "macros" to a key or mouse
press. This project models the Rust backend's core:

- the event data model and its conversions (`script.rs`, module `Scripts`,
  with the hook's types in `Rdev` and the injector's types in `Enigo`);
- the recorder (`recorder.rs`, module `Recorder`);
- the player (`player.rs`, module `Player`);
- the macro registry (`macro_trigger.rs`, module `Macros`);
- the hotkey bindings (`hotkey.rs`, module `Hotkeys`);
- the hook event handler (`input_manager.rs`, module `InputManager`);
- the commands in `lib.rs` that compute something rather than delegate
  (module `Commands`).

The shared state objects are classes whose methods update their fields:
`RecordingState`, `PlaybackState`, `MacroState`, `HotkeyState` and `Script`.

The playback worker thread is modelled as imperative code running against a
`Host` object. The Host stands in for the operating system:

- it records every injector call and sleep in a `trace`;
- it can make one injector call fail: the call that would have made entry
  number `failAt` of the trace (a failure ends the run, so any single call
  can be chosen this way);
- it can request a stop once the clock reaches a given time (`stopAt`);
- it can make injector creation fail (`initFails`).

Pure functions give the trace one pass should produce: `EventTrace`,
`PassTrace`, `IterTrace` and `Repeat`. Every worker method is proved to
produce a prefix of that trace, and to produce it whole when nothing fails
and no stop arrives. Every injector call it made succeeded, and when one
fails the method stops right there: the trace ends just before the failing
call's place in the expected trace, and the error names that call.

Macros are stored by the string `get_trigger_id` builds. That string is
`key:` or `mouse:` followed by the Rust `Debug` text of the key or button. It
is modelled character by character, including the escapes that `Debug`
applies to quotes, backslashes and control characters. `TriggerIdInjective`
proves that two triggers share an identifier exactly when they are equal.
This is what makes "one macro per trigger" hold.

## Model

| member | source | states |
|---|---|---|
| Scripts.SaturatingCast | src-tauri/src/lib.rs:263-269 | `f64 as u64`: zero at or below zero, the maximum at or above it, otherwise the floor of the value |
| Scripts.FromRdevButtonTable | src-tauri/src/script.rs:19-30 | the hook-to-model button conversion sends Left/Right/Middle to themselves, side codes 1 and 2 to Back and Forward, and exactly the other codes to Unknown |
| Scripts.ToEnigoButtonCollision | src-tauri/src/script.rs:32-43 | two model buttons map to the same injector button iff they are equal or are Left and Unknown (Unknown falls back to Left) |
| Scripts.FromRdevKeyRoundTrip | src-tauri/src/script.rs:55-137 | every hook key except `Other` is recovered from its model key, so the conversion loses nothing on named keys, letters and digits |
| Scripts.FromRdevKeyUnknown | src-tauri/src/script.rs:134 | a key becomes `Special("Unknown")` exactly when it is a key the conversion has no arm for |
| Scripts.SameExceptDelayDetermines | src-tauri/src/script.rs:140-198 | two events of the same shape are equal iff their delays are equal |
| Scripts.SetDelayMs | src-tauri/src/script.rs:189-198 | the new event has the given delay and is otherwise the same event |
| Scripts.SumDelaysAppend | src-tauri/src/script.rs:299-301 | the total delay of two lists joined is the sum of their totals |
| Scripts.Script.Default | src-tauri/src/script.rs:263-275 | an untitled script with no events, one loop with no pause, speed 1.0 |
| Scripts.Script.New | src-tauri/src/script.rs:279-284 | the defaults, with the given name |
| Scripts.Script.AddEvent | src-tauri/src/script.rs:287-290 | the event is appended and the total duration grows by its delay |
| Scripts.Script.ClearEvents | src-tauri/src/script.rs:293-296 | no events and a total duration of zero |
| Recorder.ElapsedMs | src-tauri/src/recorder.rs:64-70 | whole milliseconds between two instants, truncated; zero when the clock went backwards |
| Recorder.ElapsedMsMonotone | src-tauri/src/recorder.rs:64-70 | a later reading never gives a smaller elapsed time |
| Recorder.RecordingState.constructor | src-tauri/src/recorder.rs:29-37 | not recording, no events, no timestamps, pointer at the origin |
| Recorder.RecordingState.IsRecording | src-tauri/src/recorder.rs:39-41 | the recording flag |
| Recorder.RecordingState.Start | src-tauri/src/recorder.rs:43-48 | recording with an empty list; both timestamps are now, so the next elapsed time is measured from now |
| Recorder.RecordingState.Stop | src-tauri/src/recorder.rs:50-52 | recording is off; events are kept |
| Recorder.RecordingState.AddEvent | src-tauri/src/recorder.rs:54-58 | the event is appended only while recording |
| Recorder.RecordingState.GetEvents | src-tauri/src/recorder.rs:60-62 | the recorded list |
| Recorder.RecordingState.GetElapsedMs | src-tauri/src/recorder.rs:64-70 | zero before the first timestamp, otherwise the truncated milliseconds since the last commit |
| Recorder.RecordingState.CommitEvent | src-tauri/src/recorder.rs:72-83 | while recording, appends and restarts the elapsed time; otherwise changes nothing |
| Recorder.RecordingState.UpdateMousePosition | src-tauri/src/recorder.rs:86-88 | the stored pointer position is the new one |
| Recorder.RecordingState.GetMousePosition | src-tauri/src/recorder.rs:90-92 | the stored pointer position |
| Recorder.StartRecording | src-tauri/src/recorder.rs:107-116 | fails with "Already recording" without touching anything; otherwise starts a fresh recording |
| Recorder.StopRecording | src-tauri/src/recorder.rs:119-123 | recording is off and the result is everything recorded |
| Recorder.RecordEventDirect | src-tauri/src/recorder.rs:131-145 | while recording, appends the event with its delay replaced by the elapsed time; otherwise nothing changes |
| Hotkeys.HotkeyState.constructor | src-tauri/src/hotkey.rs:22-27 | F9 records, F10 plays |
| Hotkeys.HotkeyState.GetAllKeys | src-tauri/src/hotkey.rs:37-42 | the recording key, then the playback key |
| Hotkeys.HotkeyState.SetHotkeys | src-tauri/src/hotkey.rs:65-74 | each given key replaces its binding; an absent one keeps the old binding |
| Player.SaturatingCastI32 | src-tauri/src/player.rs:192 | `f64 as i32`: truncation toward zero, saturating at both ends of the 32-bit range |
| Player.WrapI32 | src-tauri/src/player.rs:218-227 | `i64 as i32`: in range, congruent modulo 2^32, and the identity on values already in range |
| Player.PlaybackDelay | src-tauri/src/player.rs:146 | the delay divided by the speed and truncated: unchanged at speed 1.0, infinite (saturated) at 0, zero at negative speeds |
| Player.QuotientSign | src-tauri/src/player.rs:146 | a non-negative delay over a negative speed is never positive, so a negative speed waits zero |
| Player.KeyToEnigoCollapses | src-tauri/src/player.rs:98-136 | characters pass through as Unicode; left and right Control, Meta and Shift reach the injector as one key |
| Player.InjectableNamesKnown | src-tauri/src/player.rs:98-136 | every key name the injector knows is a name the hook produces |
| Player.InjectableNamesExact | src-tauri/src/player.rs:98-136 | a hook key name is dropped at replay iff it is AltGr, PrintScreen, ScrollLock, Pause, NumLock or Insert |
| Player.HookKeysInjectable | src-tauri/src/player.rs:98-136 | a hook key is replayed iff it is neither `Other` nor one of those six |
| Player.SumSleepsAppend | src-tauri/src/player.rs:149-166 | the time slept by two traces joined is the sum of their times |
| Player.Actions | src-tauri/src/player.rs:173-229 | the injector calls for one event: no sleeps; a key is nothing iff the injector lacks it; a click is a move plus a button when positions are used; a wheel event is one call per non-zero axis |
| Player.ChunksSpec | src-tauri/src/player.rs:149-166 | the interruptible wait sleeps exactly the delay, in ceil(delay/100) chunks of at most 100 ms |
| Player.ConcatAppend | src-tauri/src/player.rs:282-296 | the trace of two lists of pieces is the two traces joined |
| Player.EventTraces | src-tauri/src/player.rs:282-296 | one trace per event, in order |
| Player.EventTraceDuration | src-tauri/src/player.rs:146-166 | at speed 1.0 an event waits exactly its recorded delay |
| Player.PassTraceDuration | src-tauri/src/player.rs:282-296 | at speed 1.0 a whole pass sleeps exactly the script's total duration |
| Player.NoSleeps | src-tauri/src/player.rs:173-229 | injector calls take no modelled time |
| Player.Repeat | src-tauri/src/player.rs:271-304 | n passes of a trace are n times its length |
| Player.RepeatPrefix | src-tauri/src/player.rs:271-304 | fewer passes are a prefix of more passes |
| Player.PlaybackState.constructor | src-tauri/src/player.rs:29-36 | idle, counters at zero, no stop requested |
| Player.PlaybackState.Start | src-tauri/src/player.rs:42-47 | playing, counters reset, stop flag cleared |
| Player.PlaybackState.Stop | src-tauri/src/player.rs:49-52 | stop requested and no longer playing |
| Player.PlaybackState.IsPlaying | src-tauri/src/player.rs:38-40 | the playing flag |
| Player.PlaybackState.ShouldStop | src-tauri/src/player.rs:54-56 | the stop flag |
| Player.PlaybackState.IncrementLoop | src-tauri/src/player.rs:58-62 | the loop counter goes up by one and the new value is returned |
| Player.PlaybackState.SetEventIndex | src-tauri/src/player.rs:64-66 | the event index is the one given |
| Player.PlaybackState.Finish | src-tauri/src/player.rs:68-83 | no longer playing |
| Player.WaitDelay | src-tauri/src/player.rs:149-166 | sleeps a prefix of the chunked wait, all of it unless stopped; a pending stop before a non-zero wait stops at once without sleeping; only a stop request ends it early; sleeps never fail |
| Player.InjectKey | src-tauri/src/player.rs:174-187 | performs a prefix of the key's injector calls; all of them on success; on error the first missing call is the failed one, it is the Host's failing call, and the error names it ("Key press error"/"Key release error"); every call made succeeded |
| Player.InjectButton | src-tauri/src/player.rs:188-209 | the same for a click: the optional move, then the button, stopping at the first failure |
| Player.InjectMove | src-tauri/src/player.rs:210-214 | the same for a move to the saturated i32 position |
| Player.InjectScroll | src-tauri/src/player.rs:215-228 | the same for a wheel event: vertical then horizontal, negated, each only if non-zero |
| Player.Dispatch | src-tauri/src/player.rs:173-229 | the injector calls of `Actions`, stopping at the first failure, which is the Host's failing call, with its context; every call made succeeded |
| Player.ExecuteEvent | src-tauri/src/player.rs:139-232 | produces a prefix of the wait-then-act trace, all of it on success; every injector call made succeeded; an injector error ends the event at the Host's failing call, whose place in the event's trace is where the output stops, and the error names that call; a pending stop gives "Playback stopped" with nothing done; with no stop and no failure it succeeds |
| Player.PassPartial | src-tauri/src/player.rs:282-296 | a partly run event inside a pass is a prefix of the whole pass |
| Player.PassStep | src-tauri/src/player.rs:282-296 | a completed event extends the completed part of the pass by one event |
| Player.PassCut | src-tauri/src/player.rs:286-293 | an event cut short by a failing call cuts the whole pass at the same call |
| Player.RunPass | src-tauri/src/player.rs:282-298 | one pass over the events produces a prefix of the pass trace; it completes exactly when it was neither stopped nor failed, and then the trace is the whole pass; an injector error ends the pass at the failing call, and no earlier call failed |
| Player.RunIteration | src-tauri/src/player.rs:279-303 | a pass plus the pause between loops, skipped once a stop is pending; the whole iteration when uninterrupted; an injector error ends it at the failing call |
| Player.IterPartial | src-tauri/src/player.rs:271-304 | a partly run iteration is a prefix of all the iterations |
| Player.IterStep | src-tauri/src/player.rs:271-304 | a completed iteration adds one more repetition |
| Player.IterCut | src-tauri/src/player.rs:286-293 | an iteration cut short by a failing call cuts the whole run at the same call |
| Player.RunLoops | src-tauri/src/player.rs:260-306 | the output is a prefix of `count` repetitions of the iteration (fuel repetitions when count is 0); the loop ends not playing unless the fuel ran out; every injector call made succeeded, and a failing one ends the run at once with its error, at its place in the expected output; only a stop from elsewhere ends it with "Playback stopped"; with no stop and no failure it plays exactly `count` iterations and the counter ends at count + 1 |
| Player.PlaybackWorker | src-tauri/src/player.rs:248-307 | the same for the whole worker; an injector that cannot be created produces nothing and reports the creation failure, and that is the only case that reports it; a Host that neither stops nor fails ends without a failure |
| Player.PlayScript | src-tauri/src/player.rs:235-310 | "Already playing" or "Script has no events" without changing the state; otherwise the state is reset to playing and the worker's job is the script's events, loop settings and speed |
| Player.PlayEvents | src-tauri/src/player.rs:313-320 | the same for a bare event list with the default loop settings and the given speed |
| Player.StopPlayback | src-tauri/src/player.rs:323-325 | stop requested and no longer playing |
| Macros.EscapeChar | src-tauri/src/macro_trigger.rs:94-99 | a character's `Debug` escape is one character, or two starting with a backslash |
| Macros.EscapeCharInjective | src-tauri/src/macro_trigger.rs:94-99 | inside single or double quotes, different characters escape differently |
| Macros.EscapeStr | src-tauri/src/macro_trigger.rs:94-99 | escaping never shortens a string |
| Macros.EscapeStrInjective | src-tauri/src/macro_trigger.rs:94-99 | different strings have different escaped texts |
| Macros.TriggerId | src-tauri/src/macro_trigger.rs:94-99 | a key trigger's identifier starts with `key:` and a mouse trigger's with `mouse:` |
| Macros.KeyDebugInjective | src-tauri/src/macro_trigger.rs:94-99 | different keys have different `Debug` texts |
| Macros.TriggerIdInjective | src-tauri/src/macro_trigger.rs:94-99 | two triggers have the same identifier iff they are equal |
| Macros.LookupFinds | src-tauri/src/macro_trigger.rs:57-60 | in a registry keyed by trigger identifiers, a lookup finds a macro iff one is bound to that trigger, and the macro found has that trigger |
| Macros.InsertSpec | src-tauri/src/macro_trigger.rs:41-44 | adding keeps the registry well keyed; the trigger now finds the new macro, which replaced any earlier one for that trigger; other triggers are unaffected |
| Macros.RemoveIdSpec | src-tauri/src/macro_trigger.rs:47-49 | removal leaves exactly the macros with a different id, each unchanged, and keeps the registry well keyed |
| Macros.ToggleSpec | src-tauri/src/macro_trigger.rs:129-138 | re-adding a macro with a new enabled flag replaces it in place and keeps the registry well keyed |
| Macros.FiresMeans | src-tauri/src/macro_trigger.rs:63-79 | a trigger fires iff the listener is active and an enabled macro with events is bound to it |
| Macros.MacroState.constructor | src-tauri/src/macro_trigger.rs:25-30 | inactive, with an empty, well-keyed registry |
| Macros.MacroState.IsActive | src-tauri/src/macro_trigger.rs:32-34 | the active flag |
| Macros.MacroState.SetActive | src-tauri/src/macro_trigger.rs:36-38 | the active flag is the one given |
| Macros.MacroState.AddMacro | src-tauri/src/macro_trigger.rs:41-44 | the registry is the old one with the macro under its trigger's identifier; the registry stays well keyed and the trigger finds the new macro |
| Macros.MacroState.RemoveMacro | src-tauri/src/macro_trigger.rs:47-49 | the registry keeps exactly the macros with another id and stays well keyed |
| Macros.MacroState.GetAllMacros | src-tauri/src/macro_trigger.rs:52-54 | every registered macro |
| Macros.MacroState.FindByTrigger | src-tauri/src/macro_trigger.rs:57-60 | the entry under the trigger's identifier, whose trigger is the one asked for |
| Macros.MacroState.CheckAndExecute | src-tauri/src/macro_trigger.rs:63-79 | reports whether the trigger fires; when it does and nothing is playing, playback starts and the job handed to the worker is the macro's events, played once at speed 1.0; otherwise the player is untouched and no job is started |
| Macros.StartMacroListener | src-tauri/src/macro_trigger.rs:102-106 | the listener is active and the result is Ok |
| Macros.StopMacroListener | src-tauri/src/macro_trigger.rs:109-111 | the listener is inactive |
| Macros.ToggleMacro | src-tauri/src/macro_trigger.rs:129-138 | with no macro of that id nothing changes; otherwise one macro with that id is re-added with the new flag; the registry stays well keyed |
| Macros.CreateSimpleMacro | src-tauri/src/macro_trigger.rs:141-153 | an enabled macro with the given id, name, trigger and events |
| Macros.SimpleMacroRegistered | src-tauri/src/macro_trigger.rs:141-153 | once registered, a new macro is found by its trigger, and fires while listening iff it has events |
| InputManager.RecordedSpec | src-tauri/src/input_manager.rs:260-313 | every hook event is recorded except a move within 20 ms of the last commit; the delay is the elapsed time; clicks carry the last pointer position; a move replays as a move to the same place |
| InputManager.RecordThenReplay | src-tauri/src/input_manager.rs:264-293 | a recorded key replays as nothing iff the key is `Other` or one the injector lacks; a recorded click replays as the same button |
| InputManager.HandleEvent | src-tauri/src/input_manager.rs:108-333 | F9 toggles recording (never starting it while playing), with the recorder's timestamps and pointer position kept on stop and both timestamps set to now on start; F10 stops playback or asks for it; Escape stops both, asking a running playback to stop and keeping the recorder's events, timestamps and position; nothing else is looked at while playing; while recording the event is committed; otherwise a press starts playback iff a macro fires for it, with the stop flag clear and the loop counter at zero, and the job started is that macro's events, played once at speed 1.0; no other branch starts a job |
| InputManager.RecordHookEvent | src-tauri/src/input_manager.rs:260-313 | appends exactly the recorded form of the event, restarting the elapsed time when it does; moves update the pointer position even when not recorded |
| Commands.UpdateEventDelay | src-tauri/src/lib.rs:241-250 | same length; the indexed event has the new delay and is otherwise unchanged, as are all others; the total changes by the difference; an index out of range changes nothing |
| Commands.SumDelaysUpdate | src-tauri/src/lib.rs:241-250 | replacing one delay changes the total by the difference |
| Commands.DeleteEvent | src-tauri/src/lib.rs:254-259 | the indexed event is removed and the rest keep their order; the multiset loses exactly that event; the total loses its delay; an index out of range changes nothing |
| Commands.SumDelaysRemove | src-tauri/src/lib.rs:254-259 | removing one event lowers the total by its delay |
| Commands.ScaledDelay | src-tauri/src/lib.rs:263-269 | a delay times the factor, truncated; the identity at factor 1.0 |
| Commands.ScaleDelays | src-tauri/src/lib.rs:263-269 | each event keeps its shape and gets its scaled delay; a factor of 1.0 returns the list unchanged |
| Commands.Utf8LenOne | src-tauri/src/lib.rs:179 | a string is one byte long iff it is a single ASCII character |
| Commands.ParseKeySpec | src-tauri/src/lib.rs:179-183 | a parsed key gives back the text it came from, and is a `Char` iff the text is one ASCII character |
| Commands.ParseButtonInverse | src-tauri/src/lib.rs:170-175 | parsing a button name is the inverse of naming the three named buttons |
| Commands.ParseTrigger | src-tauri/src/lib.rs:167-187 | `key` always parses, `mouse` parses iff the name is left, right or middle ("Invalid mouse button" otherwise), and any other type gives "Invalid trigger type" |
| Commands.ParseTriggerOk | src-tauri/src/lib.rs:167-187 | a parsed trigger carries the given key text or button name |
| Commands.ParseAction | src-tauri/src/lib.rs:190-228 | `key_press` always parses, `mouse_click` iff the button name is known ("Invalid mouse button" otherwise), and any other type gives "Invalid action type" |
| Commands.ParseActionOk | src-tauri/src/lib.rs:190-228 | an action is a press at delay 0 and the matching release 50 ms later, of the same key or the same button at (0, 0) |
| Commands.CreateInputMapping | src-tauri/src/lib.rs:160-232 | the trigger error wins over the action error and either leaves the registry unchanged; on success the macro built from both is registered and found by its trigger |

## Left out

- Windows, the overlay and the frontend events are not modelled. `HandleEvent` returns the notification it would send.
- `init` and the hook thread that calls `handle_event` are not modelled.
- Playback-finish UI cleanup is not modelled.
- JSON save and load, the scripts directory and `AppConfig` are not modelled. They are file I/O.
- The scripts' creation and modification timestamps are not modelled. They come from the wall clock.
- Time is a natural-number parameter in nanoseconds (`now`). `HandleEvent` and `RecordEventDirect` use one reading for the elapsed time and the commit; the source reads the clock twice.
- The random part of `create_simple_macro`'s id is not modelled. The id is a parameter.
- The `add_macro`, `remove_macro`, `get_all_macros`, `is_recording`, `get_recorded_events`, `play_script` and similar module-level functions, and the `lib.rs` commands that only forward to them, are not modelled separately. They take the global state and call the class method, which is modelled.
- `get_recording_key` and `get_playback_key` are not modelled separately. They are plain field reads, covered by `Hotkeys.HotkeyState.GetAllKeys`.
- The worker thread runs synchronously. `PlayScript` returns the job the thread would run, and `PlaybackWorker` runs a job against a `Host`. A stop that races with a worker that is still finishing is not modelled.
- `CheckAndExecute` does not run the worker. It starts playback of the macro and returns the job the spawned thread would run; `HandleEvent` passes that job on.
- Player.PlaybackWorker: an infinite loop (`count == 0`) runs for a `fuel` number of iterations. Iterations beyond the fuel are not modelled.
- Player.RunLoops: the same fuel bound on the infinite loop; `outOfFuel` reports that it was reached.
- The worker is modelled as several methods (`RunLoops`, `RunPass`, `RunIteration`, `ExecuteEvent`, `WaitDelay`, `Dispatch` and the `Inject*` methods) rather than one closure.
- A stop requested by another thread after the last stop check of `execute_event` (player.rs:169) and before its injector calls (player.rs:173-228) is not modelled. The Host delivers a stop only as its clock advances, and injector calls take no time. The guarantee that nothing is injected once a stop is due (`late` stays unchanged) therefore assumes this window away; in the source that event is still injected.
- A failing injector is one fixed position in the trace (`failAt`). Several failures in one run cannot be expressed, but the first failure ends a run, so none is needed.
- Injector error details are not modelled; the model keeps the error's context prefix. Injector creation failure is the Host's `initFails`.
- Sleeps advance the Host's clock. The clock is otherwise not tied to the wall time of the trace.
- Scripts.SaturatingCast, Player.PlaybackDelay, Player.SaturatingCastI32 and Commands.ScaledDelay: `f64` is modelled as an exact real. Rounding, NaN and infinities are not modelled, except that division by a zero speed saturates as Rust's `inf as u64` does.
- Player.PlaybackState.IncrementLoop: the `u32` loop counter is an unbounded natural. It cannot wrap after 2^32 iterations.
- Scripts.Script.AddEvent: the total duration is an unbounded sum. The source's `u64` sum could overflow.
- Macros.EscapeChar: `Debug`'s `\u{...}` escapes of non-printable and grapheme-extending characters are not modelled. Those characters are written as themselves. The identifier is still injective.
- Macros.MacroState.GetAllMacros: returns a set, because the order of a `HashMap` is unspecified.
- Macros.ToggleMacro: if several entries carry the same id, the model picks one of them; the source picks the first in `HashMap` order.

## Behaviour of the source that the model keeps

The model follows the code in these places, which a reader might not expect:

- `play_script` starts even while recording.
- `start_recording` starts even while playing. Only the F9 hotkey refuses to start recording during playback.
- `handle_event` compares against the fixed keys F9, F10 and Escape. It does not consult the configurable hotkey bindings.
- The pointer position is updated only while recording.
- Key presses repeated by the keyboard's auto-repeat are recorded one by one. Nothing collapses them while recording.
- The pause between loops (`delay_between_ms`) also runs after the last iteration, before the loop head notices that the count is reached (player.rs:300-303).
- `check_and_execute` reports that the macro fired even when `play_events` refuses because something is already playing. The refusal is dropped (macro_trigger.rs:63-79).
- Keys the injector has no mapping for are skipped silently at replay. They do not fail the run (player.rs:174-186).
