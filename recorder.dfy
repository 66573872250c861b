/**
 * recorder.rs: the recording buffer. Instants are nanosecond counts of a
 * monotonic clock, passed in as `now` instead of being read from the system.
 */
module Recorder {
  import opened Wrappers
  import opened Scripts

  const NANOS_PER_MS: nat := 1_000_000

  /**
   * `now.duration_since(last).as_millis() as u64`: whole milliseconds from
   * `last` to `now`, zero when `now` is not later (duration_since saturates),
   * truncated to 64 bits by the cast.
   */
  function ElapsedMs(last: nat, now: nat): (r: U64)
    ensures now <= last ==> r == 0
    ensures last <= now && now - last < (U64_MAX + 1) * NANOS_PER_MS ==>
              r * NANOS_PER_MS <= now - last < (r + 1) * NANOS_PER_MS
  {
    if now <= last then 0 else ((now - last) / NANOS_PER_MS) % (U64_MAX + 1)
  }

  /** Within the range where the cast does not truncate, the elapsed time never decreases as `now` grows. */
  lemma ElapsedMsMonotone(last: nat, now1: nat, now2: nat)
    requires now1 <= now2 && now2 - last < (U64_MAX + 1) * NANOS_PER_MS
    ensures ElapsedMs(last, now1) <= ElapsedMs(last, now2)
  {
    var r1, r2 := ElapsedMs(last, now1), ElapsedMs(last, now2);
    if last < now1 {
      assert r1 * NANOS_PER_MS <= now1 - last <= now2 - last < (r2 + 1) * NANOS_PER_MS;
    }
  }

  /** `RecordingState`: the recording flag, the buffer, the two timestamps and the last pointer position. */
  class RecordingState {
    var isRecording: bool
    var events: seq<ScriptEvent>
    var startTime: Option<nat>
    var lastEventTime: Option<nat>
    var mousePosition: (real, real)

    /** `RecordingState::new`. */
    constructor ()
      ensures !isRecording && events == [] && startTime == None && lastEventTime == None
      ensures mousePosition == (0.0, 0.0)
    {
      isRecording := false;
      events := [];
      startTime := None;
      lastEventTime := None;
      mousePosition := (0.0, 0.0);
    }

    /** `is_recording`. */
    method IsRecording() returns (b: bool)
      ensures b == isRecording
    {
      b := isRecording;
    }

    /** `start`: the buffer is emptied, both clocks restart at `now` and recording is on. */
    method Start(now: nat)
      modifies this`isRecording, this`events, this`startTime, this`lastEventTime
      ensures isRecording && events == []
      ensures startTime == Some(now) && lastEventTime == Some(now)
      ensures ElapsedAt(now) == 0
    {
      events := [];
      startTime := Some(now);
      lastEventTime := Some(now);
      isRecording := true;
    }

    /** `stop`: recording is off; the buffer is kept. */
    method Stop()
      modifies this`isRecording
      ensures !isRecording
    {
      isRecording := false;
    }

    /** `add_event`: appends while recording, does nothing otherwise. */
    method AddEvent(e: ScriptEvent)
      modifies this`events
      ensures isRecording ==> events == old(events) + [e]
      ensures !isRecording ==> events == old(events)
    {
      if isRecording {
        events := events + [e];
      }
    }

    /** `get_events`: a copy of the buffer. */
    method GetEvents() returns (es: seq<ScriptEvent>)
      ensures es == events
    {
      es := events;
    }

    /** What `get_elapsed_ms` reports at `now`: the time since the last commit, or 0 before any. */
    function ElapsedAt(now: nat): U64
      reads this
    {
      match lastEventTime
      case None => 0
      case Some(t) => ElapsedMs(t, now)
    }

    /** `get_elapsed_ms`. */
    method GetElapsedMs(now: nat) returns (ms: U64)
      ensures lastEventTime.None? ==> ms == 0
      ensures lastEventTime.Some? && lastEventTime.value <= now &&
              now - lastEventTime.value < (U64_MAX + 1) * NANOS_PER_MS ==>
                ms * NANOS_PER_MS <= now - lastEventTime.value < (ms + 1) * NANOS_PER_MS
      ensures ms == ElapsedAt(now)
    {
      ms := match lastEventTime case None => 0 case Some(t) => ElapsedMs(t, now);
    }

    /** `commit_event`: while recording, appends the event and restarts the elapsed clock at `now`. */
    method CommitEvent(e: ScriptEvent, now: nat)
      modifies this`events, this`lastEventTime
      ensures isRecording ==> events == old(events) + [e] && lastEventTime == Some(now)
      ensures isRecording ==> ElapsedAt(now) == 0
      ensures !isRecording ==> events == old(events) && lastEventTime == old(lastEventTime)
    {
      if !isRecording {
        return;
      }
      lastEventTime := Some(now);
      events := events + [e];
    }

    /** `update_mouse_position`. */
    method UpdateMousePosition(x: real, y: real)
      modifies this`mousePosition
      ensures mousePosition == (x, y)
    {
      mousePosition := (x, y);
    }

    /** `get_mouse_position`: the last position stored. */
    method GetMousePosition() returns (p: (real, real))
      ensures p == mousePosition
    {
      p := mousePosition;
    }
  }

  /** `start_recording`: refused while recording, with the state untouched; otherwise `start`. */
  method StartRecording(rec: RecordingState, now: nat) returns (r: Result<(), string>)
    modifies rec
    ensures old(rec.isRecording) ==> r == Err("Already recording")
    ensures old(rec.isRecording) ==> rec.events == old(rec.events) && rec.isRecording
    ensures old(rec.isRecording) ==> rec.startTime == old(rec.startTime) && rec.lastEventTime == old(rec.lastEventTime)
    ensures !old(rec.isRecording) ==> r.Ok? && rec.isRecording && rec.events == []
    ensures !old(rec.isRecording) ==> rec.startTime == Some(now) && rec.lastEventTime == Some(now)
    ensures rec.mousePosition == old(rec.mousePosition)
  {
    if rec.isRecording {
      return Err("Already recording");
    }
    rec.Start(now);
    r := Ok(());
  }

  /** `stop_recording`: recording is off and the buffer is returned exactly as recorded, and kept. */
  method StopRecording(rec: RecordingState) returns (recorded: seq<ScriptEvent>)
    modifies rec`isRecording
    ensures !rec.isRecording
    ensures recorded == rec.events
  {
    rec.Stop();
    recorded := rec.GetEvents();
  }

  /**
   * `record_event_direct`: while recording, the event is committed with its
   * delay replaced by the time elapsed since the previous commit.
   */
  method RecordEventDirect(rec: RecordingState, e: ScriptEvent, now: nat)
    modifies rec`events, rec`lastEventTime
    ensures rec.isRecording ==>
              rec.events == old(rec.events) + [SetDelayMs(e, old(rec.ElapsedAt(now)))] &&
              rec.lastEventTime == Some(now)
    ensures !rec.isRecording ==> rec.events == old(rec.events) && rec.lastEventTime == old(rec.lastEventTime)
  {
    if rec.isRecording {
      var elapsed := rec.GetElapsedMs(now);
      var stamped := SetDelayMs(e, elapsed);
      rec.CommitEvent(stamped, now);
    }
  }
}
