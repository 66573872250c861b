/**
 * player.rs: playback of a script through the input injector.
 *
 * The injector, the sleeps and the other threads are gathered in a `Host`:
 * injected actions and sleeps are appended to its output trace, the clock is
 * the total time slept, another thread's `stop_playback` arrives once the clock
 * reaches `stopAt`, and the injector call that would have made entry number
 * `failAt` of the trace fails.
 */
module Player {
  import opened Wrappers
  import opened Scripts
  import Enigo
  import Rdev

  // ---------------------------------------------------------------------------
  // Numeric conversions used when injecting
  // ---------------------------------------------------------------------------

  const I32_MIN: int := -0x8000_0000
  const I32_MAX: int := 0x7FFF_FFFF

  /** `x as i32` on a finite f64: truncation toward zero, saturating at the i32 bounds. */
  function SaturatingCastI32(x: real): (r: int)
    ensures I32_MIN <= r <= I32_MAX
    ensures 0.0 <= x < I32_MAX as real ==> r as real <= x < r as real + 1.0
    ensures I32_MIN as real < x < 0.0 ==> r as real - 1.0 < x <= r as real
    ensures x <= I32_MIN as real ==> r == I32_MIN
    ensures x >= I32_MAX as real ==> r == I32_MAX
  {
    if x <= I32_MIN as real then I32_MIN
    else if x >= I32_MAX as real then I32_MAX
    else if x >= 0.0 then x.Floor
    else -((-x).Floor)
  }

  /** `n as i32` on an integer: the low 32 bits read as two's complement. */
  function WrapI32(n: int): (r: int)
    ensures I32_MIN <= r <= I32_MAX
    ensures (r - n) % 0x1_0000_0000 == 0
    ensures I32_MIN <= n <= I32_MAX ==> r == n
  {
    var m := n % 0x1_0000_0000;
    if m > I32_MAX then m - 0x1_0000_0000 else m
  }

  /**
   * `(delay_ms as f64 / speed_multiplier) as u64`, on exact reals. Division by
   * zero follows IEEE 754: a positive delay becomes +inf, which saturates, and
   * 0/0 is NaN, which casts to 0.
   */
  function PlaybackDelay(d: U64, speed: real): (r: U64)
    ensures speed == 1.0 ==> r == d
    ensures speed == 0.0 ==> r == (if d == 0 then 0 else U64_MAX)
    ensures speed < 0.0 ==> r == 0
    ensures speed > 0.0 && d as real / speed < U64_MAX as real ==>
              r as real <= d as real / speed < r as real + 1.0
  {
    if speed == 0.0 then (if d == 0 then 0 else U64_MAX)
    else
      QuotientSign(d as real, speed);
      SaturatingCast(d as real / speed)
  }

  lemma QuotientSign(x: real, y: real)
    requires x >= 0.0 && y != 0.0
    ensures y < 0.0 ==> x / y <= 0.0
  {
    if y < 0.0 {
      var q := x / y;
      assert q * y == x;
    }
  }

  // ---------------------------------------------------------------------------
  // Keys
  // ---------------------------------------------------------------------------

  /**
   * `keyboard_key_to_enigo`. The names are grouped by their first letter; the
   * table is the one of the source's match.
   */
  function KeyToEnigo(key: KeyboardKey): Option<Enigo.Key> {
    match key
    case Char(c) => Some(Enigo.Unicode(c))
    case Special(s) =>
      if s == [] then None
      else match s[0]
        case 'A' => if s == "Alt" then Some(Enigo.Alt) else None
        case 'B' => if s == "Backspace" then Some(Enigo.Backspace) else None
        case 'C' =>
          if s == "CapsLock" then Some(Enigo.CapsLock)
          else if s == "ControlLeft" || s == "ControlRight" then Some(Enigo.Control)
          else None
        case 'D' =>
          if s == "Delete" then Some(Enigo.Delete)
          else if s == "DownArrow" then Some(Enigo.DownArrow)
          else None
        case 'E' =>
          if s == "End" then Some(Enigo.End)
          else if s == "Escape" then Some(Enigo.Escape)
          else None
        case 'F' =>
          if s == "F1" then Some(Enigo.F1)
          else if s == "F2" then Some(Enigo.F2)
          else if s == "F3" then Some(Enigo.F3)
          else if s == "F4" then Some(Enigo.F4)
          else if s == "F5" then Some(Enigo.F5)
          else if s == "F6" then Some(Enigo.F6)
          else if s == "F7" then Some(Enigo.F7)
          else if s == "F8" then Some(Enigo.F8)
          else if s == "F9" then Some(Enigo.F9)
          else if s == "F10" then Some(Enigo.F10)
          else if s == "F11" then Some(Enigo.F11)
          else if s == "F12" then Some(Enigo.F12)
          else None
        case 'H' => if s == "Home" then Some(Enigo.Home) else None
        case 'L' => if s == "LeftArrow" then Some(Enigo.LeftArrow) else None
        case 'M' => if s == "MetaLeft" || s == "MetaRight" then Some(Enigo.Meta) else None
        case 'P' =>
          if s == "PageDown" then Some(Enigo.PageDown)
          else if s == "PageUp" then Some(Enigo.PageUp)
          else None
        case 'R' =>
          if s == "Return" then Some(Enigo.Return)
          else if s == "RightArrow" then Some(Enigo.RightArrow)
          else None
        case 'S' =>
          if s == "ShiftLeft" || s == "ShiftRight" then Some(Enigo.Shift)
          else if s == "Space" then Some(Enigo.Space)
          else None
        case 'T' => if s == "Tab" then Some(Enigo.Tab) else None
        case 'U' => if s == "UpArrow" then Some(Enigo.UpArrow) else None
        case _ => None
  }

  /** The hook keys whose names the injector does not know. */
  const NotInjectable: set<Rdev.Key> :=
    {Rdev.AltGr, Rdev.PrintScreen, Rdev.ScrollLock, Rdev.Pause, Rdev.NumLock, Rdev.Insert}

  /** Characters are typed as themselves; left and right Control, Meta and Shift become one key. */
  lemma KeyToEnigoCollapses(c: char)
    ensures KeyToEnigo(Char(c)) == Some(Enigo.Unicode(c))
    ensures KeyToEnigo(Special("ControlLeft")) == KeyToEnigo(Special("ControlRight")) == Some(Enigo.Control)
    ensures KeyToEnigo(Special("MetaLeft")) == KeyToEnigo(Special("MetaRight")) == Some(Enigo.Meta)
    ensures KeyToEnigo(Special("ShiftLeft")) == KeyToEnigo(Special("ShiftRight")) == Some(Enigo.Shift)
  {
  }

  /** Every name the injector knows is a name the hook conversion produces. */
  lemma InjectableNamesKnown(n: string)
    ensures KeyToEnigo(Special(n)).Some? ==> ToRdevKey(Special(n)).Some?
  {
  }

  /** Of the names the hook conversion produces, the injector knows all but those of NotInjectable. */
  lemma InjectableNamesExact(n: string)
    ensures ToRdevKey(Special(n)).Some? ==>
              (KeyToEnigo(Special(n)).None? <==> ToRdevKey(Special(n)).value in NotInjectable)
  {
  }

  /** The hook keys written as characters (letters, digits, punctuation) are all injectable. */
  lemma HookCharsInjectable(c: char)
    ensures ToRdevKey(Char(c)).Some? ==> ToRdevKey(Char(c)).value !in NotInjectable
  {
  }

  /**
   * A key event from the hook is replayed unless its key is one of
   * NotInjectable or a key outside the conversion table (Special("Unknown")).
   */
  lemma {:induction false} HookKeysInjectable(k: Rdev.Key)
    ensures KeyToEnigo(FromRdevKey(k)).None? <==> k.Other? || k in NotInjectable
  {
    if k.Other? {
      assert KeyToEnigo(Special("Unknown")).None?;
    } else {
      FromRdevKeyRoundTrip(k);
      var key := FromRdevKey(k);
      if key.Char? {
        HookCharsInjectable(key.c);
      } else {
        InjectableNamesExact(key.name);
      }
    }
  }

  // ---------------------------------------------------------------------------
  // Output trace
  // ---------------------------------------------------------------------------

  /** One call into the injector, or one `thread::sleep`. */
  datatype Output =
    | KeyAction(key: Enigo.Key, direction: Enigo.Direction)
    | ButtonAction(button: Enigo.Button, direction: Enigo.Direction)
    | MoveTo(x: int, y: int)
    | Scroll(amount: int, axis: Enigo.Axis)
    | Sleep(ms: nat)

  /** The total time slept in a trace, which is the host's clock. */
  function SumSleeps(t: seq<Output>): nat {
    if t == [] then 0
    else SumSleeps(t[..|t| - 1]) + (if t[|t| - 1].Sleep? then t[|t| - 1].ms else 0)
  }

  lemma {:induction false} SumSleepsAppend(a: seq<Output>, b: seq<Output>)
    ensures SumSleeps(a + b) == SumSleeps(a) + SumSleeps(b)
    decreases |b|
  {
    if b == [] {
      assert a + b == a;
    } else {
      assert (a + b)[..|a + b| - 1] == a + b[..|b| - 1];
      SumSleepsAppend(a, b[..|b| - 1]);
    }
  }

  /** The injector calls for a key event: one call, or none when the injector does not know the key. */
  function KeyActions(k: KeyboardKey, dir: Enigo.Direction): seq<Output> {
    if KeyToEnigo(k).Some? then [KeyAction(KeyToEnigo(k).value, dir)] else []
  }

  /** The injector calls for a click: a move to the recorded position when `usePos`, then the button. */
  function ButtonActions(b: MouseButton, x: real, y: real, dir: Enigo.Direction, usePos: bool): seq<Output> {
    (if usePos then [MoveTo(SaturatingCastI32(x), SaturatingCastI32(y))] else [])
    + [ButtonAction(ToEnigoButton(b), dir)]
  }

  /** The injector calls for a wheel event: vertical first, then horizontal, each only when non-zero, negated. */
  function ScrollActions(dx: Rdev.I64, dy: Rdev.I64): seq<Output> {
    (if dy != 0 then [Scroll(WrapI32(-(dy as int)), Enigo.Vertical)] else [])
    + (if dx != 0 then [Scroll(WrapI32(-(dx as int)), Enigo.Horizontal)] else [])
  }

  /** The injector calls for one event, in order; `usePos` is whether the script has mouse moves. */
  function Actions(e: ScriptEvent, usePos: bool): (r: seq<Output>)
    ensures forall i | 0 <= i < |r| :: !r[i].Sleep?
    ensures e.KeyPress? || e.KeyRelease? ==> (r == [] <==> KeyToEnigo(e.key).None?)
    ensures (e.KeyPress? || e.KeyRelease?) && KeyToEnigo(e.key).Some? ==>
              r == [KeyAction(KeyToEnigo(e.key).value, if e.KeyPress? then Enigo.Press else Enigo.Release)]
    // A click: the move to the recorded position when positions are used, then the button.
    ensures e.MousePress? || e.MouseRelease? ==> |r| == (if usePos then 2 else 1)
    ensures e.MousePress? || e.MouseRelease? ==>
              r[|r| - 1] == ButtonAction(ToEnigoButton(e.button), if e.MousePress? then Enigo.Press else Enigo.Release)
    ensures (e.MousePress? || e.MouseRelease?) && usePos ==>
              r[0] == MoveTo(SaturatingCastI32(e.x), SaturatingCastI32(e.y))
    ensures e.MouseMove? ==> r == [MoveTo(SaturatingCastI32(e.x), SaturatingCastI32(e.y))]
    // A wheel event: vertical first, then horizontal, each negated and only when non-zero.
    ensures e.MouseScroll? ==> |r| == (if e.deltaY != 0 then 1 else 0) + (if e.deltaX != 0 then 1 else 0)
    ensures e.MouseScroll? && e.deltaY != 0 ==> r[0] == Scroll(WrapI32(-(e.deltaY as int)), Enigo.Vertical)
    ensures e.MouseScroll? && e.deltaX != 0 ==> r[|r| - 1] == Scroll(WrapI32(-(e.deltaX as int)), Enigo.Horizontal)
  {
    match e
    case KeyPress(k, _) => KeyActions(k, Enigo.Press)
    case KeyRelease(k, _) => KeyActions(k, Enigo.Release)
    case MousePress(b, x, y, _) => ButtonActions(b, x, y, Enigo.Press, usePos)
    case MouseRelease(b, x, y, _) => ButtonActions(b, x, y, Enigo.Release, usePos)
    case MouseMove(x, y, _) => [MoveTo(SaturatingCastI32(x), SaturatingCastI32(y))]
    case MouseScroll(dx, dy, _) => ScrollActions(dx, dy)
  }

  /** The wait before an event: sleeps of 100 ms while more than 100 ms remain, then the rest. */
  function Chunks(d: nat): seq<Output>
    decreases d
  {
    if d == 0 then []
    else if d > CHUNK_MS then [Sleep(CHUNK_MS)] + Chunks(d - CHUNK_MS)
    else [Sleep(d)]
  }

  const CHUNK_MS: nat := 100

  /** The chunks are sleeps of 1 to 100 ms that add up to the delay, one per started 100 ms. */
  lemma {:induction false} ChunksSpec(d: nat)
    ensures SumSleeps(Chunks(d)) == d
    ensures |Chunks(d)| == (d + CHUNK_MS - 1) / CHUNK_MS
    ensures forall i | 0 <= i < |Chunks(d)| :: Chunks(d)[i].Sleep? && 0 < Chunks(d)[i].ms <= CHUNK_MS
    decreases d
  {
    if d > CHUNK_MS {
      ChunksSpec(d - CHUNK_MS);
      SumSleepsAppend([Sleep(CHUNK_MS)], Chunks(d - CHUNK_MS));
      assert SumSleeps([Sleep(CHUNK_MS)]) == CHUNK_MS by {
        assert [Sleep(CHUNK_MS)][..0] == [];
      }
    } else if d > 0 {
      assert SumSleeps([Sleep(d)]) == d by {
        assert [Sleep(d)][..0] == [];
      }
    }
  }

  /** Everything one event produces when nothing interrupts it: the wait, then its injector calls. */
  function EventTrace(e: ScriptEvent, speed: real, usePos: bool): seq<Output> {
    Chunks(PlaybackDelay(e.delayMs, speed)) + Actions(e, usePos)
  }

  /** The traces of a list of pieces, one after another. */
  function Concat(ts: seq<seq<Output>>): seq<Output> {
    if ts == [] then [] else Concat(ts[..|ts| - 1]) + ts[|ts| - 1]
  }

  lemma {:induction false} ConcatAppend(a: seq<seq<Output>>, b: seq<seq<Output>>)
    ensures Concat(a + b) == Concat(a) + Concat(b)
    decreases |b|
  {
    if b == [] {
      assert a + b == a;
    } else {
      var init, last := b[..|b| - 1], b[|b| - 1];
      assert (a + b)[..|a + b| - 1] == a + init;
      assert (a + b)[|a + b| - 1] == last;
      ConcatAppend(a, init);
      AppendAssoc(Concat(a), Concat(init), last);
    }
  }

  /** The pieces of a pass: one uninterrupted event trace per event. */
  function EventTraces(events: seq<ScriptEvent>, speed: real, usePos: bool): (r: seq<seq<Output>>)
    ensures |r| == |events|
    ensures forall i | 0 <= i < |events| :: r[i] == EventTrace(events[i], speed, usePos)
  {
    seq(|events|, i requires 0 <= i < |events| => EventTrace(events[i], speed, usePos))
  }

  /** One uninterrupted pass over the events. */
  function PassTrace(events: seq<ScriptEvent>, speed: real, usePos: bool): seq<Output> {
    Concat(EventTraces(events, speed, usePos))
  }

  /** At speed 1.0 an event's trace sleeps exactly its delay. */
  lemma EventTraceDuration(e: ScriptEvent, usePos: bool)
    ensures SumSleeps(EventTrace(e, 1.0, usePos)) == e.delayMs
  {
    ChunksSpec(e.delayMs);
    SumSleepsAppend(Chunks(e.delayMs), Actions(e, usePos));
    NoSleeps(Actions(e, usePos));
  }

  /** The pieces of a prefix of the events are the prefix of the pieces. */
  lemma EventTracesPrefix(events: seq<ScriptEvent>, n: nat, speed: real, usePos: bool)
    requires n <= |events|
    ensures EventTraces(events, speed, usePos)[..n] == EventTraces(events[..n], speed, usePos)
  {
  }

  /** A pass over a non-empty list is the pass over all but the last event, then the last event's trace. */
  lemma PassTraceSnoc(events: seq<ScriptEvent>, speed: real, usePos: bool)
    requires events != []
    ensures PassTrace(events, speed, usePos) ==
              PassTrace(events[..|events| - 1], speed, usePos) + EventTrace(events[|events| - 1], speed, usePos)
  {
    var n := |events|;
    var ts := EventTraces(events, speed, usePos);
    ConcatSnoc(ts, n - 1);
    assert ts[..n] == ts;
    EventTracesPrefix(events, n - 1, speed, usePos);
  }

  lemma SumDelaysSnoc(events: seq<ScriptEvent>)
    requires events != []
    ensures SumDelays(events) == SumDelays(events[..|events| - 1]) + events[|events| - 1].delayMs
  {
    var n := |events|;
    assert events == events[..n - 1] + [events[n - 1]];
    SumDelaysAppend(events[..n - 1], [events[n - 1]]);
  }

  /** A pass at speed 1.0 sleeps exactly the script's total duration. */
  lemma {:induction false} PassTraceDuration(events: seq<ScriptEvent>, usePos: bool)
    ensures SumSleeps(PassTrace(events, 1.0, usePos)) == SumDelays(events)
    decreases |events|
  {
    if events != [] {
      var init, last := events[..|events| - 1], events[|events| - 1];
      PassTraceSnoc(events, 1.0, usePos);
      SumDelaysSnoc(events);
      SumSleepsAppend(PassTrace(init, 1.0, usePos), EventTrace(last, 1.0, usePos));
      EventTraceDuration(last, usePos);
      PassTraceDuration(init, usePos);
    }
  }

  lemma {:induction false} NoSleeps(t: seq<Output>)
    requires forall i | 0 <= i < |t| :: !t[i].Sleep?
    ensures SumSleeps(t) == 0
    decreases |t|
  {
    if t != [] {
      NoSleeps(t[..|t| - 1]);
    }
  }

  /** `n` copies of a trace, one after another. */
  function Repeat(t: seq<Output>, n: nat): (r: seq<Output>)
    ensures |r| == n * |t|
  {
    if n == 0 then [] else Repeat(t, n - 1) + t
  }

  /** Fewer repetitions are a prefix of more. */
  lemma {:induction false} RepeatPrefix(t: seq<Output>, m: nat, n: nat)
    requires m <= n
    ensures Repeat(t, m) <= Repeat(t, n)
    decreases n
  {
    if m < n {
      RepeatPrefix(t, m, n - 1);
    }
  }

  /** `has_mouse_moves`: recorded click positions are used only when the script moves the mouse. */
  predicate HasMouseMoves(events: seq<ScriptEvent>) {
    exists e | e in events :: e.MouseMove?
  }

  /** What the worker thread captures: the script's events, its loop settings and its speed. */
  datatype Job = Job(events: seq<ScriptEvent>, loopConfig: LoopConfig, speed: real)

  /** One uninterrupted iteration of the outer loop: a pass, then the pause between loops if any. */
  function IterTrace(job: Job): seq<Output> {
    PassTrace(job.events, job.speed, HasMouseMoves(job.events))
    + (if job.loopConfig.delayBetweenMs > 0 then [Sleep(job.loopConfig.delayBetweenMs)] else [])
  }

  // ---------------------------------------------------------------------------
  // Playback state
  // ---------------------------------------------------------------------------

  /** `PlaybackState`. The loop counter is an unbounded integer here. */
  class PlaybackState {
    var isPlaying: bool
    var currentLoop: nat
    var currentEvent: nat
    var stopRequested: bool

    /** `PlaybackState::new`: idle. */
    constructor ()
      ensures !isPlaying && currentLoop == 0 && currentEvent == 0 && !stopRequested
    {
      isPlaying := false;
      currentLoop := 0;
      currentEvent := 0;
      stopRequested := false;
    }

    /** `start`: counters reset, stop request cleared, playing. */
    method Start()
      modifies this
      ensures isPlaying && !stopRequested && currentLoop == 0 && currentEvent == 0
    {
      currentLoop := 0;
      currentEvent := 0;
      stopRequested := false;
      isPlaying := true;
    }

    /** `stop`: a stop is requested and playing is off; the counters are kept, so a second call changes nothing. */
    method Stop()
      modifies this`stopRequested, this`isPlaying
      ensures stopRequested && !isPlaying
    {
      stopRequested := true;
      isPlaying := false;
    }

    /** `is_playing`. */
    method IsPlaying() returns (b: bool)
      ensures b == isPlaying
    {
      b := isPlaying;
    }

    /** `should_stop`. */
    method ShouldStop() returns (b: bool)
      ensures b == stopRequested
    {
      b := stopRequested;
    }

    /** `increment_loop`: the counter goes up by one and its new value is returned. */
    method IncrementLoop() returns (n: nat)
      modifies this`currentLoop
      ensures currentLoop == old(currentLoop) + 1 && n == currentLoop
    {
      currentLoop := currentLoop + 1;
      n := currentLoop;
    }

    /** `set_event_index`. */
    method SetEventIndex(index: nat)
      modifies this`currentEvent
      ensures currentEvent == index
    {
      currentEvent := index;
    }

    /** `finish`: playing is off. The stop request is left as it is. */
    method Finish()
      modifies this`isPlaying
      ensures !isPlaying
    {
      isPlaying := false;
    }
  }

  // ---------------------------------------------------------------------------
  // The host: injector, sleeps and the other threads
  // ---------------------------------------------------------------------------

  class Host {
    /** Injected actions and sleeps, in order. */
    var trace: seq<Output>
    /** The time slept so far, in milliseconds. */
    var clock: nat
    /** Whether an injector call or a sleep has begun once the stop time had come. */
    ghost var late: bool
    /** When another thread calls `stop_playback`, on `clock`. */
    const stopAt: Option<nat>
    /** The trace position whose injector call fails. */
    const failAt: Option<nat>
    /** Whether creating the injector fails. */
    const initFails: bool

    constructor (stopAt: Option<nat>, failAt: Option<nat>, initFails: bool)
      ensures trace == [] && clock == 0 && !late
      ensures this.stopAt == stopAt && this.failAt == failAt && this.initFails == initFails
    {
      trace := [];
      clock := 0;
      late := false;
      this.stopAt := stopAt;
      this.failAt := failAt;
      this.initFails := initFails;
    }

    /** Another thread has asked to stop by now. */
    predicate StopDue()
      reads this
    {
      stopAt.Some? && clock >= stopAt.value
    }

    /** The next injector call fails: it is the one for the position after the trace. */
    predicate NextCallFails()
      reads this
    {
      failAt == Some(|trace|)
    }

    /** Neither a stop from elsewhere nor a failing injector. */
    predicate Clean()
      reads this
    {
      stopAt.None? && failAt.None? && !initFails
    }

    /** `thread::sleep`: the clock advances by the time slept. */
    method Sleep(ms: nat)
      modifies this`trace, this`clock, this`late
      ensures trace == old(trace) + [Output.Sleep(ms)] && clock == old(clock) + ms
      ensures late == (old(late) || old(StopDue()))
      ensures NoFailure(failAt, old(trace), trace)
    {
      late := late || StopDue();
      trace := trace + [Output.Sleep(ms)];
      clock := clock + ms;
    }

    /**
     * One injector call; it fails exactly when it is the call for position
     * `failAt`, and then nothing is injected.
     */
    method Inject(o: Output) returns (ok: bool)
      requires !o.Sleep?
      modifies this`trace, this`late
      ensures ok <==> !old(NextCallFails())
      ensures trace == if ok then old(trace) + [o] else old(trace)
      ensures late == (old(late) || StopDue())
      ensures NoFailure(failAt, old(trace), trace)
    {
      late := late || StopDue();
      ok := !NextCallFails();
      if ok {
        trace := trace + [o];
      }
    }

    /** The other threads act: once the stop time has come, `stop_playback` has been called. */
    method Poll(player: PlaybackState)
      modifies player`stopRequested, player`isPlaying
      ensures player.stopRequested == (old(player.stopRequested) || StopDue())
      ensures player.isPlaying == (old(player.isPlaying) && !StopDue())
    {
      if StopDue() {
        player.Stop();
      }
    }
  }

  // ---------------------------------------------------------------------------
  // Prefix facts
  // ---------------------------------------------------------------------------

  lemma PrefixExtend(a: seq<Output>, b: seq<Output>, c: seq<Output>)
    requires a <= b
    ensures a <= b + c
  {
    assert (b + c)[..|a|] == b[..|a|];
  }

  lemma PrefixAfter(x: seq<Output>, p: seq<Output>, q: seq<Output>)
    requires p <= q
    ensures x + p <= x + q
  {
    assert (x + q)[..|x + p|] == x + q[..|p|];
  }

  lemma AppendAssoc(a: seq<Output>, b: seq<Output>, c: seq<Output>)
    ensures (a + b) + c == a + (b + c)
  {
  }

  /** `t` is `t0` followed by a first part of `whole`. */
  predicate Extends(t0: seq<Output>, t: seq<Output>, whole: seq<Output>) {
    t0 <= t && t[|t0|..] <= whole
  }

  /** Appending a first part of `whole` extends by it. */
  lemma ExtendsBy(t0: seq<Output>, p: seq<Output>, whole: seq<Output>)
    requires p <= whole
    ensures Extends(t0, t0 + p, whole)
  {
    assert (t0 + p)[|t0|..] == p;
  }

  /** Appending all of `a` then part of `b` appends part of `a + b`. */
  lemma ExtendsChain(t0: seq<Output>, a: seq<Output>, t: seq<Output>, b: seq<Output>)
    requires Extends(t0 + a, t, b)
    ensures Extends(t0, t, a + b)
  {
    var p := t[|t0 + a|..];
    assert t == t0 + a + p;
    assert t[|t0|..] == a + p;
    PrefixAfter(a, p, b);
  }

  /** A part of a first part of `w2` is a part of `w2`. */
  lemma ExtendsWiden(t0: seq<Output>, t: seq<Output>, w: seq<Output>, w2: seq<Output>)
    requires Extends(t0, t, w) && w <= w2
    ensures Extends(t0, t, w2)
  {
  }

  lemma ConcatSnoc(ts: seq<seq<Output>>, i: nat)
    requires i < |ts|
    ensures Concat(ts[..i + 1]) == Concat(ts[..i]) + ts[i]
  {
    assert ts[..i + 1][..i] == ts[..i];
  }

  /** The trace of the first pieces is a prefix of the trace of all of them. */
  lemma ConcatTake(ts: seq<seq<Output>>, i: nat)
    requires i <= |ts|
    ensures Concat(ts[..i]) <= Concat(ts)
  {
    assert ts == ts[..i] + ts[i..];
    ConcatAppend(ts[..i], ts[i..]);
    PrefixExtend(Concat(ts[..i]), Concat(ts[..i]), Concat(ts[i..]));
  }

  // ---------------------------------------------------------------------------
  // Injector calls and failures
  // ---------------------------------------------------------------------------

  /**
   * None of the entries appended after `t0` is an injector call at the failing
   * position: every call that made one of them succeeded.
   */
  predicate NoFailure(failAt: Option<nat>, t0: seq<Output>, t: seq<Output>) {
    !(failAt.Some? && |t0| <= failAt.value < |t| && !t[failAt.value].Sleep?)
  }

  /** Two stretches without a failing call make one. */
  lemma NoFailureChain(failAt: Option<nat>, t0: seq<Output>, t1: seq<Output>, t2: seq<Output>)
    requires t1 <= t2 && NoFailure(failAt, t0, t1) && NoFailure(failAt, t1, t2)
    ensures NoFailure(failAt, t0, t2)
  {
    if failAt.Some? && |t0| <= failAt.value < |t1| {
      assert t2[failAt.value] == t1[failAt.value];
    }
  }

  /**
   * A run that was to append `whole` after `t0` ended at a failing injector
   * call: it appended a proper first part of `whole`, the next entry of
   * `whole` is an injector call, and the failure carries that call's error text.
   */
  predicate CutAt(t0: seq<Output>, t: seq<Output>, whole: seq<Output>, f: Failure) {
    Extends(t0, t, whole) && |t| - |t0| < |whole| &&
    !whole[|t| - |t0|].Sleep? && f == InjectError(ErrorContext(whole[|t| - |t0|]))
  }

  /** A cut inside `b` after all of `a` is a cut inside `a + b`. */
  lemma CutChain(t0: seq<Output>, a: seq<Output>, t: seq<Output>, b: seq<Output>, f: Failure)
    requires CutAt(t0 + a, t, b, f)
    ensures CutAt(t0, t, a + b, f)
  {
    ExtendsChain(t0, a, t, b);
    assert (a + b)[|t| - |t0|] == b[|t| - |t0 + a|];
  }

  /** A cut inside a first part of `w2` is a cut inside `w2`. */
  lemma CutWiden(t0: seq<Output>, t: seq<Output>, w: seq<Output>, w2: seq<Output>, f: Failure)
    requires CutAt(t0, t, w, f) && w <= w2
    ensures CutAt(t0, t, w2, f)
  {
    assert w2[|t| - |t0|] == w[|t| - |t0|];
  }

  // ---------------------------------------------------------------------------
  // Executing one event
  // ---------------------------------------------------------------------------

  /** Why `execute_event` gave up. */
  datatype Failure = Stopped | InjectError(context: string) | InitFailed

  /** The text that prefixes the injector's error for each kind of call. */
  function ErrorContext(o: Output): string {
    match o
    case KeyAction(_, d) => if d == Enigo.Press then "Key press error" else "Key release error"
    case ButtonAction(_, d) => if d == Enigo.Press then "Mouse press error" else "Mouse release error"
    case MoveTo(_, _) => "Mouse move error"
    case Scroll(_, _) => "Scroll error"
    case Sleep(_) => "Sleep"
  }

  /** The first chunk of a wait, and the wait for what remains after it. */
  lemma ChunksStep(d: nat)
    requires d > 0
    ensures Chunks(d) == [Output.Sleep(if d > CHUNK_MS then CHUNK_MS else d)] + Chunks(d - (if d > CHUNK_MS then CHUNK_MS else d))
  {
  }

  /**
   * The interruptible wait of `execute_event`: before each chunk the stop
   * flag is read, and a stop ends the wait.
   */
  method WaitDelay(host: Host, player: PlaybackState, d: nat) returns (stopped: bool)
    modifies host`trace, host`clock, host`late, player`stopRequested, player`isPlaying
    ensures Extends(old(host.trace), host.trace, Chunks(d))
    ensures NoFailure(host.failAt, old(host.trace), host.trace)
    ensures !stopped ==> host.trace == old(host.trace) + Chunks(d)
    ensures player.stopRequested == (old(player.stopRequested) || stopped)
    ensures d > 0 && old(player.stopRequested) ==> stopped && host.trace == old(host.trace)
    ensures stopped && host.stopAt.None? ==> old(player.stopRequested)
    ensures host.late == old(host.late)
  {
    ghost var t0 := host.trace;
    ghost var done: seq<Output> := [];
    var remaining: nat := d;
    while remaining > 0
      invariant host.trace == t0 + done
      invariant NoFailure(host.failAt, t0, host.trace)
      invariant done + Chunks(remaining) == Chunks(d)
      invariant remaining == d ==> done == [] && player.stopRequested == old(player.stopRequested)
      invariant remaining < d ==> !player.stopRequested && !old(player.stopRequested)
      invariant host.late == old(host.late)
      decreases remaining
    {
      host.Poll(player);
      var stop := player.ShouldStop();
      if stop {
        PrefixExtend(done, done, Chunks(remaining));
        ExtendsBy(t0, done, Chunks(d));
        return true;
      }
      var sleepTime := if remaining > CHUNK_MS then CHUNK_MS else remaining;
      ChunksStep(remaining);
      ghost var t1 := host.trace;
      host.Sleep(sleepTime);
      NoFailureChain(host.failAt, t0, t1, host.trace);
      AppendAssoc(t0, done, [Output.Sleep(sleepTime)]);
      AppendAssoc(done, [Output.Sleep(sleepTime)], Chunks(remaining - sleepTime));
      done := done + [Output.Sleep(sleepTime)];
      remaining := remaining - sleepTime;
    }
    assert done == Chunks(d);
    ExtendsBy(t0, done, Chunks(d));
    stopped := false;
  }

  /**
   * How a run of injector calls that was to make `acts` ended, given what it
   * appended (`done`): all of them, or a prefix followed by a failing call,
   * reported with that call's error text.
   */
  predicate Outcome(acts: seq<Output>, done: seq<Output>, r: Result<(), Failure>) {
    done <= acts &&
    (r.Ok? ==> done == acts) &&
    (r.Err? ==> |done| < |acts| && r.error == InjectError(ErrorContext(acts[|done|])))
  }

  /** The key arm of `execute_event`'s match. */
  method InjectKey(host: Host, k: KeyboardKey, dir: Enigo.Direction) returns (r: Result<(), Failure>)
    modifies host`trace, host`late
    ensures old(host.trace) <= host.trace
    ensures Outcome(KeyActions(k, dir), host.trace[|old(host.trace)|..], r)
    ensures NoFailure(host.failAt, old(host.trace), host.trace)
    ensures r.Err? ==> host.NextCallFails()
    ensures !host.StopDue() ==> host.late == old(host.late)
  {
    var ek := KeyToEnigo(k);
    if ek.Some? {
      var ok := host.Inject(KeyAction(ek.value, dir));
      if !ok {
        return Err(InjectError(if dir == Enigo.Press then "Key press error" else "Key release error"));
      }
    }
    r := Ok(());
  }

  /** The button arms of `execute_event`'s match. */
  method InjectButton(host: Host, b: MouseButton, x: real, y: real, dir: Enigo.Direction, usePos: bool)
    returns (r: Result<(), Failure>)
    modifies host`trace, host`late
    ensures old(host.trace) <= host.trace
    ensures Outcome(ButtonActions(b, x, y, dir, usePos), host.trace[|old(host.trace)|..], r)
    ensures NoFailure(host.failAt, old(host.trace), host.trace)
    ensures r.Err? ==> host.NextCallFails()
    ensures !host.StopDue() ==> host.late == old(host.late)
  {
    ghost var t0 := host.trace;
    var ok;
    if usePos {
      ok := host.Inject(MoveTo(SaturatingCastI32(x), SaturatingCastI32(y)));
      if !ok {
        return Err(InjectError("Mouse move error"));
      }
    }
    ghost var t1 := host.trace;
    ok := host.Inject(ButtonAction(ToEnigoButton(b), dir));
    NoFailureChain(host.failAt, t0, t1, host.trace);
    if !ok {
      return Err(InjectError(if dir == Enigo.Press then "Mouse press error" else "Mouse release error"));
    }
    r := Ok(());
  }

  /** The mouse move arm of `execute_event`'s match. */
  method InjectMove(host: Host, x: real, y: real) returns (r: Result<(), Failure>)
    modifies host`trace, host`late
    ensures old(host.trace) <= host.trace
    ensures Outcome([MoveTo(SaturatingCastI32(x), SaturatingCastI32(y))], host.trace[|old(host.trace)|..], r)
    ensures NoFailure(host.failAt, old(host.trace), host.trace)
    ensures r.Err? ==> host.NextCallFails()
    ensures !host.StopDue() ==> host.late == old(host.late)
  {
    var ok := host.Inject(MoveTo(SaturatingCastI32(x), SaturatingCastI32(y)));
    if !ok {
      return Err(InjectError("Mouse move error"));
    }
    r := Ok(());
  }

  /** The wheel arm of `execute_event`'s match. */
  method InjectScroll(host: Host, dx: Rdev.I64, dy: Rdev.I64) returns (r: Result<(), Failure>)
    modifies host`trace, host`late
    ensures old(host.trace) <= host.trace
    ensures Outcome(ScrollActions(dx, dy), host.trace[|old(host.trace)|..], r)
    ensures NoFailure(host.failAt, old(host.trace), host.trace)
    ensures r.Err? ==> host.NextCallFails()
    ensures !host.StopDue() ==> host.late == old(host.late)
  {
    ghost var t0 := host.trace;
    var ok;
    if dy != 0 {
      ok := host.Inject(Scroll(WrapI32(-(dy as int)), Enigo.Vertical));
      if !ok {
        return Err(InjectError("Scroll error"));
      }
    }
    ghost var t1 := host.trace;
    if dx != 0 {
      ok := host.Inject(Scroll(WrapI32(-(dx as int)), Enigo.Horizontal));
      NoFailureChain(host.failAt, t0, t1, host.trace);
      if !ok {
        return Err(InjectError("Scroll error"));
      }
    }
    r := Ok(());
  }

  /**
   * The `match` of `execute_event`: the injector calls of one event, in order,
   * stopping at the first that fails.
   */
  method Dispatch(host: Host, e: ScriptEvent, usePos: bool) returns (r: Result<(), Failure>)
    modifies host`trace, host`late
    ensures old(host.trace) <= host.trace
    ensures Outcome(Actions(e, usePos), host.trace[|old(host.trace)|..], r)
    ensures NoFailure(host.failAt, old(host.trace), host.trace)
    ensures r.Err? ==> host.NextCallFails()
    ensures !host.StopDue() ==> host.late == old(host.late)
  {
    match e
    case KeyPress(k, _) => r := InjectKey(host, k, Enigo.Press);
    case KeyRelease(k, _) => r := InjectKey(host, k, Enigo.Release);
    case MousePress(b, x, y, _) => r := InjectButton(host, b, x, y, Enigo.Press, usePos);
    case MouseRelease(b, x, y, _) => r := InjectButton(host, b, x, y, Enigo.Release, usePos);
    case MouseMove(x, y, _) => r := InjectMove(host, x, y);
    case MouseScroll(dx, dy, _) => r := InjectScroll(host, dx, dy);
  }

  /** Injector calls that all succeeded after a full wait give the event's whole trace. */
  lemma EventComplete(t0: seq<Output>, wait: seq<Output>, acts: seq<Output>, t: seq<Output>)
    requires t0 + wait <= t && t[|t0 + wait|..] == acts
    ensures t == t0 + (wait + acts)
  {
    assert t == t0 + wait + acts;
  }

  /** Injector calls that ended at a failing one after a full wait: a cut in the event's trace. */
  lemma EventCut(t0: seq<Output>, wait: seq<Output>, acts: seq<Output>, t: seq<Output>, f: Failure)
    requires t0 + wait <= t && |t| - |t0 + wait| < |acts| && t[|t0 + wait|..] <= acts
    requires !acts[|t| - |t0 + wait|].Sleep? && f == InjectError(ErrorContext(acts[|t| - |t0 + wait|]))
    ensures CutAt(t0, t, wait + acts, f)
  {
    CutChain(t0, wait, t, acts, f);
  }

  /**
   * `execute_event`: the interruptible wait for the event's delay scaled by the
   * speed, a last look at the stop flag, then the event's injector calls.
   */
  method ExecuteEvent(host: Host, player: PlaybackState, e: ScriptEvent, speed: real, usePos: bool)
    returns (r: Result<(), Failure>)
    modifies host`trace, host`clock, host`late, player`stopRequested, player`isPlaying
    ensures Extends(old(host.trace), host.trace, EventTrace(e, speed, usePos))
    ensures r.Ok? ==> host.trace == old(host.trace) + EventTrace(e, speed, usePos)
    ensures NoFailure(host.failAt, old(host.trace), host.trace)
    ensures r.Err? && r.error.InjectError? ==>
              host.NextCallFails() && CutAt(old(host.trace), host.trace, EventTrace(e, speed, usePos), r.error)
    ensures r.Err? ==> r.error.Stopped? || r.error.InjectError?
    ensures player.stopRequested == (old(player.stopRequested) || r == Err(Stopped))
    ensures old(player.stopRequested) ==> r == Err(Stopped) && host.trace == old(host.trace)
    ensures host.stopAt.None? && !old(player.stopRequested) ==> r != Err(Stopped)
    ensures host.stopAt.None? && host.failAt.None? && !old(player.stopRequested) ==> r.Ok?
    ensures host.late == old(host.late)
  {
    ghost var t0 := host.trace;
    var delay := PlaybackDelay(e.delayMs, speed);
    PrefixExtend(Chunks(delay), Chunks(delay), Actions(e, usePos));
    if delay > 0 {
      var stopped := WaitDelay(host, player, delay);
      if stopped {
        ExtendsWiden(t0, host.trace, Chunks(delay), EventTrace(e, speed, usePos));
        return Err(Stopped);
      }
    } else {
      assert Chunks(delay) == [];
      assert host.trace == t0 + Chunks(delay);
    }
    host.Poll(player);
    var stop := player.ShouldStop();
    if stop {
      ExtendsBy(t0, Chunks(delay), EventTrace(e, speed, usePos));
      return Err(Stopped);
    }
    ghost var t1 := host.trace;
    r := Dispatch(host, e, usePos);
    NoFailureChain(host.failAt, t0, t1, host.trace);
    ExtendsChain(t0, Chunks(delay), host.trace, Actions(e, usePos));
    if r.Ok? {
      EventComplete(t0, Chunks(delay), Actions(e, usePos), host.trace);
    } else {
      EventCut(t0, Chunks(delay), Actions(e, usePos), host.trace, r.error);
    }
  }

  // ---------------------------------------------------------------------------
  // The worker thread
  // ---------------------------------------------------------------------------

  /** How the `for` loop over a script's events ended. */
  datatype PassEnd = Completed | StopSeen | Failed(failure: Failure)

  /** Part of the next piece after whole pieces is part of the whole list's trace. */
  lemma PassPartial(t0: seq<Output>, ts: seq<seq<Output>>, i: nat, t: seq<Output>)
    requires i < |ts| && Extends(t0 + Concat(ts[..i]), t, ts[i])
    ensures Extends(t0, t, Concat(ts))
  {
    ExtendsChain(t0, Concat(ts[..i]), t, ts[i]);
    ConcatSnoc(ts, i);
    ConcatTake(ts, i + 1);
  }

  /** A cut in the next piece after whole pieces is a cut in the whole list's trace. */
  lemma PassCut(t0: seq<Output>, ts: seq<seq<Output>>, i: nat, t: seq<Output>, f: Failure)
    requires i < |ts| && CutAt(t0 + Concat(ts[..i]), t, ts[i], f)
    ensures CutAt(t0, t, Concat(ts), f)
  {
    CutChain(t0, Concat(ts[..i]), t, ts[i], f);
    ConcatSnoc(ts, i);
    ConcatTake(ts, i + 1);
    CutWiden(t0, t, Concat(ts[..i + 1]), Concat(ts), f);
  }

  /** The whole next piece after whole pieces: one more whole piece. */
  lemma PassStep(t0: seq<Output>, ts: seq<seq<Output>>, i: nat, t: seq<Output>)
    requires i < |ts| && t == t0 + Concat(ts[..i]) + ts[i]
    ensures t == t0 + Concat(ts[..i + 1])
    ensures Extends(t0, t, Concat(ts))
  {
    ConcatSnoc(ts, i);
    AppendAssoc(t0, Concat(ts[..i]), ts[i]);
    ConcatTake(ts, i + 1);
    ExtendsBy(t0, Concat(ts[..i + 1]), Concat(ts));
  }

  /**
   * The `for` loop of the worker: each event in turn, with its index
   * published; an event that fails ends the pass, and so does a stop request
   * seen after an event.
   */
  method RunPass(host: Host, player: PlaybackState, job: Job, usePos: bool) returns (end: PassEnd)
    requires !player.stopRequested
    modifies host`trace, host`clock, host`late, player`stopRequested, player`isPlaying, player`currentEvent
    ensures Extends(old(host.trace), host.trace, PassTrace(job.events, job.speed, usePos))
    ensures end == Completed ==> host.trace == old(host.trace) + PassTrace(job.events, job.speed, usePos)
    ensures end == Completed <==> !player.stopRequested && !end.Failed?
    ensures NoFailure(host.failAt, old(host.trace), host.trace)
    ensures end.Failed? && end.failure.InjectError? ==>
              host.NextCallFails() && CutAt(old(host.trace), host.trace, PassTrace(job.events, job.speed, usePos), end.failure)
    ensures end.Failed? ==> end.failure.Stopped? || end.failure.InjectError?
    ensures host.stopAt.None? ==> !player.stopRequested && end != Failed(Stopped)
    ensures host.stopAt.None? && host.failAt.None? ==> end == Completed
    ensures host.late == old(host.late)
  {
    ghost var t0 := host.trace;
    ghost var ts := EventTraces(job.events, job.speed, usePos);
    var i := 0;
    while i < |job.events|
      invariant i <= |job.events|
      invariant host.trace == t0 + Concat(ts[..i])
      invariant NoFailure(host.failAt, t0, host.trace)
      invariant !player.stopRequested
      invariant host.late == old(host.late)
    {
      player.SetEventIndex(i);
      ghost var t1 := host.trace;
      var r := ExecuteEvent(host, player, job.events[i], job.speed, usePos);
      NoFailureChain(host.failAt, t0, t1, host.trace);
      if r.Err? {
        PassPartial(t0, ts, i, host.trace);
        if r.error.InjectError? {
          PassCut(t0, ts, i, host.trace, r.error);
        }
        return Failed(r.error);
      }
      PassStep(t0, ts, i, host.trace);
      host.Poll(player);
      var stop := player.ShouldStop();
      if stop {
        return StopSeen;
      }
      i := i + 1;
    }
    assert ts[..i] == ts;
    ExtendsBy(t0, Concat(ts), Concat(ts));
    end := Completed;
  }

  /**
   * One iteration of the worker's loop once the checks at its head have
   * passed: a pass over the events, then, unless a stop has been requested,
   * the pause between loops.
   */
  method RunIteration(host: Host, player: PlaybackState, job: Job, usePos: bool) returns (end: PassEnd)
    requires !player.stopRequested && usePos == HasMouseMoves(job.events)
    modifies host`trace, host`clock, host`late, player`stopRequested, player`isPlaying, player`currentEvent
    ensures Extends(old(host.trace), host.trace, IterTrace(job))
    ensures !end.Failed? && !player.stopRequested ==> host.trace == old(host.trace) + IterTrace(job)
    ensures NoFailure(host.failAt, old(host.trace), host.trace)
    ensures end.Failed? && end.failure.InjectError? ==>
              host.NextCallFails() && CutAt(old(host.trace), host.trace, IterTrace(job), end.failure)
    ensures end.Failed? ==> end.failure.Stopped? || end.failure.InjectError?
    ensures host.stopAt.None? ==> !player.stopRequested && end != Failed(Stopped)
    ensures host.stopAt.None? && host.failAt.None? ==> !end.Failed?
    ensures host.late == old(host.late)
  {
    ghost var t0 := host.trace;
    ghost var pass := PassTrace(job.events, job.speed, usePos);
    ghost var pause := if job.loopConfig.delayBetweenMs > 0 then [Output.Sleep(job.loopConfig.delayBetweenMs)] else [];
    assert IterTrace(job) == pass + pause;
    end := RunPass(host, player, job, usePos);
    PrefixExtend(pass, pass, pause);
    if end.Failed? {
      ExtendsWiden(t0, host.trace, pass, IterTrace(job));
      if end.failure.InjectError? {
        CutWiden(t0, host.trace, pass, IterTrace(job), end.failure);
      }
      return;
    }
    if job.loopConfig.delayBetweenMs > 0 {
      host.Poll(player);
      var stop := player.ShouldStop();
      if !stop {
        ghost var t1 := host.trace;
        host.Sleep(job.loopConfig.delayBetweenMs);
        NoFailureChain(host.failAt, t0, t1, host.trace);
        AppendAssoc(t0, pass, pause);
        ExtendsBy(t0, pass + pause, IterTrace(job));
        return;
      }
    }
    ExtendsWiden(t0, host.trace, pass, IterTrace(job));
    if !player.stopRequested {
      assert pause == [];
      assert host.trace == t0 + IterTrace(job);
    }
  }

  /** Part of one more iteration after whole iterations is part of more iterations. */
  lemma IterPartial(t0: seq<Output>, it: seq<Output>, n: nat, bound: nat, t: seq<Output>)
    requires n < bound && Extends(t0 + Repeat(it, n), t, it)
    ensures Extends(t0, t, Repeat(it, bound))
  {
    ExtendsChain(t0, Repeat(it, n), t, it);
    RepeatPrefix(it, n + 1, bound);
  }

  /** A cut in one more iteration after whole iterations is a cut in more iterations. */
  lemma IterCut(t0: seq<Output>, it: seq<Output>, n: nat, bound: nat, t: seq<Output>, f: Failure)
    requires n < bound && CutAt(t0 + Repeat(it, n), t, it, f)
    ensures CutAt(t0, t, Repeat(it, bound), f)
  {
    CutChain(t0, Repeat(it, n), t, it, f);
    RepeatPrefix(it, n + 1, bound);
    CutWiden(t0, t, Repeat(it, n) + it, Repeat(it, bound), f);
  }

  /** One more whole iteration after whole iterations. */
  lemma IterStep(t0: seq<Output>, it: seq<Output>, n: nat, t: seq<Output>)
    requires t == t0 + Repeat(it, n) + it
    ensures t == t0 + Repeat(it, n + 1)
  {
    AppendAssoc(t0, Repeat(it, n), it);
  }

  /**
   * The trace of a whole run: as many iterations as the loop count, or `fuel`
   * of them when the count is 0.
   */
  function RunTrace(job: Job, fuel: nat): seq<Output> {
    Repeat(IterTrace(job), if job.loopConfig.count == 0 then fuel else job.loopConfig.count)
  }

  /**
   * The loop of the worker once the injector exists: passes until the loop
   * count is reached or a stop is requested, pausing between passes; an
   * event whose injection fails ends the run. The source's loop never ends
   * when the count is 0 and nothing stops it; here the passes of that case
   * are bounded by `fuel`, and `outOfFuel` says the bound was reached while
   * the source would have gone on.
   */
  method RunLoops(host: Host, player: PlaybackState, job: Job, fuel: nat)
    returns (outOfFuel: bool, failure: Option<Failure>)
    requires player.currentLoop == 0 && !player.stopRequested
    modifies host`trace, host`clock, host`late, player
    ensures Extends(old(host.trace), host.trace, RunTrace(job, fuel))
    ensures host.late == old(host.late)
    ensures !outOfFuel ==> !player.isPlaying
    ensures outOfFuel ==> job.loopConfig.count == 0 && !player.stopRequested && failure.None?
    ensures failure.Some? ==> failure.value.Stopped? || failure.value.InjectError?
    ensures NoFailure(host.failAt, old(host.trace), host.trace)
    ensures failure.Some? && failure.value.InjectError? ==>
              host.NextCallFails() && CutAt(old(host.trace), host.trace, RunTrace(job, fuel), failure.value)
    ensures host.stopAt.None? ==> failure != Some(Stopped)
    ensures host.stopAt.None? && failure.None? && job.loopConfig.count > 0 ==>
              !outOfFuel && player.currentLoop == job.loopConfig.count + 1 &&
              host.trace == old(host.trace) + RunTrace(job, fuel)
    ensures host.stopAt.None? && failure.None? && job.loopConfig.count == 0 ==>
              outOfFuel && host.trace == old(host.trace) + RunTrace(job, fuel)
  {
    var loopCount := job.loopConfig.count;
    var isInfinite := loopCount == 0;
    ghost var bound := if isInfinite then fuel else loopCount;
    ghost var t0 := host.trace;
    ghost var it := IterTrace(job);
    assert RunTrace(job, fuel) == Repeat(it, bound);
    ExtendsBy(t0, [], Repeat(it, bound));
    var usePos := HasMouseMoves(job.events);
    var passes: nat := 0;
    outOfFuel, failure := false, None;
    while true
      invariant player.currentLoop == passes && passes <= bound
      invariant Extends(t0, host.trace, Repeat(it, bound))
      invariant !player.stopRequested ==> host.trace == t0 + Repeat(it, passes)
      invariant NoFailure(host.failAt, t0, host.trace)
      invariant host.stopAt.None? ==> !player.stopRequested
      invariant host.late == old(host.late)
      invariant !outOfFuel && failure.None?
      decreases bound - passes
    {
      var iteration := player.IncrementLoop();
      if !isInfinite && iteration > loopCount {
        break;
      }
      host.Poll(player);
      var stop := player.ShouldStop();
      if stop {
        break;
      }
      if isInfinite && passes == fuel {
        outOfFuel := true;
        break;
      }
      ghost var t1 := host.trace;
      var end := RunIteration(host, player, job, usePos);
      NoFailureChain(host.failAt, t0, t1, host.trace);
      IterPartial(t0, it, passes, bound, host.trace);
      if end.Failed? {
        if end.failure.InjectError? {
          IterCut(t0, it, passes, bound, host.trace, end.failure);
        }
        failure := Some(end.failure);
        break;
      }
      if !player.stopRequested {
        IterStep(t0, it, passes, host.trace);
      }
      passes := passes + 1;
    }
    if !outOfFuel {
      player.Finish();
    }
  }

  /**
   * The body of the worker: create the injector, then run the loop. An
   * injector that cannot be created ends the run at once; `failure` says
   * what ended a run that failed.
   */
  method PlaybackWorker(host: Host, player: PlaybackState, job: Job, fuel: nat)
    returns (outOfFuel: bool, failure: Option<Failure>)
    requires player.currentLoop == 0 && !player.stopRequested
    modifies host`trace, host`clock, host`late, player
    ensures Extends(old(host.trace), host.trace, RunTrace(job, fuel))
    ensures host.late == old(host.late)
    ensures !outOfFuel ==> !player.isPlaying
    ensures outOfFuel ==> job.loopConfig.count == 0 && !player.stopRequested && failure.None?
    ensures host.initFails <==> failure == Some(InitFailed)
    ensures host.initFails ==> !outOfFuel && host.trace == old(host.trace)
    // Every injector call made succeeded, except a failing one, which ends the run.
    ensures NoFailure(host.failAt, old(host.trace), host.trace)
    ensures failure.Some? && failure.value.InjectError? ==>
              host.NextCallFails() && CutAt(old(host.trace), host.trace, RunTrace(job, fuel), failure.value)
    ensures host.stopAt.None? ==> failure != Some(Stopped)
    ensures host.stopAt.None? && failure.None? && job.loopConfig.count > 0 ==>
              !outOfFuel && player.currentLoop == job.loopConfig.count + 1 &&
              host.trace == old(host.trace) + RunTrace(job, fuel)
    ensures host.stopAt.None? && failure.None? && job.loopConfig.count == 0 ==>
              outOfFuel && host.trace == old(host.trace) + RunTrace(job, fuel)
    ensures host.Clean() ==> failure.None?
  {
    if host.initFails {
      player.Finish();
      ExtendsBy(host.trace, [], RunTrace(job, fuel));
      assert host.trace == old(host.trace) + [];
      return false, Some(InitFailed);
    }
    outOfFuel, failure := RunLoops(host, player, job, fuel);
  }

  // ---------------------------------------------------------------------------
  // Entry points
  // ---------------------------------------------------------------------------

  /**
   * `play_script`: refused while playing and for a script without events,
   * with the state untouched; otherwise the state is started and the job
   * handed to the spawned worker is returned. The worker runs that job as
   * `PlaybackWorker`; its concurrency with the caller is not modelled.
   */
  method PlayScript(player: PlaybackState, script: Script) returns (r: Result<Job, string>)
    modifies player
    ensures old(player.isPlaying) ==> r == Err("Already playing")
    ensures !old(player.isPlaying) && script.events == [] ==> r == Err("Script has no events")
    ensures r.Ok? <==> !old(player.isPlaying) && script.events != []
    ensures r.Err? ==> unchanged(player)
    ensures r.Ok? ==> r.value == Job(script.events, script.loopConfig, script.speedMultiplier)
    ensures r.Ok? ==> player.isPlaying && !player.stopRequested && player.currentLoop == 0 && player.currentEvent == 0
  {
    var playing := player.IsPlaying();
    if playing {
      return Err("Already playing");
    }
    if |script.events| == 0 {
      return Err("Script has no events");
    }
    player.Start();
    r := Ok(Job(script.events, script.loopConfig, script.speedMultiplier));
  }

  /** `play_events`: the events played once at the given speed, as a default script. */
  method PlayEvents(player: PlaybackState, events: seq<ScriptEvent>, speed: real) returns (r: Result<Job, string>)
    modifies player
    ensures old(player.isPlaying) ==> r == Err("Already playing")
    ensures !old(player.isPlaying) && events == [] ==> r == Err("Script has no events")
    ensures r.Ok? <==> !old(player.isPlaying) && events != []
    ensures r.Err? ==> unchanged(player)
    ensures r.Ok? ==> r.value == Job(events, DefaultLoopConfig, speed)
    ensures r.Ok? ==> player.isPlaying && !player.stopRequested && player.currentLoop == 0
  {
    var script := new Script.Default();
    script.events := events;
    script.speedMultiplier := speed;
    r := PlayScript(player, script);
  }

  /** `stop_playback`. */
  method StopPlayback(player: PlaybackState)
    modifies player`stopRequested, player`isPlaying
    ensures player.stopRequested && !player.isPlaying
  {
    player.Stop();
  }
}
