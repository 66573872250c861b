/**
 * macro_trigger.rs: the macro registry, a map from trigger identifiers to
 * macro definitions, with the listener flag that gates macro dispatch.
 */
module Macros {
  import opened Wrappers
  import opened Scripts
  import Player

  // ---------------------------------------------------------------------------
  // Trigger identifiers
  // ---------------------------------------------------------------------------

  /**
   * One character as the derived `Debug` output writes it inside a literal
   * delimited by `quote`: the backslash, the delimiter, NUL, tab, carriage
   * return and line feed are escaped with a backslash, the rest is kept.
   */
  function EscapeChar(c: char, quote: char): (r: string)
    ensures |r| == 1 || |r| == 2
    ensures |r| == 2 <==> r[0] == '\\'
  {
    if c == '\\' then "\\\\"
    else if c == quote then ['\\', quote]
    else if c == '\0' then "\\0"
    else if c == '\t' then "\\t"
    else if c == '\r' then "\\r"
    else if c == '\n' then "\\n"
    else [c]
  }

  /** Two characters with the same escape are the same character. */
  lemma EscapeCharInjective(c1: char, c2: char, quote: char)
    requires quote == '\'' || quote == '"'
    requires EscapeChar(c1, quote) == EscapeChar(c2, quote)
    ensures c1 == c2
  {
  }

  /** A string's contents as `Debug` writes them between double quotes. */
  function EscapeStr(s: string): (r: string)
    ensures |r| >= |s|
  {
    if s == [] then "" else EscapeChar(s[0], '"') + EscapeStr(s[1..])
  }

  /** The escaping of strings loses nothing: the escapes form a prefix code. */
  lemma {:induction false} EscapeStrInjective(s1: string, s2: string)
    requires EscapeStr(s1) == EscapeStr(s2)
    ensures s1 == s2
    decreases |s1|
  {
    if s1 != [] && s2 != [] {
      var e := EscapeStr(s1);
      var a1, a2 := EscapeChar(s1[0], '"'), EscapeChar(s2[0], '"');
      assert e == a1 + EscapeStr(s1[1..]) == a2 + EscapeStr(s2[1..]);
      assert a1[0] == e[0] == a2[0];
      assert a1 == e[..|a1|] == a2;
      EscapeCharInjective(s1[0], s2[0], '"');
      assert EscapeStr(s1[1..]) == e[|a1|..] == EscapeStr(s2[1..]);
      EscapeStrInjective(s1[1..], s2[1..]);
      assert s1 == [s1[0]] + s1[1..];
      assert s2 == [s2[0]] + s2[1..];
    }
  }

  /** `{:?}` of a `KeyboardKey`: `Char('a')` or `Special("F1")`. */
  function KeyDebug(k: KeyboardKey): string {
    match k
    case Char(c) => "Char('" + EscapeChar(c, '\'') + "')"
    case Special(s) => "Special(\"" + EscapeStr(s) + "\")"
  }

  /** `{:?}` of a `MouseButton`: the variant's name. */
  function ButtonDebug(b: MouseButton): string {
    match b
    case Left => "Left"
    case Right => "Right"
    case Middle => "Middle"
    case Back => "Back"
    case Forward => "Forward"
    case Unknown => "Unknown"
  }

  /** `get_trigger_id`: `key:` or `mouse:` followed by the `Debug` text of the key or button. */
  function TriggerId(t: MacroTrigger): (r: string)
    ensures t.KeyPress? ==> |r| > 4 && r[..4] == "key:"
    ensures t.MousePress? ==> |r| > 6 && r[..6] == "mouse:"
  {
    match t
    case KeyPress(k) => "key:" + KeyDebug(k)
    case MousePress(b) => "mouse:" + ButtonDebug(b)
  }

  /** Removing the same text from both ends of two equal strings leaves equal strings. */
  lemma Unwrap(a: string, x: string, y: string, b: string)
    requires a + x + b == a + y + b
    ensures x == y
  {
    var w := a + x + b;
    assert |x| == |y|;
    assert x == w[|a|..|a| + |x|];
    assert y == (a + y + b)[|a|..|a| + |y|];
  }

  /** Two keys with the same `Debug` text are the same key. */
  lemma KeyDebugInjective(k1: KeyboardKey, k2: KeyboardKey)
    requires KeyDebug(k1) == KeyDebug(k2)
    ensures k1 == k2
  {
    match k1
    case Char(c1) =>
      if k2.Char? {
        Unwrap("Char('", EscapeChar(c1, '\''), EscapeChar(k2.c, '\''), "')");
        EscapeCharInjective(c1, k2.c, '\'');
      }
    case Special(s1) =>
      if k2.Special? {
        Unwrap("Special(\"", EscapeStr(s1), EscapeStr(k2.name), "\")");
        EscapeStrInjective(s1, k2.name);
      }
  }

  /** Key triggers and mouse triggers never share an identifier, and equal identifiers mean equal triggers. */
  lemma TriggerIdInjective(t1: MacroTrigger, t2: MacroTrigger)
    ensures TriggerId(t1) == TriggerId(t2) <==> t1 == t2
  {
    if TriggerId(t1) == TriggerId(t2) {
      match t1
      case KeyPress(k1) =>
        if t2.KeyPress? {
          Unwrap("key:", KeyDebug(k1), KeyDebug(t2.key), "");
          KeyDebugInjective(k1, t2.key);
        }
      case MousePress(b1) =>
        if t2.MousePress? {
          Unwrap("mouse:", ButtonDebug(b1), ButtonDebug(t2.button), "");
        }
    }
  }

  // ---------------------------------------------------------------------------
  // The registry as a map
  // ---------------------------------------------------------------------------

  /** Every macro is stored under its own trigger's identifier. */
  predicate WellKeyed(macros: map<string, MacroDefinition>) {
    forall k | k in macros :: k == TriggerId(macros[k].trigger)
  }

  /** The entry under a trigger's identifier. */
  function Lookup(macros: map<string, MacroDefinition>, t: MacroTrigger): Option<MacroDefinition> {
    var id := TriggerId(t);
    if id in macros then Some(macros[id]) else None
  }

  /** The registry after `insert` of a macro under its trigger's identifier. */
  function Insert(macros: map<string, MacroDefinition>, m: MacroDefinition): map<string, MacroDefinition> {
    macros[TriggerId(m.trigger) := m]
  }

  /** The registry after `retain` of the macros whose id differs from `id`. */
  function RemoveId(macros: map<string, MacroDefinition>, id: string): map<string, MacroDefinition> {
    map k | k in macros && macros[k].id != id :: macros[k]
  }

  /** In a well-keyed registry the lookup of a trigger finds the macro for that trigger, and only it. */
  lemma LookupFinds(macros: map<string, MacroDefinition>, t: MacroTrigger)
    requires WellKeyed(macros)
    ensures Lookup(macros, t).Some? ==> Lookup(macros, t).value.trigger == t
    ensures Lookup(macros, t).Some? <==> exists k | k in macros :: macros[k].trigger == t
  {
    var id := TriggerId(t);
    if id in macros {
      TriggerIdInjective(macros[id].trigger, t);
    }
  }

  /**
   * Adding a macro keeps the registry well keyed, makes it the one macro for
   * its trigger, and leaves the lookup of every other trigger as it was.
   */
  lemma InsertSpec(macros: map<string, MacroDefinition>, m: MacroDefinition, t: MacroTrigger)
    requires WellKeyed(macros)
    ensures WellKeyed(Insert(macros, m))
    ensures Lookup(Insert(macros, m), m.trigger) == Some(m)
    ensures t != m.trigger ==> Lookup(Insert(macros, m), t) == Lookup(macros, t)
    ensures forall k | k in Insert(macros, m) :: Insert(macros, m)[k].trigger == m.trigger ==> Insert(macros, m)[k] == m
  {
    TriggerIdInjective(t, m.trigger);
  }

  /**
   * Removing by id drops every macro with that id and keeps every other
   * macro under its key; the registry stays well keyed.
   */
  lemma RemoveIdSpec(macros: map<string, MacroDefinition>, id: string)
    ensures forall k | k in RemoveId(macros, id) :: RemoveId(macros, id)[k].id != id
    ensures forall k | k in macros && macros[k].id != id :: k in RemoveId(macros, id) && RemoveId(macros, id)[k] == macros[k]
    ensures RemoveId(macros, id).Keys <= macros.Keys
    ensures WellKeyed(macros) ==> WellKeyed(RemoveId(macros, id))
  {
  }

  /** The macro under `k` with its `enabled` flag set to `enabled`. */
  function WithEnabled(macros: map<string, MacroDefinition>, k: string, enabled: bool): MacroDefinition
    requires k in macros
  {
    macros[k].(enabled := enabled)
  }

  /** Re-adding a stored macro with a new flag changes that flag and nothing else. */
  lemma {:induction false} ToggleSpec(macros: map<string, MacroDefinition>, k: string, enabled: bool)
    requires WellKeyed(macros) && k in macros
    ensures Insert(macros, WithEnabled(macros, k, enabled)) == macros[k := WithEnabled(macros, k, enabled)]
    ensures WellKeyed(Insert(macros, WithEnabled(macros, k, enabled)))
  {
    var m := WithEnabled(macros, k, enabled);
    assert TriggerId(m.trigger) == k;
    InsertSpec(macros, m, m.trigger);
  }

  /** Whether `check_and_execute` plays something for a trigger. */
  predicate Fires(active: bool, macros: map<string, MacroDefinition>, t: MacroTrigger) {
    active && Lookup(macros, t).Some? && Lookup(macros, t).value.enabled && Lookup(macros, t).value.events != []
  }

  /** A trigger fires exactly when the listener is on and an enabled macro with events is bound to it. */
  lemma FiresMeans(active: bool, macros: map<string, MacroDefinition>, t: MacroTrigger)
    requires WellKeyed(macros)
    ensures Fires(active, macros, t) <==>
              active && exists k | k in macros :: macros[k].trigger == t && macros[k].enabled && macros[k].events != []
  {
    LookupFinds(macros, t);
    if exists k | k in macros :: macros[k].trigger == t && macros[k].enabled && macros[k].events != [] {
      var k :| k in macros && macros[k].trigger == t && macros[k].enabled && macros[k].events != [];
      assert k == TriggerId(t);
    }
  }

  // ---------------------------------------------------------------------------
  // MacroState
  // ---------------------------------------------------------------------------

  /** `MacroState`: the listener flag and the registry. */
  class MacroState {
    var isActive: bool
    var macros: map<string, MacroDefinition>

    /** Each macro sits under its trigger's identifier. */
    predicate Valid()
      reads this
    {
      WellKeyed(macros)
    }

    /** `MacroState::new`: inactive and empty. */
    constructor ()
      ensures !isActive && macros == map[] && Valid()
    {
      isActive := false;
      macros := map[];
    }

    /** `is_active`. */
    method IsActive() returns (b: bool)
      ensures b == isActive
    {
      b := isActive;
    }

    /** `set_active`. */
    method SetActive(active: bool)
      modifies this`isActive
      ensures isActive == active
    {
      isActive := active;
    }

    /** `add_macro`: stored under its trigger's identifier, replacing the macro bound to that trigger. */
    method AddMacro(m: MacroDefinition)
      modifies this`macros
      ensures macros == Insert(old(macros), m)
      ensures old(Valid()) ==> Valid() && Lookup(macros, m.trigger) == Some(m)
    {
      if Valid() {
        InsertSpec(macros, m, m.trigger);
      }
      macros := macros[TriggerId(m.trigger) := m];
    }

    /** `remove_macro`: every macro with this id goes, the others stay. */
    method RemoveMacro(id: string)
      modifies this`macros
      ensures macros == RemoveId(old(macros), id)
      ensures old(Valid()) ==> Valid()
    {
      RemoveIdSpec(macros, id);
      macros := map k | k in macros && macros[k].id != id :: macros[k];
    }

    /** `get_all_macros`: the stored macros, as a set since the map's order is not modelled. */
    method GetAllMacros() returns (all: set<MacroDefinition>)
      ensures all == macros.Values
    {
      all := macros.Values;
    }

    /** `find_by_trigger`: the macro stored under the trigger's identifier. */
    method FindByTrigger(t: MacroTrigger) returns (r: Option<MacroDefinition>)
      ensures r == Lookup(macros, t)
      ensures Valid() && r.Some? ==> r.value.trigger == t
    {
      var id := TriggerId(t);
      if Valid() {
        LookupFinds(macros, t);
      }
      r := if id in macros then Some(macros[id]) else None;
    }

    /**
     * `check_and_execute`: when the listener is on and an enabled macro with
     * events is bound to the trigger, its events are handed to `play_events`
     * at speed 1.0 and the answer is true; otherwise nothing happens and the
     * answer is false. `job` is the playback `play_events` hands to its worker
     * thread, if it accepted the events: the macro's events, played once, at
     * speed 1.0. When something is already playing, `play_events` refuses and
     * the refusal is dropped.
     */
    method CheckAndExecute(t: MacroTrigger, player: Player.PlaybackState) returns (fired: bool, job: Option<Player.Job>)
      modifies player
      ensures fired == Fires(isActive, macros, t)
      ensures !fired ==> unchanged(player)
      ensures fired && !old(player.isPlaying) ==>
                player.isPlaying && !player.stopRequested && player.currentLoop == 0 &&
                job == Some(Player.Job(Lookup(macros, t).value.events, DefaultLoopConfig, 1.0))
      ensures fired && old(player.isPlaying) ==> unchanged(player)
      ensures !(fired && !old(player.isPlaying)) ==> job.None?
    {
      var active := IsActive();
      if !active {
        return false, None;
      }
      var found := FindByTrigger(t);
      if found.Some? && found.value.enabled && found.value.events != [] {
        var events := found.value.events;
        var r := Player.PlayEvents(player, events, 1.0);
        job := if r.Ok? then Some(r.value) else None;
        return true, job;
      }
      fired, job := false, None;
    }
  }

  /** `start_macro_listener`: the listener is on; it always succeeds. */
  method StartMacroListener(state: MacroState) returns (r: Result<(), string>)
    modifies state`isActive
    ensures state.isActive && r.Ok?
  {
    state.SetActive(true);
    r := Ok(());
  }

  /** `stop_macro_listener`: the listener is off. */
  method StopMacroListener(state: MacroState)
    modifies state`isActive
    ensures !state.isActive
  {
    state.SetActive(false);
  }

  /**
   * `toggle_macro`: some macro with this id, if any, is re-added with its
   * flag set to `enabled`. Which one is found when several share the id
   * depends on the map's order, so the choice is left open.
   */
  method ToggleMacro(state: MacroState, id: string, enabled: bool)
    modifies state`macros
    ensures (forall k | k in old(state.macros) :: old(state.macros)[k].id != id) ==>
              state.macros == old(state.macros)
    ensures (exists k | k in old(state.macros) :: old(state.macros)[k].id == id) ==>
              exists k | k in old(state.macros) && old(state.macros)[k].id == id ::
                state.macros == Insert(old(state.macros), WithEnabled(old(state.macros), k, enabled))
    ensures old(state.Valid()) ==> state.Valid()
  {
    if k :| k in state.macros && state.macros[k].id == id {
      var updated := WithEnabled(state.macros, k, enabled);
      if state.Valid() {
        ToggleSpec(state.macros, k, enabled);
      }
      state.AddMacro(updated);
    }
  }

  /** `create_simple_macro`: an enabled macro with the given parts; the time-based id is a parameter. */
  function CreateSimpleMacro(id: string, name: string, trigger: MacroTrigger, events: seq<ScriptEvent>): (m: MacroDefinition)
    ensures m.enabled && m.id == id && m.name == name && m.trigger == trigger && m.events == events
  {
    MacroDefinition(id, name, trigger, events, true)
  }

  /** A newly created macro, once added, is what its trigger finds, and it fires while the listener is on. */
  lemma {:induction false} SimpleMacroRegistered(macros: map<string, MacroDefinition>, id: string, name: string,
                                                 trigger: MacroTrigger, events: seq<ScriptEvent>)
    requires WellKeyed(macros)
    ensures Lookup(Insert(macros, CreateSimpleMacro(id, name, trigger, events)), trigger) ==
              Some(CreateSimpleMacro(id, name, trigger, events))
    ensures Fires(true, Insert(macros, CreateSimpleMacro(id, name, trigger, events)), trigger) <==> events != []
  {
    var m := CreateSimpleMacro(id, name, trigger, events);
    InsertSpec(macros, m, trigger);
  }
}
