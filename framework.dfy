/** The widget framework the player's screen is built from: style lookup,
    pygame's rectangles and input events, the event registry that carries
    commands from widgets to their handlers, and the keystroke- and
    mouse-level state of buttons, text boxes and sliders. Drawing is not
    modelled. */
module UiFramework {
  import opened Values

  // ---------------------------------------------------------------- styles

  /** A style sheet: widget type -> state -> style (a JSON value). */
  datatype StyleManager = StyleManager(styles: map<string, map<string, Value>>)
  {
    /** `get_style(widget_type, state)`: the style filed under both keys, an
        empty dict when either key is missing. */
    function GetStyle(widgetType: string, state: string): (style: Value)
      ensures widgetType in styles && state in styles[widgetType] ==> style == styles[widgetType][state]
      ensures widgetType !in styles ==> style == VObj([])
      ensures widgetType in styles && state !in styles[widgetType] ==> style == VObj([])
    {
      var perState := if widgetType in styles then styles[widgetType] else map[];
      if state in perState then perState[state] else VObj([])
    }
  }

  // ------------------------------------------------------- pygame geometry

  datatype Point = Point(x: int, y: int)

  /** A pygame `Rect`; `Contains` is `collidepoint`, which excludes the right
      and bottom edges and holds for no point when a side is not positive. */
  datatype Rect = Rect(x: int, y: int, w: int, h: int)
  {
    predicate Contains(p: Point)
    {
      x <= p.x < x + w && y <= p.y < y + h
    }
  }

  /** The keys the widgets tell apart. */
  datatype Key = Backspace | Return | Escape | LShift | RShift | KeyV | Up | Down | Backquote | OtherKey(code: int)

  /** The pygame events the widgets and the main loop react to. `ctrl` is
      whether a Control modifier is held; `unicode` is the text the key
      produces. */
  datatype PgEvent =
    | KeyDown(key: Key, ctrl: bool, unicode: string)
    | KeyUp(key: Key)
    | MouseDown(button: int, pos: Point)
    | MouseUp(button: int, pos: Point)
    | MouseMotion(pos: Point)
    | MouseWheel(dy: int)
    | TrackEnd
    | Quit
    | OtherEvent

  // -------------------------------------------------------- event registry

  /** A registered callback, known by name; what it does is up to its owner. */
  datatype Handler = Handler(name: string)

  /** `Event(type, data)`: an event name and the keyword arguments handed to every handler. */
  datatype Event = Event(kind: string, data: map<string, Value>)

  /** One handler invocation `callback(**data)`. */
  datatype Call = Call(handler: Handler, data: map<string, Value>)

  /** The handlers registered for `kind`, in registration order. */
  function HandlersIn(registry: map<string, seq<Handler>>, kind: string): seq<Handler>
  {
    if kind in registry then registry[kind] else []
  }

  /** `register(kind, h)` on a registry value: a missing kind gets an empty
      list first, then `h` is appended. */
  function Registered(registry: map<string, seq<Handler>>, kind: string, h: Handler): (r: map<string, seq<Handler>>)
    ensures r.Keys == registry.Keys + {kind}
    ensures HandlersIn(r, kind) == HandlersIn(registry, kind) + [h]
    ensures forall other :: other != kind ==> HandlersIn(r, other) == HandlersIn(registry, other)
  {
    registry[kind := HandlersIn(registry, kind) + [h]]
  }

  /** A run of registrations, first to last. */
  function RegisterAll(registry: map<string, seq<Handler>>, regs: seq<(string, Handler)>): map<string, seq<Handler>>
    decreases |regs|
  {
    if regs == [] then registry
    else RegisterAll(Registered(registry, regs[0].0, regs[0].1), regs[1..])
  }

  /** The handlers in a run of registrations that were registered for `kind`, in order. */
  function RegisteredFor(regs: seq<(string, Handler)>, kind: string): seq<Handler>
    decreases |regs|
  {
    if regs == [] then []
    else (if regs[0].0 == kind then [regs[0].1] else []) + RegisteredFor(regs[1..], kind)
  }

  /** After any run of registrations, the handlers of each kind are the ones it
      had, followed by the new ones for that kind in registration order; kinds
      that were not registered keep exactly what they had. */
  lemma {:induction false} RegisterAllKeepsOrder(registry: map<string, seq<Handler>>, regs: seq<(string, Handler)>, kind: string)
    ensures HandlersIn(RegisterAll(registry, regs), kind) == HandlersIn(registry, kind) + RegisteredFor(regs, kind)
    decreases |regs|
  {
    if regs != [] {
      var next := Registered(registry, regs[0].0, regs[0].1);
      RegisterAllKeepsOrder(next, regs[1..], kind);
    }
  }

  /** The invocations `dispatch` makes for an event: one per handler, in order. */
  function Invocations(hs: seq<Handler>, data: map<string, Value>): (calls: seq<Call>)
    ensures |calls| == |hs|
    ensures forall i :: 0 <= i < |hs| ==> calls[i] == Call(hs[i], data)
  {
    seq(|hs|, i requires 0 <= i < |hs| => Call(hs[i], data))
  }

  /** How far a `dispatch` loop gets: the calls it made, and the exception
      that ended it, if one did. */
  datatype Dispatched = Dispatched(calls: seq<Call>, raised: Option<string>)

  /** The position of the first handler whose call raises, searching from
      `from`; `|hs|` when none does. */
  function FirstRaise(hs: seq<Handler>, data: map<string, Value>, run: Call -> Outcome, from: nat): (k: nat)
    requires from <= |hs|
    ensures from <= k <= |hs|
    ensures forall i :: from <= i < k ==> run(Call(hs[i], data)).Pass?
    ensures k < |hs| ==> run(Call(hs[k], data)).Fail?
    decreases |hs| - from
  {
    if from == |hs| || run(Call(hs[from], data)).Fail? then from
    else FirstRaise(hs, data, run, from + 1)
  }

  /** `dispatch` over the handlers `hs`, where `run` says whether each call
      returns or raises: the handlers are called in order, and the first call
      that raises ends the loop, its exception propagating to the caller. */
  function DispatchOf(hs: seq<Handler>, data: map<string, Value>, run: Call -> Outcome): (d: Dispatched)
    ensures |d.calls| <= |hs|
    ensures forall i :: 0 <= i < |d.calls| ==> d.calls[i] == Call(hs[i], data)
    ensures d.raised.None? <==> forall i :: 0 <= i < |hs| ==> run(Call(hs[i], data)).Pass?
    ensures d.raised.None? ==> |d.calls| == |hs|
    ensures d.raised.Some? ==>
      && |d.calls| > 0
      && run(d.calls[|d.calls| - 1]) == Fail(d.raised.value)
      && forall i :: 0 <= i < |d.calls| - 1 ==> run(d.calls[i]).Pass?
  {
    var k := FirstRaise(hs, data, run, 0);
    if k == |hs| then Dispatched(Invocations(hs, data), None)
    else Dispatched(Invocations(hs[..k + 1], data), Some(run(Call(hs[k], data)).reason))
  }

  /** When no handler raises, `dispatch` makes every call of `Invocations`. */
  lemma DispatchWithoutRaise(hs: seq<Handler>, data: map<string, Value>, run: Call -> Outcome)
    requires forall i :: 0 <= i < |hs| ==> run(Call(hs[i], data)).Pass?
    ensures DispatchOf(hs, data, run) == Dispatched(Invocations(hs, data), None)
  {
    var d := DispatchOf(hs, data, run);
    assert d.calls == Invocations(hs, data);
  }

  /** The pub/sub registry widgets publish their events on. */
  class UIEventRegistry {
    var registry: map<string, seq<Handler>>
    var eventQueue: seq<Event>

    constructor ()
      ensures registry == map[] && eventQueue == []
    {
      registry := map[];
      eventQueue := [];
    }

    function HandlersFor(kind: string): seq<Handler>
      reads this
    {
      HandlersIn(registry, kind)
    }

    method Register(kind: string, callback: Handler)
      modifies this
      ensures registry == Registered(old(registry), kind, callback)
      ensures eventQueue == old(eventQueue)
    {
      if kind !in registry {
        registry := registry[kind := []];
      }
      registry := registry[kind := registry[kind] + [callback]];
    }

    /** Runs the handlers registered for the event's kind in registration
        order, with the event's data, until one raises; `raised` is the
        exception that escapes. An unknown kind runs nothing. */
    method Dispatch(e: Event, run: Call -> Outcome) returns (calls: seq<Call>, raised: Option<string>)
      ensures Dispatched(calls, raised) == DispatchOf(HandlersFor(e.kind), e.data, run)
    {
      calls, raised := [], None;
      if e.kind in registry {
        var hs := registry[e.kind];
        var i := 0;
        while i < |hs|
          invariant 0 <= i <= |hs|
          invariant calls == Invocations(hs[..i], e.data)
          invariant forall j :: 0 <= j < i ==> run(Call(hs[j], e.data)).Pass?
        {
          var c := Call(hs[i], e.data);
          assert Invocations(hs[..i + 1], e.data) == calls + [c];
          match run(c) {
            case Fail(reason) =>
              calls, raised := calls + [c], Some(reason);
              assert FirstRaise(hs, e.data, run, 0) == i;
              return;
            case Pass =>
              calls := calls + [c];
          }
          i := i + 1;
        }
        assert hs[..i] == hs;
      }
    }

    /** `registry.event_queue.append(e)` by a client of the framework.
        `event_queue` is a public list that `process_next_event` pops from;
        no code in the repository appends to it, so this is the only way
        the model gives `ProcessNextEvent` an event to process. */
    method Post(e: Event)
      modifies this
      ensures eventQueue == old(eventQueue) + [e]
      ensures registry == old(registry)
    {
      eventQueue := eventQueue + [e];
    }

    /** Takes the oldest queued event off the queue and dispatches it; does
        nothing when the queue is empty. The event has left the queue even
        when a handler raises. */
    method ProcessNextEvent(run: Call -> Outcome) returns (calls: seq<Call>, raised: Option<string>)
      modifies this
      ensures registry == old(registry)
      ensures old(eventQueue) == [] ==> eventQueue == [] && calls == [] && raised == None
      ensures old(eventQueue) != [] ==> eventQueue == old(eventQueue)[1..]
      ensures old(eventQueue) != [] ==>
        Dispatched(calls, raised) == DispatchOf(HandlersIn(registry, old(eventQueue)[0].kind), old(eventQueue)[0].data, run)
    {
      calls, raised := [], None;
      if eventQueue != [] {
        var e := eventQueue[0];
        eventQueue := eventQueue[1..];
        calls, raised := Dispatch(e, run);
      }
    }
  }

  // ---------------------------------------------------------------- button

  /** The state a button event leaves and the event it publishes, if any. */
  datatype ButtonEffect = ButtonEffect(state: string, fired: Option<Event>)

  /** `Button.handle_event`: a press inside the button shows "pressed" and
      publishes `fire_event` (when it is not empty) with no data; motion
      shows "hover" inside and "default" outside; anything else changes nothing. */
  function ButtonStep(rect: Rect, fireEvent: string, state: string, ev: PgEvent): (r: ButtonEffect)
    ensures ev.MouseDown? && rect.Contains(ev.pos) ==>
      r.state == "pressed" && (r.fired.Some? <==> fireEvent != "")
    ensures r.fired.Some? ==> ev.MouseDown? && rect.Contains(ev.pos) && r.fired.value == Event(fireEvent, map[])
    ensures ev.MouseMotion? ==> r.state == (if rect.Contains(ev.pos) then "hover" else "default")
    ensures !ev.MouseMotion? && !(ev.MouseDown? && rect.Contains(ev.pos)) ==> r == ButtonEffect(state, None)
  {
    if ev.MouseDown? && rect.Contains(ev.pos) then
      ButtonEffect("pressed", if fireEvent != "" then Some(Event(fireEvent, map[])) else None)
    else if ev.MouseMotion? then
      ButtonEffect(if rect.Contains(ev.pos) then "hover" else "default", None)
    else ButtonEffect(state, None)
  }

  class Button {
    var rect: Rect
    var state: string
    var text: string
    var callback: string

    constructor (rect: Rect, text: string, fireEvent: string)
      ensures this.rect == rect && this.text == text && callback == fireEvent && state == "default"
    {
      this.rect := rect;
      this.text := text;
      this.callback := fireEvent;
      this.state := "default";
    }

    /** Handles one event; a press publishes on `bus` and returns the handler
        calls it made and the exception a handler raised, if any. */
    method HandleEvent(ev: PgEvent, bus: UIEventRegistry, run: Call -> Outcome) returns (calls: seq<Call>, raised: Option<string>)
      modifies this
      ensures rect == old(rect) && text == old(text) && callback == old(callback)
      ensures state == ButtonStep(rect, callback, old(state), ev).state
      ensures ButtonStep(rect, callback, old(state), ev).fired.None? ==> calls == [] && raised == None
      ensures ButtonStep(rect, callback, old(state), ev).fired.Some? ==>
        Dispatched(calls, raised) == DispatchOf(bus.HandlersFor(callback), map[], run)
    {
      calls, raised := [], None;
      if ev.MouseDown? && rect.Contains(ev.pos) {
        state := "pressed";
        if callback != "" {
          calls, raised := bus.Dispatch(Event(callback, map[]), run);
        }
      } else if ev.MouseMotion? {
        if rect.Contains(ev.pos) {
          state := "hover";
        } else {
          state := "default";
        }
      }
    }
  }

  // -------------------------------------------------------------- text box

  /** The characters a paste drops: the C0 controls other than tab, line feed and carriage return. */
  predicate IsPasteStripped(c: char)
  {
    ('\U{0000}' <= c <= '\U{0008}') || ('\U{000B}' <= c <= '\U{000C}') || ('\U{000E}' <= c <= '\U{001F}')
  }

  /** `re.sub(r'[\x00-\x08\x0b-\x0c\x0e-\x1f]', '', s)`. */
  function CleanPaste(s: string): (r: string)
    ensures forall i :: 0 <= i < |r| ==> !IsPasteStripped(r[i])
    decreases |s|
  {
    if s == "" then ""
    else if IsPasteStripped(s[0]) then CleanPaste(s[1..])
    else [s[0]] + CleanPaste(s[1..])
  }

  /** A paste keeps every occurrence of every character it does not strip
      (tab, line feed and carriage return among them) and removes every one it does. */
  lemma {:induction false} CleanPasteCounts(s: string)
    ensures forall c :: multiset(CleanPaste(s))[c] == if IsPasteStripped(c) then 0 else multiset(s)[c]
    decreases |s|
  {
    if s != "" {
      CleanPasteCounts(s[1..]);
      assert s == [s[0]] + s[1..];
      assert multiset(s) == multiset{s[0]} + multiset(s[1..]);
    }
  }

  /** Cleaning works character by character, so the kept characters stay in their order. */
  lemma {:induction false} CleanPasteConcat(a: string, b: string)
    ensures CleanPaste(a + b) == CleanPaste(a) + CleanPaste(b)
    decreases |a|
  {
    if a == "" {
      assert a + b == b;
    } else {
      assert (a + b)[0] == a[0];
      assert (a + b)[1..] == a[1..] + b;
      CleanPasteConcat(a[1..], b);
      if !IsPasteStripped(a[0]) {
        assert CleanPaste(a + b) == [a[0]] + (CleanPaste(a[1..]) + CleanPaste(b));
      }
    }
  }

  /** Text with nothing to remove is pasted unchanged. */
  lemma {:induction false} CleanPasteKeeps(s: string)
    requires forall i :: 0 <= i < |s| ==> !IsPasteStripped(s[i])
    ensures CleanPaste(s) == s
    decreases |s|
  {
    if s != "" {
      CleanPasteKeeps(s[1..]);
      assert s == [s[0]] + s[1..];
    }
  }

  datatype TextBoxState = TextBoxState(text: string, active: bool)

  /** `TextBox.handle_event`. A mouse press (any button) makes the box active
      exactly when it hits the box. While active, a key press edits: Ctrl+V
      first appends the cleaned clipboard text (`clipboard` is the decoded
      clipboard; `None` when it is empty or cannot be read or decoded);
      then Backspace drops the last character, Return deactivates, and every
      other key — Ctrl+V included — appends the key's text. */
  function TextBoxStep(rect: Rect, s: TextBoxState, ev: PgEvent, clipboard: Option<string>): (r: TextBoxState)
    ensures r.text != s.text ==> s.active && ev.KeyDown?
    ensures ev.KeyDown? && ev.key != Backspace ==> s.text <= r.text
    ensures !ev.MouseDown? && !s.active ==> r == s
  {
    var active := if ev.MouseDown? then rect.Contains(ev.pos) else s.active;
    if active && ev.KeyDown? then
      var pasted := if ev.ctrl && ev.key == KeyV && clipboard.Some? && clipboard.value != ""
                    then s.text + CleanPaste(clipboard.value) else s.text;
      if ev.key == Backspace then TextBoxState(if pasted == "" then "" else pasted[..|pasted| - 1], active)
      else if ev.key == Return then TextBoxState(pasted, false)
      else TextBoxState(pasted + ev.unicode, active)
    else TextBoxState(s.text, active)
  }

  /** What each input does to a text box, case by case. */
  lemma TextBoxKeys(rect: Rect, s: TextBoxState, ev: PgEvent, clipboard: Option<string>)
    ensures var r := TextBoxStep(rect, s, ev, clipboard);
      && (ev.MouseDown? ==> r == TextBoxState(s.text, rect.Contains(ev.pos)))
      && (!ev.MouseDown? && !(s.active && ev.KeyDown?) ==> r == s)
      && (s.active && ev.KeyDown? && ev.key == Backspace ==>
            r.active && (s.text == "" ==> r.text == "") && (s.text != "" ==> r.text == s.text[..|s.text| - 1]))
      && (s.active && ev.KeyDown? && ev.key == Return ==> r == TextBoxState(s.text, false))
      && (s.active && ev.KeyDown? && ev.key != Backspace && ev.key != Return && !(ev.ctrl && ev.key == KeyV) ==>
            r == TextBoxState(s.text + ev.unicode, true))
      && (s.active && ev.KeyDown? && ev.ctrl && ev.key == KeyV ==>
            r.active && r.text == s.text + (if clipboard.Some? then CleanPaste(clipboard.value) else "") + ev.unicode)
  {
  }

  class TextBox {
    var rect: Rect
    var text: string
    var active: bool

    constructor (rect: Rect, text: string)
      ensures this.rect == rect && this.text == text && !active
    {
      this.rect := rect;
      this.text := text;
      this.active := false;
    }

    method HandleEvent(ev: PgEvent, clipboard: Option<string>)
      modifies this
      ensures rect == old(rect)
      ensures TextBoxState(text, active) == TextBoxStep(rect, TextBoxState(old(text), old(active)), ev, clipboard)
    {
      if ev.MouseDown? {
        active := rect.Contains(ev.pos);
      }
      if active && ev.KeyDown? {
        if ev.ctrl && ev.key == KeyV {
          if clipboard.Some? && clipboard.value != "" {
            text := text + CleanPaste(clipboard.value);
          }
        }
        if ev.key == Backspace {
          text := if text == "" then "" else text[..|text| - 1];
        } else if ev.key == Return {
          active := false;
        } else {
          text := text + ev.unicode;
        }
      }
    }
  }

  // ---------------------------------------------------------------- slider

  function Clamp01(x: real): (r: real)
    ensures 0.0 <= r <= 1.0
    ensures 0.0 <= x <= 1.0 ==> r == x
  {
    if x < 0.0 then 0.0 else if x > 1.0 then 1.0 else x
  }

  datatype SliderState = SliderState(value: real, dragging: bool)

  /** What a slider event produces: the new state, the event it publishes,
      or a fault (the `ZeroDivisionError` of a drag over a zero-width slider). */
  datatype SliderEffect = SliderMoved(state: SliderState, fired: Option<Event>) | SliderFault

  /** `Slider.handle_event`: a press inside starts a drag, any release ends
      it, and motion during a drag sets the value at the cursor's fraction
      of the track, clamped to `[0, 1]`, and publishes it. */
  function SliderStep(rect: Rect, minVal: real, maxVal: real, fireEvent: string,
                      s: SliderState, ev: PgEvent): (r: SliderEffect)
    ensures r.SliderFault? <==> ev.MouseMotion? && s.dragging && rect.w == 0
    ensures r.SliderMoved? && !(ev.MouseMotion? && s.dragging) ==> r.state.value == s.value && r.fired.None?
  {
    if ev.MouseDown? && rect.Contains(ev.pos) then SliderMoved(s.(dragging := true), None)
    else if ev.MouseUp? then SliderMoved(s.(dragging := false), None)
    else if ev.MouseMotion? && s.dragging then
      if rect.w == 0 then SliderFault
      else
        var v := DragValue(rect, minVal, maxVal, ev.pos.x);
        SliderMoved(s.(value := v), if fireEvent != "" then Some(Event(fireEvent, map["value" := VReal(v)])) else None)
    else SliderMoved(s, None)
  }

  /** Because the fraction is clamped, a drag never takes the value outside
      `[min_val, max_val]`; a slider whose value starts in range stays in range. */
  lemma {:induction false} SliderStaysInRange(rect: Rect, minVal: real, maxVal: real, fireEvent: string, s: SliderState, ev: PgEvent)
    requires minVal <= maxVal
    ensures var r := SliderStep(rect, minVal, maxVal, fireEvent, s, ev);
      r.SliderMoved? && ev.MouseMotion? && s.dragging ==> minVal <= r.state.value <= maxVal
    ensures var r := SliderStep(rect, minVal, maxVal, fireEvent, s, ev);
      r.SliderMoved? && minVal <= s.value <= maxVal ==> minVal <= r.state.value <= maxVal
  {
    if ev.MouseMotion? && s.dragging && rect.w != 0 {
      DragValueInRange(rect, minVal, maxVal, ev.pos.x);
    }
  }

  /** `min_val + pct * (max_val - min_val)` for the cursor at `x`, with `pct` clamped. */
  function DragValue(rect: Rect, minVal: real, maxVal: real, x: int): (v: real)
    requires rect.w != 0
    ensures rect.w > 0 && x <= rect.x ==> v == minVal
    ensures rect.w > 0 && x >= rect.x + rect.w ==> v == maxVal
  {
    var pct := (x - rect.x) as real / rect.w as real;
    TrackEnds(x - rect.x, rect.w);
    minVal + Clamp01(pct) * (maxVal - minVal)
  }

  /** Left of the track the fraction is at most 0, right of it at least 1. */
  lemma TrackEnds(dx: int, w: int)
    ensures w > 0 && dx <= 0 ==> dx as real / w as real <= 0.0
    ensures w > 0 && dx >= w ==> dx as real / w as real >= 1.0
  {
  }

  lemma {:induction false} DragValueInRange(rect: Rect, minVal: real, maxVal: real, x: int)
    requires rect.w != 0 && minVal <= maxVal
    ensures minVal <= DragValue(rect, minVal, maxVal, x) <= maxVal
  {
    var p := Clamp01((x - rect.x) as real / rect.w as real);
    var d := maxVal - minVal;
    ScaleBetween(p, d);
    var q := p * d;
    assert 0.0 <= q <= d;
    assert DragValue(rect, minVal, maxVal, x) == minVal + q;
  }

  lemma {:induction false} ScaleBetween(p: real, d: real)
    requires 0.0 <= p <= 1.0 && 0.0 <= d
    ensures 0.0 <= p * d <= d
  {
    assert p * d <= 1.0 * d;
  }

  class Slider {
    var rect: Rect
    var minVal: real
    var maxVal: real
    var value: real
    var callback: string
    var dragging: bool

    constructor (rect: Rect, minVal: real, maxVal: real, startVal: real, fireEvent: string)
      ensures this.rect == rect && this.minVal == minVal && this.maxVal == maxVal
      ensures value == startVal && callback == fireEvent && !dragging
    {
      this.rect := rect;
      this.minVal := minVal;
      this.maxVal := maxVal;
      this.value := startVal;
      this.callback := fireEvent;
      this.dragging := false;
    }

    /** Handles one event; returns the handler calls a drag made, the
        exception one of them raised, and whether the event faulted (in which
        case nothing changed). */
    method HandleEvent(ev: PgEvent, bus: UIEventRegistry, run: Call -> Outcome) returns (calls: seq<Call>, raised: Option<string>, fault: bool)
      modifies this
      ensures rect == old(rect) && minVal == old(minVal) && maxVal == old(maxVal) && callback == old(callback)
      ensures var r := SliderStep(rect, minVal, maxVal, callback, SliderState(old(value), old(dragging)), ev);
        && (fault <==> r.SliderFault?)
        && (r.SliderFault? ==> value == old(value) && dragging == old(dragging) && calls == [] && raised == None)
        && (r.SliderMoved? ==> SliderState(value, dragging) == r.state)
        && (r.SliderMoved? && r.fired.None? ==> calls == [] && raised == None)
        && (r.SliderMoved? && r.fired.Some? ==>
              Dispatched(calls, raised) == DispatchOf(bus.HandlersFor(callback), r.fired.value.data, run))
    {
      calls, raised, fault := [], None, false;
      if ev.MouseDown? && rect.Contains(ev.pos) {
        dragging := true;
      } else if ev.MouseUp? {
        dragging := false;
      } else if ev.MouseMotion? && dragging {
        if rect.w == 0 {
          fault := true;
          return;
        }
        var pct := Clamp01((ev.pos.x - rect.x) as real / rect.w as real);
        value := minVal + pct * (maxVal - minVal);
        assert value == DragValue(rect, minVal, maxVal, ev.pos.x);
        if callback != "" {
          calls, raised := bus.Dispatch(Event(callback, map["value" := VReal(value)]), run);
        }
      }
    }
  }
}
