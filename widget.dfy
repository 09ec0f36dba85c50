/** The playlist widget: the list on screen through which the user reorders
    the queue by dragging a row, deletes a row with Shift and the right
    button, opens a row's folder with the right button, and scrolls with
    the wheel. Its edits go straight to the player's playlist and never
    move the player's position. Drawing is not modelled. */
module PlaylistQueue {
  import opened Values
  import opened UiFramework
  import opened Music
  import opened Player

  // ------------------------------------------------------ queue edits

  /** `l.pop(i)`: the list without its entry at `i`. */
  function RemoveAt(s: seq<Track>, i: nat): (r: seq<Track>)
    requires i < |s|
    ensures |r| == |s| - 1
    ensures forall k :: 0 <= k < i ==> r[k] == s[k]
    ensures forall k :: i <= k < |r| ==> r[k] == s[k + 1]
  {
    s[..i] + s[i + 1..]
  }

  /** `l.insert(i, x)` for an `i` within the list. */
  function InsertAt(s: seq<Track>, i: nat, x: Track): (r: seq<Track>)
    requires i <= |s|
    ensures |r| == |s| + 1 && r[i] == x
    ensures forall k :: 0 <= k < i ==> r[k] == s[k]
    ensures forall k :: i < k < |r| ==> r[k] == s[k - 1]
  {
    s[..i] + [x] + s[i..]
  }

  /** A drag from row `from` to row `to`: `item = l.pop(from)` then `l.insert(to, item)`. */
  function Reorder(s: seq<Track>, from: nat, to: nat): (r: seq<Track>)
    requires from < |s| && to < |s|
    ensures |r| == |s| && r[to] == s[from]
    ensures forall k :: 0 <= k < |s| && k < from && k < to ==> r[k] == s[k]
    ensures forall k :: 0 <= k < |s| && k > from && k > to ==> r[k] == s[k]
    ensures forall k :: from <= k < to ==> r[k] == s[k + 1]
    ensures forall k :: to < k <= from ==> r[k] == s[k - 1]
  {
    InsertAt(RemoveAt(s, from), to, s[from])
  }

  /** Removing the entry just inserted gives the list back, and inserting
      the entry just removed gives the list back. */
  lemma InsertRemoveInverse(s: seq<Track>, i: nat, x: Track)
    requires i <= |s|
    ensures RemoveAt(InsertAt(s, i, x), i) == s
  {
  }

  lemma RemoveInsertInverse(s: seq<Track>, i: nat)
    requires i < |s|
    ensures InsertAt(RemoveAt(s, i), i, s[i]) == s
  {
  }

  /** A drag keeps the entries and their number, and puts the dragged entry on the row it was dropped on. */
  lemma ReorderPermutes(s: seq<Track>, from: nat, to: nat)
    requires from < |s| && to < |s|
    ensures |Reorder(s, from, to)| == |s|
    ensures Reorder(s, from, to)[to] == s[from]
    ensures multiset(Reorder(s, from, to)) == multiset(s)
  {
    RemoveAtCounts(s, from);
    var rest := RemoveAt(s, from);
    assert Reorder(s, from, to) == rest[..to] + [s[from]] + rest[to..];
    assert rest == rest[..to] + rest[to..];
  }

  /** Dragging the entry back to where it came from undoes the drag. */
  lemma ReorderBack(s: seq<Track>, from: nat, to: nat)
    requires from < |s| && to < |s|
    ensures Reorder(Reorder(s, from, to), to, from) == s
  {
    var r := Reorder(s, from, to);
    InsertRemoveInverse(RemoveAt(s, from), to, s[from]);
    assert RemoveAt(r, to) == RemoveAt(s, from);
    RemoveInsertInverse(s, from);
  }

  /** A delete takes exactly one copy of the entry out and leaves the rest. */
  lemma RemoveAtCounts(s: seq<Track>, i: nat)
    requires i < |s|
    ensures multiset(RemoveAt(s, i)) + multiset{s[i]} == multiset(s)
  {
    assert s == s[..i] + [s[i]] + s[i + 1..];
  }

  // ------------------------------------------------------ the widget

  /** The widget's own state: the first row shown, the row being dragged,
      whether Shift is held, and whether a right click is still being
      debounced. */
  datatype QueueState = QueueState(scroll: int, dragging: Option<nat>, shiftDown: bool, debounce: bool)

  /** What one event does: the new state, the new playlist and the path whose
      folder the file manager is asked to show; or the exception it raises. */
  datatype QueueEffect = Edited(state: QueueState, playlist: seq<Track>, folder: Option<string>) | Fault(error: string)

  const NoPlayer := "AttributeError: 'NoneType' object has no attribute 'playlist'"
  const PopOutOfRange := "IndexError: pop index out of range"

  /** The row under `pos`: `scroll + (pos.y - rect.y) // item_height`. For a
      positive divisor Dafny's division is Python's floor division. */
  function Row(rect: Rect, itemHeight: int, scroll: int, pos: Point): (row: int)
    requires itemHeight > 0
    ensures (row - scroll) * itemHeight <= pos.y - rect.y < (row - scroll + 1) * itemHeight
  {
    scroll + (pos.y - rect.y) / itemHeight
  }

  /** The rows a full widget shows: `rect.h // item_height`. */
  function Visible(rect: Rect, itemHeight: int): (r: int)
    requires itemHeight > 0
    ensures r * itemHeight <= rect.h < (r + 1) * itemHeight
    ensures rect.h >= 0 ==> r >= 0
  {
    rect.h / itemHeight
  }

  /** The wheel turned down: `min(len - visible, scroll + 1)`, which is
      negative when the playlist is shorter than the widget. */
  function WheelDown(scroll: int, len: nat, visible: int): (r: int)
    ensures r <= scroll + 1 && r <= len - visible
    ensures r == scroll + 1 || r == len - visible
  {
    if len - visible < scroll + 1 then len - visible else scroll + 1
  }

  /** The wheel turned down with the floor the wheel-up branch has: the
      bound of `WheelDown`, then `max(0, …)`. */
  function WheelDownCorrected(scroll: int, len: nat, visible: int): (r: int)
    ensures r >= 0
    ensures r == if WheelDown(scroll, len, visible) < 0 then 0 else WheelDown(scroll, len, visible)
  {
    var bounded := WheelDown(scroll, len, visible);
    if bounded < 0 then 0 else bounded
  }

  /** A playlist shorter than the widget scrolls to a negative first row. */
  lemma WheelDownGoesNegative()
    ensures WheelDown(0, 2, 200 / 20) == -8
  {
  }

  /** The corrected wheel keeps the first row shown within the playlist:
      never negative, and never past the last full page unless a row was already. */
  lemma WheelDownCorrectedBounds(scroll: int, len: nat, visible: int)
    requires 0 <= scroll
    ensures 0 <= WheelDownCorrected(scroll, len, visible) <= scroll + 1
    ensures WheelDownCorrected(scroll, len, visible) <= if len - visible < 0 then 0 else len - visible
  {
  }

  /** Shift is held from a Shift key press to its release. */
  function ShiftAfter(shiftDown: bool, ev: PgEvent): (r: bool)
    ensures r != shiftDown ==> (ev.KeyDown? || ev.KeyUp?) && (ev.key == LShift || ev.key == RShift)
    ensures (ev.KeyDown? || ev.KeyUp?) && (ev.key == LShift || ev.key == RShift) ==> (r <==> ev.KeyDown?)
  {
    if ev.KeyDown? && (ev.key == LShift || ev.key == RShift) then true
    else if ev.KeyUp? && (ev.key == LShift || ev.key == RShift) then false
    else shiftDown
  }

  /** A left press: on a row of the playlist, that row starts being dragged. */
  function PressLeft(rect: Rect, itemHeight: int, t: QueueState, hasPlayer: bool, playlist: seq<Track>, pos: Point): (r: QueueEffect)
    requires itemHeight > 0
    ensures r.Fault? <==> rect.Contains(pos) && !hasPlayer && 0 <= Row(rect, itemHeight, t.scroll, pos)
    ensures r.Edited? ==> r.playlist == playlist && r.folder == None && r.state.(dragging := t.dragging) == t
    ensures r.Edited? && r.state.dragging != t.dragging ==>
      rect.Contains(pos) && r.state.dragging == Some(Row(rect, itemHeight, t.scroll, pos)) && r.state.dragging.value < |playlist|
    ensures rect.Contains(pos) && hasPlayer && 0 <= Row(rect, itemHeight, t.scroll, pos) < |playlist| ==>
      r == Edited(t.(dragging := Some(Row(rect, itemHeight, t.scroll, pos))), playlist, None)
    ensures !(rect.Contains(pos) && 0 <= Row(rect, itemHeight, t.scroll, pos) < |playlist|) && r.Edited? ==>
      r == Edited(t, playlist, None)
  {
    if !rect.Contains(pos) then Edited(t, playlist, None)
    else
      var idx := Row(rect, itemHeight, t.scroll, pos);
      // `0 <= idx < len(self.player.playlist)` reads the player only when `0 <= idx`
      if idx < 0 then Edited(t, playlist, None)
      else if !hasPlayer then Fault(NoPlayer)
      else Edited(if idx < |playlist| then t.(dragging := Some(idx)) else t, playlist, None)
  }

  /** `0 <= idx < len(self.player.playlist)` stops at `0 <= idx`: on a
      negative row a missing player is never read, so a press changes
      nothing and a drop only ends the drag. */
  lemma NegativeRowReadsNoPlayer(rect: Rect, itemHeight: int, t: QueueState, playlist: seq<Track>, pos: Point)
    requires itemHeight > 0 && Row(rect, itemHeight, t.scroll, pos) < 0
    ensures PressLeft(rect, itemHeight, t, false, playlist, pos) == Edited(t, playlist, None)
    ensures PressRight(rect, itemHeight, t, false, playlist, pos) == Edited(t, playlist, None)
    ensures t.dragging.Some? ==> Drop(rect, itemHeight, t, false, playlist, pos) == Edited(t.(dragging := None), playlist, None)
  {
  }

  /** A left release during a drag: a drop on a row of the playlist moves
      the dragged entry there; the drag ends either way. */
  function Drop(rect: Rect, itemHeight: int, t: QueueState, hasPlayer: bool, playlist: seq<Track>, pos: Point): (r: QueueEffect)
    requires itemHeight > 0 && t.dragging.Some?
    ensures var to := Row(rect, itemHeight, t.scroll, pos);
      r.Fault? <==> (!hasPlayer && 0 <= to) || (0 <= to < |playlist| && t.dragging.value >= |playlist|)
    ensures r.Edited? ==> r.state == t.(dragging := None) && r.folder == None
    ensures r.Edited? ==> |r.playlist| == |playlist| && multiset(r.playlist) == multiset(playlist)
  {
    var to := Row(rect, itemHeight, t.scroll, pos);
    if to < 0 then Edited(t.(dragging := None), playlist, None)
    else if !hasPlayer then Fault(NoPlayer)
    else if to >= |playlist| then Edited(t.(dragging := None), playlist, None)
    else if t.dragging.value >= |playlist| then Fault(PopOutOfRange)
    else
      ReorderPermutes(playlist, t.dragging.value, to);
      Edited(t.(dragging := None), Reorder(playlist, t.dragging.value, to), None)
  }

  /** A right press on a row, outside the debounce: with Shift the row is
      deleted, without it the row's folder is shown. */
  function PressRight(rect: Rect, itemHeight: int, t: QueueState, hasPlayer: bool, playlist: seq<Track>, pos: Point): (r: QueueEffect)
    requires itemHeight > 0
    ensures r.Fault? <==> rect.Contains(pos) && !hasPlayer && 0 <= Row(rect, itemHeight, t.scroll, pos)
    ensures r.Edited? && t.debounce ==> r == Edited(t, playlist, None)
    ensures r.Edited? && r.playlist != playlist ==>
      t.shiftDown && r.state == t.(debounce := true) && r.folder == None && |r.playlist| == |playlist| - 1
    ensures r.Edited? && r.folder.Some? ==>
      var i := Row(rect, itemHeight, t.scroll, pos);
      !t.shiftDown && r.playlist == playlist && 0 <= i < |playlist| && r.folder == Some(playlist[i].path)
  {
    if !rect.Contains(pos) then Edited(t, playlist, None)
    else
      var idx := Row(rect, itemHeight, t.scroll, pos);
      if idx < 0 then Edited(t, playlist, None)
      else if !hasPlayer then Fault(NoPlayer)
      else if idx >= |playlist| || t.debounce then Edited(t, playlist, None)
      else if t.shiftDown then Edited(t.(debounce := true), RemoveAt(playlist, idx), None)
      else Edited(t.(debounce := true), playlist, Some(playlist[idx].path))
  }

  /** The wheel over the widget: up shows one row earlier, down one row later. */
  function Wheel(rect: Rect, itemHeight: int, t: QueueState, hasPlayer: bool, playlist: seq<Track>, dy: int): (r: QueueEffect)
    requires itemHeight > 0
    ensures r.Fault? <==> dy < 0 && !hasPlayer
    ensures r.Edited? ==> r.playlist == playlist && r.folder == None && r.state.(scroll := t.scroll) == t
    ensures dy > 0 ==> r.state.scroll >= 0 && (t.scroll > 0 ==> r.state.scroll == t.scroll - 1)
    ensures dy < 0 && r.Edited? ==> r.state.scroll <= t.scroll + 1
    ensures dy < 0 && r.Edited? ==> r.state.scroll == WheelDown(t.scroll, |playlist|, Visible(rect, itemHeight))
    ensures dy > 0 ==> r.state.scroll == (if t.scroll - 1 < 0 then 0 else t.scroll - 1)
    ensures dy == 0 ==> r == Edited(t, playlist, None)
  {
    if dy > 0 then Edited(t.(scroll := if t.scroll - 1 < 0 then 0 else t.scroll - 1), playlist, None)
    else if dy < 0 then
      if !hasPlayer then Fault(NoPlayer)
      else Edited(t.(scroll := WheelDown(t.scroll, |playlist|, Visible(rect, itemHeight))), playlist, None)
    else Edited(t, playlist, None)
  }

  /** `PlaylistWidget.handle_event(event)`. `hasPlayer` is whether a player is
      set and `playlist` its playlist; `mouse` is where the cursor is. */
  function QueueStep(rect: Rect, itemHeight: int, s: QueueState, hasPlayer: bool, playlist: seq<Track>,
                     ev: PgEvent, mouse: Point): (r: QueueEffect)
    requires itemHeight > 0
    ensures r.Fault? ==> ev.MouseDown? || ev.MouseUp? || ev.MouseWheel?
    ensures r.Edited? ==> r.state.shiftDown == ShiftAfter(s.shiftDown, ev)
    ensures r.Edited? ==> |playlist| - 1 <= |r.playlist| <= |playlist|
    ensures r.Edited? && r.folder.Some? ==> ev.MouseDown? && ev.button == 3 && r.playlist == playlist
  {
    var t := s.(shiftDown := ShiftAfter(s.shiftDown, ev));
    if ev.MouseDown? && ev.button == 1 then PressLeft(rect, itemHeight, t, hasPlayer, playlist, ev.pos)
    else if ev.MouseUp? && ev.button == 1 && t.dragging.Some? then Drop(rect, itemHeight, t, hasPlayer, playlist, ev.pos)
    else if ev.MouseDown? && ev.button == 3 then PressRight(rect, itemHeight, t, hasPlayer, playlist, ev.pos)
    else if ev.MouseWheel? && rect.Contains(mouse) then Wheel(rect, itemHeight, t, hasPlayer, playlist, ev.dy)
    else Edited(t, playlist, None)
  }

  // ------------------------------------------------------ properties

  /** A drop on a row of the playlist moves the dragged entry there, keeping
      every entry; a drop elsewhere changes nothing but ends the drag. */
  lemma DropMovesEntry(rect: Rect, itemHeight: int, s: QueueState, playlist: seq<Track>, pos: Point, mouse: Point)
    requires itemHeight > 0 && s.dragging.Some? && s.dragging.value < |playlist|
    ensures var r := QueueStep(rect, itemHeight, s, true, playlist, MouseUp(1, pos), mouse);
      var to := Row(rect, itemHeight, s.scroll, pos);
      && r.Edited? && r.state == s.(dragging := None) && r.folder == None
      && (0 <= to < |playlist| ==>
            |r.playlist| == |playlist| && r.playlist[to] == playlist[s.dragging.value]
            && multiset(r.playlist) == multiset(playlist))
      && (!(0 <= to < |playlist|) ==> r.playlist == playlist)
  {
    var to := Row(rect, itemHeight, s.scroll, pos);
    if 0 <= to < |playlist| {
      ReorderPermutes(playlist, s.dragging.value, to);
    }
  }

  /** A drag whose row has left the playlist since it started makes the pop raise. */
  lemma StaleDragFaults(rect: Rect, itemHeight: int, s: QueueState, playlist: seq<Track>, pos: Point, mouse: Point)
    requires itemHeight > 0 && s.dragging.Some? && s.dragging.value >= |playlist|
    ensures QueueStep(rect, itemHeight, s, true, playlist, MouseUp(1, pos), mouse) == Fault(PopOutOfRange)
      <==> 0 <= Row(rect, itemHeight, s.scroll, pos) < |playlist|
  {
  }

  /** Shift and the right button on a row delete exactly that row and start
      the debounce; while the debounce lasts a right click does nothing. */
  lemma ShiftClickDeletes(rect: Rect, itemHeight: int, s: QueueState, playlist: seq<Track>, pos: Point, mouse: Point)
    requires itemHeight > 0 && rect.Contains(pos)
    ensures var r := QueueStep(rect, itemHeight, s, true, playlist, MouseDown(3, pos), mouse);
      var idx := Row(rect, itemHeight, s.scroll, pos);
      && r.Edited?
      && (s.debounce || !(0 <= idx < |playlist|) ==> r == Edited(s, playlist, None))
      && (!s.debounce && 0 <= idx < |playlist| && s.shiftDown ==>
            r.state == s.(debounce := true) && r.folder == None
            && |r.playlist| == |playlist| - 1
            && multiset(r.playlist) + multiset{playlist[idx]} == multiset(playlist))
      && (!s.debounce && 0 <= idx < |playlist| && !s.shiftDown ==>
            r == Edited(s.(debounce := true), playlist, Some(playlist[idx].path)))
  {
    var idx := Row(rect, itemHeight, s.scroll, pos);
    if !s.debounce && 0 <= idx < |playlist| && s.shiftDown {
      RemoveAtCounts(playlist, idx);
    }
  }

  /** Every event either keeps the playlist's entries, or deletes one of
      them; without a player it never changes the playlist. */
  lemma QueueEditsOnly(rect: Rect, itemHeight: int, s: QueueState, hasPlayer: bool, playlist: seq<Track>, ev: PgEvent, mouse: Point)
    requires itemHeight > 0
    ensures var r := QueueStep(rect, itemHeight, s, hasPlayer, playlist, ev, mouse);
      r.Edited? ==>
        && (multiset(r.playlist) == multiset(playlist)
            || (exists i :: 0 <= i < |playlist| && r.playlist == RemoveAt(playlist, i)))
        && (!hasPlayer ==> r.playlist == playlist)
  {
    var r := QueueStep(rect, itemHeight, s, hasPlayer, playlist, ev, mouse);
    if ev.MouseUp? && ev.button == 1 && s.dragging.Some? && hasPlayer {
      var to := Row(rect, itemHeight, s.scroll, ev.pos);
      if 0 <= to < |playlist| && s.dragging.value < |playlist| {
        ReorderPermutes(playlist, s.dragging.value, to);
      }
    }
  }

  /** The first row shown goes below 0 only on a wheel-down over a playlist
      shorter than the widget, and then it is `len - visible`. */
  lemma ScrollNegativeOnlyByWheel(rect: Rect, itemHeight: int, s: QueueState, hasPlayer: bool, playlist: seq<Track>, ev: PgEvent, mouse: Point)
    requires itemHeight > 0 && s.scroll >= 0
    ensures var r := QueueStep(rect, itemHeight, s, hasPlayer, playlist, ev, mouse);
      r.Edited? && r.state.scroll < 0 ==>
        && ev.MouseWheel? && ev.dy < 0 && rect.Contains(mouse)
        && |playlist| < Visible(rect, itemHeight)
        && r.state.scroll == |playlist| - Visible(rect, itemHeight)
  {
  }

  /** Two entries in a widget 200 pixels high with 20-pixel rows: one turn of
      the wheel down from the top makes the first row shown -8. */
  lemma WheelDownScrollsNegative(rect: Rect, s: QueueState, playlist: seq<Track>, mouse: Point)
    requires rect.h == 200 && rect.Contains(mouse) && |playlist| == 2 && s.scroll == 0
    ensures QueueStep(rect, 20, s, true, playlist, MouseWheel(-1), mouse) == Edited(s.(scroll := -8), playlist, None)
  {
    WheelDownGoesNegative();
  }

  /** A Shift press or release only changes whether Shift is held. */
  lemma ShiftKeys(rect: Rect, itemHeight: int, s: QueueState, hasPlayer: bool, playlist: seq<Track>, key: Key, ctrl: bool, text: string, mouse: Point)
    requires itemHeight > 0 && (key == LShift || key == RShift)
    ensures QueueStep(rect, itemHeight, s, hasPlayer, playlist, KeyDown(key, ctrl, text), mouse) == Edited(s.(shiftDown := true), playlist, None)
    ensures QueueStep(rect, itemHeight, s, hasPlayer, playlist, KeyUp(key), mouse) == Edited(s.(shiftDown := false), playlist, None)
  {
  }

  class PlaylistWidget {
    var rect: Rect
    var itemHeight: int
    var scroll: int
    var dragging: Option<nat>
    var shiftDown: bool
    var debounce: bool
    var player: MusicPlayer?

    /** The rows are always at least 20 pixels high. */
    ghost predicate Valid()
      reads this
    {
      itemHeight >= 20
    }

    function State(): QueueState
      reads this
    {
      QueueState(scroll, dragging, shiftDown, debounce)
    }

    /** The player's playlist, or nothing when no player is set. */
    function Queue(): seq<Track>
      reads this, player
    {
      if player == null then [] else player.playlist
    }

    /** `PlaylistWidget(rect, …, player)`; `lineSize` is the font's line height. */
    constructor (rect: Rect, lineSize: int, player: MusicPlayer?)
      ensures Valid() && State() == QueueState(0, None, false, false)
      ensures this.rect == rect && this.player == player
      ensures itemHeight == if lineSize + 4 > 20 then lineSize + 4 else 20
    {
      this.rect := rect;
      itemHeight := if lineSize + 4 > 20 then lineSize + 4 else 20;
      scroll := 0;
      dragging := None;
      shiftDown := false;
      debounce := false;
      this.player := player;
    }

    /** `set_player(player)`. */
    method SetPlayer(p: MusicPlayer)
      modifies this
      ensures player == p && State() == old(State()) && rect == old(rect) && itemHeight == old(itemHeight)
    {
      player := p;
    }

    /** The debounce thread's effect, half a second after a right click. */
    method DebounceElapsed()
      modifies this
      ensures State() == old(State()).(debounce := false)
      ensures rect == old(rect) && itemHeight == old(itemHeight) && player == old(player)
    {
      debounce := false;
    }

    /** Whether the effect is what the object now holds: on a fault, the
        state at the call; otherwise the new state and queue. */
    ghost predicate Holds(r: QueueEffect, t: QueueState, q: seq<Track>, fault: Option<string>, folder: Option<string>)
      reads this, player
    {
      && (r.Fault? ==> fault == Some(r.error) && State() == t && Queue() == q)
      && (r.Edited? ==> fault == None && folder == r.folder && State() == r.state && Queue() == r.playlist)
    }

    method OnPressLeft(pos: Point) returns (fault: Option<string>, folder: Option<string>)
      requires Valid()
      modifies this
      ensures Valid() && rect == old(rect) && itemHeight == old(itemHeight) && player == old(player)
      ensures Holds(PressLeft(rect, itemHeight, old(State()), player != null, Queue(), pos), old(State()), Queue(), fault, folder)
      ensures player != null && rect.Contains(pos) && 0 <= Row(rect, itemHeight, old(scroll), pos) < |Queue()| ==>
        fault == None && dragging == Some(Row(rect, itemHeight, old(scroll), pos)) && State() == old(State()).(dragging := dragging)
    {
      fault, folder := None, None;
      if rect.Contains(pos) {
        var idx := scroll + (pos.y - rect.y) / itemHeight;
        if 0 <= idx {
          if player == null {
            return Some(NoPlayer), None;
          }
          if idx < |player.playlist| {
            dragging := Some(idx);
          }
        }
      }
    }

    method OnDrop(pos: Point) returns (fault: Option<string>, folder: Option<string>)
      requires Valid() && dragging.Some?
      modifies this, player
      ensures Valid() && rect == old(rect) && itemHeight == old(itemHeight) && player == old(player)
      ensures Holds(Drop(rect, itemHeight, old(State()), player != null, old(Queue()), pos), old(State()), old(Queue()), fault, folder)
      ensures player != null ==> player.Model() == old(player.Model()).(playlist := player.playlist)
    {
      fault, folder := None, None;
      var to := scroll + (pos.y - rect.y) / itemHeight;
      if 0 <= to && player == null {
        return Some(NoPlayer), None;
      }
      if 0 <= to && to < |player.playlist| {
        var from := dragging.value;
        if from >= |player.playlist| {
          return Some(PopOutOfRange), None;
        }
        MoveEntry(player, from, to);
      }
      dragging := None;
    }

    /** `item = playlist.pop(from)` then `playlist.insert(to, item)` on the
        player's queue. */
    static method MoveEntry(p: MusicPlayer, from: nat, to: nat)
      requires from < |p.playlist| && to < |p.playlist|
      modifies p
      ensures p.playlist == Reorder(old(p.playlist), from, to)
      ensures p.Model() == old(p.Model()).(playlist := p.playlist)
    {
      var item := p.playlist[from];
      p.playlist := p.playlist[..from] + p.playlist[from + 1..];
      p.playlist := p.playlist[..to] + [item] + p.playlist[to..];
    }

    method OnPressRight(pos: Point) returns (fault: Option<string>, folder: Option<string>)
      requires Valid()
      modifies this, player
      ensures Valid() && rect == old(rect) && itemHeight == old(itemHeight) && player == old(player)
      ensures Holds(PressRight(rect, itemHeight, old(State()), player != null, old(Queue()), pos), old(State()), old(Queue()), fault, folder)
      ensures player != null ==> player.Model() == old(player.Model()).(playlist := player.playlist)
    {
      fault, folder := None, None;
      if rect.Contains(pos) {
        var idx := scroll + (pos.y - rect.y) / itemHeight;
        if 0 <= idx && player == null {
          return Some(NoPlayer), None;
        }
        if 0 <= idx && idx < |player.playlist| {
          var entry := player.playlist[idx];
          if debounce {
            return;
          }
          debounce := true;
          if shiftDown {
            player.playlist := player.playlist[..idx] + player.playlist[idx + 1..];
            return;
          }
          folder := Some(entry.path);
        }
      }
    }

    method OnWheel(dy: int) returns (fault: Option<string>, folder: Option<string>)
      requires Valid()
      modifies this
      ensures Valid() && rect == old(rect) && itemHeight == old(itemHeight) && player == old(player)
      ensures Holds(Wheel(rect, itemHeight, old(State()), player != null, Queue(), dy), old(State()), Queue(), fault, folder)
    {
      fault, folder := None, None;
      if dy > 0 {
        scroll := if scroll - 1 < 0 then 0 else scroll - 1;
      } else if dy < 0 {
        if player == null {
          return Some(NoPlayer), None;
        }
        var bottom := |player.playlist| - rect.h / itemHeight;
        scroll := if bottom < scroll + 1 then bottom else scroll + 1;
      }
    }

    /** `handle_event(event)`; `mouse` is `pygame.mouse.get_pos()`. `fault`
        is the exception that escapes, `folder` the path handed to the file
        manager to show. Only the playlist of the player changes. */
    method HandleEvent(ev: PgEvent, mouse: Point) returns (fault: Option<string>, folder: Option<string>)
      requires Valid()
      modifies this, player
      ensures Valid() && rect == old(rect) && itemHeight == old(itemHeight) && player == old(player)
      ensures var t := old(State()).(shiftDown := ShiftAfter(old(shiftDown), ev));
        Holds(QueueStep(rect, itemHeight, old(State()), player != null, old(Queue()), ev, mouse), t, old(Queue()), fault, folder)
      ensures player != null ==> player.Model() == old(player.Model()).(playlist := player.playlist)
    {
      fault, folder := None, None;
      if ev.KeyDown? && (ev.key == LShift || ev.key == RShift) {
        shiftDown := true;
      } else if ev.KeyUp? && (ev.key == LShift || ev.key == RShift) {
        shiftDown := false;
      }
      if ev.MouseDown? && ev.button == 1 {
        fault, folder := OnPressLeft(ev.pos);
      } else if ev.MouseUp? && ev.button == 1 && dragging.Some? {
        fault, folder := OnDrop(ev.pos);
      } else if ev.MouseDown? && ev.button == 3 {
        fault, folder := OnPressRight(ev.pos);
      } else if ev.MouseWheel? && rect.Contains(mouse) {
        fault, folder := OnWheel(ev.dy);
      }
    }
  }
}
