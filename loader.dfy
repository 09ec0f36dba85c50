/** The loader that turns scene descriptions into widgets: a registry of
    widget types, the scenes read from a folder, and the transform of one
    scene into constructor calls. Reading the folder is given as its parsed
    contents; constructing a widget is represented by the call
    `widget_class(**args)` it would make. */
module JsonUiLoader {
  import opened Values
  import opened UiFramework

  /** The widget classes a type name can be bound to; `Custom` stands for a
      class registered later (the player registers three of its own). */
  datatype WidgetClass = Container | Label | ButtonWidget | SliderWidget | TextBoxWidget | Custom(name: string)

  /** One constructor call `widget_class(**args)`. */
  datatype WidgetSpec = WidgetSpec(cls: WidgetClass, args: Fields)

  /** A scene file of the folder: its stem and its parsed JSON contents. */
  datatype SceneFile = SceneFile(stem: string, content: Value)

  /** The type registry of a new loader. */
  function DefaultWidgetTypes(): (types: map<string, WidgetClass>)
    ensures types.Keys == {"container", "label", "button", "slider", "textbox"}
  {
    map["container" := Container, "label" := Label, "button" := ButtonWidget,
        "slider" := SliderWidget, "textbox" := TextBoxWidget]
  }

  /** The scenes dict built by reading the folder's files in order: each stem
      keyed to its file's contents, a later file with the same stem winning. */
  function ScenesOf(files: seq<SceneFile>): (scenes: Fields)
    ensures |scenes| <= |files|
    ensures files != [] ==> Lookup(scenes, files[|files| - 1].stem) == Some(files[|files| - 1].content)
    decreases |files|
  {
    if files == [] then []
    else Store(ScenesOf(files[..|files| - 1]), files[|files| - 1].stem, files[|files| - 1].content)
  }

  /** The stems of the folder's files. */
  function Stems(files: seq<SceneFile>): set<string>
    decreases |files|
  {
    if files == [] then {} else Stems(files[..|files| - 1]) + {files[|files| - 1].stem}
  }

  /** The scenes held are exactly the folder's stems, each once. */
  lemma {:induction false} ScenesOfKeys(files: seq<SceneFile>)
    ensures Keys(ScenesOf(files)) == Stems(files)
    ensures DistinctKeys(ScenesOf(files))
    decreases |files|
  {
    if files != [] {
      var init := files[..|files| - 1];
      var last := files[|files| - 1];
      ScenesOfKeys(init);
    }
  }

  /** The scene under a stem is the contents of the last file with that stem. */
  lemma {:induction false} ScenesOfLast(files: seq<SceneFile>, i: nat)
    requires i < |files|
    requires forall j :: i < j < |files| ==> files[j].stem != files[i].stem
    ensures Lookup(ScenesOf(files), files[i].stem) == Some(files[i].content)
    decreases |files|
  {
    var init := files[..|files| - 1];
    var last := files[|files| - 1];
    if i < |files| - 1 {
      assert files[i] == init[i];
      ScenesOfLast(init, i);
      StoreOther(ScenesOf(init), last.stem, last.content, files[i].stem);
    }
  }

  /** The result of transforming one widget entry, and the entry as the
      transform leaves it: the entry dict is the very dict handed to the
      constructor, so its edits stay behind in the scene. */
  datatype WidgetStep = WidgetStep(spec: Result<WidgetSpec>, widget: Value)

  /** The style argument of a widget: `get_style(type, widget.get("state", "default"))`.
      A list or dict as the state cannot be a dict key (a `TypeError`); any
      other non-string state is simply not found. */
  function StyleArgument(sm: StyleManager, widgetType: string, state: Option<Value>): (r: Result<Value>)
    ensures r.Err? <==> state.Some? && (state.value.VList? || state.value.VObj?)
    ensures state.None? ==> r == Ok(sm.GetStyle(widgetType, "default"))
    ensures state.Some? && state.value.VStr? ==> r == Ok(sm.GetStyle(widgetType, state.value.s))
  {
    match state
    case None => Ok(sm.GetStyle(widgetType, "default"))
    case Some(VStr(s)) => Ok(sm.GetStyle(widgetType, s))
    case Some(VList(_)) => Err("TypeError: unhashable type: 'list'")
    case Some(VObj(_)) => Err("TypeError: unhashable type: 'dict'")
    case Some(_) => Ok(VObj([]))
  }

  /** The constructor arguments made from an entry that already carries its
      `name`: `style` set, `type` dropped. */
  function WidgetArgs(named: Fields, style: Value): Fields
  {
    Remove(Store(named, "style", style), "type")
  }

  /** The part of the loop body after the type lookup succeeded. */
  function TransformTyped(types: map<string, WidgetClass>, sm: StyleManager, key: string, fields: Fields, t: string): (r: WidgetStep)
    requires t in types
    ensures r.widget.VObj? && Lookup(r.widget.fields, "name") == Some(VStr(key))
    ensures r.spec.Ok? ==> r.spec.value.cls == types[t] && r.widget == VObj(r.spec.value.args)
    ensures r.spec.Err? ==> r.widget == VObj(Store(fields, "name", VStr(key)))
  {
    var named := Store(fields, "name", VStr(key));
    match StyleArgument(sm, t, Lookup(named, "state"))
    case Err(e) => WidgetStep(Err(e), VObj(named))
    case Ok(style) =>
      StoreOther(named, "style", style, "name");
      RemoveOther(Store(named, "style", style), "type", "name");
      WidgetStep(Ok(WidgetSpec(types[t], WidgetArgs(named, style))), VObj(WidgetArgs(named, style)))
  }

  /** One pass of the body of `_scene_to_ui`'s loop for the entry `key: widget`:
      look the type up (a missing or unregistered type raises before anything
      changes), set `name`, set `style`, drop `type`. */
  function TransformWidget(types: map<string, WidgetClass>, sm: StyleManager, key: string, widget: Value): (r: WidgetStep)
    ensures r.spec.Err? ==> r.widget == widget || (widget.VObj? && r.widget == VObj(Store(widget.fields, "name", VStr(key))))
    ensures r.spec.Ok? ==> r.widget == VObj(r.spec.value.args)
  {
    if !widget.VObj? then WidgetStep(Err("TypeError: widget is not a dict"), widget)
    else match Lookup(widget.fields, "type")
      case None => WidgetStep(Err("KeyError: 'type'"), widget)
      case Some(tv) =>
        if !tv.VStr? || tv.s !in types then WidgetStep(Err("KeyError: unregistered widget type"), widget)
        else TransformTyped(types, sm, key, widget.fields, tv.s)
  }

  /** The transform of every entry of `ws`, in order. */
  function Steps(types: map<string, WidgetClass>, sm: StyleManager, ws: Fields): (steps: seq<WidgetStep>)
    ensures |steps| == |ws|
  {
    seq(|ws|, j requires 0 <= j < |ws| => TransformWidget(types, sm, ws[j].0, ws[j].1))
  }

  /** The index of the first step that raises, or `|steps|`. */
  function FirstFailure(steps: seq<WidgetStep>): (f: nat)
    ensures f <= |steps|
    ensures forall j :: 0 <= j < f ==> steps[j].spec.Ok?
    ensures f < |steps| ==> steps[f].spec.Err?
    decreases |steps|
  {
    if steps == [] || steps[0].spec.Err? then 0
    else 1 + FirstFailure(steps[1..])
  }

  /** The widget entries once the loop has been through the first `n` of them. */
  function EditedEntries(ws: Fields, steps: seq<WidgetStep>, n: nat): (out: Fields)
    requires |steps| == |ws|
    ensures |out| == |ws|
  {
    seq(|ws|, j requires 0 <= j < |ws| => if j < n then (ws[j].0, steps[j].widget) else ws[j])
  }

  /** The constructor calls made for the first `n` steps, none of which raised. */
  function BuiltSpecs(steps: seq<WidgetStep>, n: nat): (out: seq<WidgetSpec>)
    requires n <= FirstFailure(steps)
    ensures |out| == n
  {
    seq(n, j requires 0 <= j < n => steps[j].spec.value)
  }

  /** What `_scene_to_ui(scene)` returns, and the scene as it leaves it. */
  datatype SceneLoad = SceneLoad(ui: Result<seq<WidgetSpec>>, scene: Value)

  /** `_scene_to_ui`: one constructor call per entry of `scene["widgets"]`, in
      order; the first entry that raises ends the load with no UI, leaving
      the entries before it (and its own `name`, when the style lookup is
      what raised) edited in the stored scene. */
  function SceneToUi(types: map<string, WidgetClass>, sm: StyleManager, scene: Value): (r: SceneLoad)
    ensures WidgetEntries(scene).None? ==> r.ui.Err? && r.scene == scene
    ensures WidgetEntries(scene).Some? ==>
      r.scene.VObj? && Keys(r.scene.fields) == Keys(scene.fields)
      && Lookup(r.scene.fields, "widgets").Some? && r.scene.fields == Store(scene.fields, "widgets", Lookup(r.scene.fields, "widgets").value)
    ensures r.ui.Ok? ==> WidgetEntries(scene).Some? && |r.ui.value| == |WidgetEntries(scene).value|
  {
    if !scene.VObj? then SceneLoad(Err("TypeError: scene is not a dict"), scene)
    else match Lookup(scene.fields, "widgets")
      case None => SceneLoad(Err("KeyError: 'widgets'"), scene)
      case Some(wv) =>
        if !wv.VObj? then SceneLoad(Err("AttributeError: widgets has no items()"), scene)
        else
          var loop := EntriesLoop(types, sm, wv.fields);
          SceneLoad(loop.ui, VObj(Store(scene.fields, "widgets", VObj(loop.entries))))
  }

  /** What the loop over the widget entries returns, and the entries as it leaves them. */
  datatype LoopResult = LoopResult(ui: Result<seq<WidgetSpec>>, entries: Fields)

  /** The loop over the entries `ws` stops at the first one that raises,
      after editing it and every one before it. */
  function EntriesLoop(types: map<string, WidgetClass>, sm: StyleManager, ws: Fields): LoopResult
  {
    var steps := Steps(types, sm, ws);
    var f := FirstFailure(steps);
    var entries := EditedEntries(ws, steps, f + 1);
    if f < |ws| then LoopResult(Err(steps[f].spec.error), entries)
    else LoopResult(Ok(BuiltSpecs(steps, |ws|)), entries)
  }

  /** The widget entries of a scene, when it has a dict of them. */
  function WidgetEntries(scene: Value): Option<Fields>
  {
    if scene.VObj? then
      match Lookup(scene.fields, "widgets")
      case Some(VObj(ws)) => Some(ws)
      case _ => None
    else None
  }

  /** A successful load makes exactly one constructor call per widget entry,
      in the entries' order; each call's class is the one registered for the
      entry's type, and its arguments carry the entry's key as `name`, the
      style filed for (type, state or "default") as `style`, and no `type`. */
  lemma SceneToUiWidgets(types: map<string, WidgetClass>, sm: StyleManager, scene: Value)
    requires WidgetEntries(scene).Some?
    requires SceneToUi(types, sm, scene).ui.Ok?
    ensures var ws := WidgetEntries(scene).value; var ui := SceneToUi(types, sm, scene).ui.value;
      && |ui| == |ws|
      && forall j :: 0 <= j < |ws| ==>
        && ws[j].1.VObj?
        && Lookup(ws[j].1.fields, "type").Some?
        && Lookup(ws[j].1.fields, "type").value.VStr?
        && var t := Lookup(ws[j].1.fields, "type").value.s;
        && t in types
        && ui[j].cls == types[t]
        && Lookup(ui[j].args, "name") == Some(VStr(ws[j].0))
        && (match Lookup(ws[j].1.fields, "state")
            case None => Lookup(ui[j].args, "style") == Some(sm.GetStyle(t, "default"))
            case Some(VStr(st)) => Lookup(ui[j].args, "style") == Some(sm.GetStyle(t, st))
            case Some(_) => true)
        && (DistinctKeys(ws[j].1.fields) ==> "type" !in Keys(ui[j].args))
  {
    var ws := WidgetEntries(scene).value;
    var ui := SceneToUi(types, sm, scene).ui.value;
    var steps := Steps(types, sm, ws);
    assert FirstFailure(steps) == |ws|;
    forall j | 0 <= j < |ws|
      ensures ws[j].1.VObj? && Lookup(ws[j].1.fields, "type").Some? && Lookup(ws[j].1.fields, "type").value.VStr?
    {
      assert steps[j].spec.Ok?;
      TransformWidgetArgs(types, sm, ws[j].0, ws[j].1);
    }
    forall j | 0 <= j < |ws|
      ensures var t := Lookup(ws[j].1.fields, "type").value.s;
        && t in types
        && ui[j].cls == types[t]
        && Lookup(ui[j].args, "name") == Some(VStr(ws[j].0))
        && (match Lookup(ws[j].1.fields, "state")
            case None => Lookup(ui[j].args, "style") == Some(sm.GetStyle(t, "default"))
            case Some(VStr(st)) => Lookup(ui[j].args, "style") == Some(sm.GetStyle(t, st))
            case Some(_) => true)
        && (DistinctKeys(ws[j].1.fields) ==> "type" !in Keys(ui[j].args))
    {
      assert steps[j].spec.Ok? && ui[j] == steps[j].spec.value;
      TransformWidgetArgs(types, sm, ws[j].0, ws[j].1);
    }
  }

  /** The constructor arguments of one successfully transformed entry. */
  lemma TransformWidgetArgs(types: map<string, WidgetClass>, sm: StyleManager, key: string, widget: Value)
    requires TransformWidget(types, sm, key, widget).spec.Ok?
    ensures widget.VObj? && Lookup(widget.fields, "type").Some? && Lookup(widget.fields, "type").value.VStr?
    ensures var t := Lookup(widget.fields, "type").value.s;
      var args := TransformWidget(types, sm, key, widget).spec.value.args;
      && t in types
      && TransformWidget(types, sm, key, widget).spec.value.cls == types[t]
      && Lookup(args, "name") == Some(VStr(key))
      && (match Lookup(widget.fields, "state")
          case None => Lookup(args, "style") == Some(sm.GetStyle(t, "default"))
          case Some(VStr(st)) => Lookup(args, "style") == Some(sm.GetStyle(t, st))
          case Some(_) => true)
      && (DistinctKeys(widget.fields) ==> "type" !in Keys(args) && DistinctKeys(args))
  {
    var t := Lookup(widget.fields, "type").value.s;
    var named := Store(widget.fields, "name", VStr(key));
    StoreOther(widget.fields, "name", VStr(key), "state");
    var style := StyleArgument(sm, t, Lookup(named, "state")).value;
    assert TransformWidget(types, sm, key, widget) == TransformTyped(types, sm, key, widget.fields, t);
    WidgetArgsFacts(widget.fields, key, style);
  }

  /** Setting `name` and `style` and dropping `type` leaves both set and
      `type` gone. */
  lemma WidgetArgsFacts(fields: Fields, key: string, style: Value)
    requires "type" in Keys(fields)
    ensures var args := WidgetArgs(Store(fields, "name", VStr(key)), style);
      && Lookup(args, "name") == Some(VStr(key))
      && Lookup(args, "style") == Some(style)
      && (DistinctKeys(fields) ==> "type" !in Keys(args) && DistinctKeys(args))
  {
    var named := Store(fields, "name", VStr(key));
    var styled := Store(named, "style", style);
    StoreOther(named, "style", style, "name");
    RemoveOther(styled, "type", "name");
    RemoveOther(styled, "type", "style");
    assert "type" in Keys(styled);
  }

  /** An entry whose type is not registered makes the whole load fail: no UI comes back. */
  lemma UnregisteredTypeFails(types: map<string, WidgetClass>, sm: StyleManager, scene: Value, j: nat)
    requires WidgetEntries(scene).Some? && j < |WidgetEntries(scene).value|
    requires var w := WidgetEntries(scene).value[j].1;
      w.VObj? && Lookup(w.fields, "type").Some? && Lookup(w.fields, "type").value.VStr?
      && Lookup(w.fields, "type").value.s !in types
    ensures SceneToUi(types, sm, scene).ui.Err?
  {
    var ws := WidgetEntries(scene).value;
    var steps := Steps(types, sm, ws);
    assert steps[j].spec.Err?;
    assert FirstFailure(steps) <= j;
  }

  /** Loading edits the stored scene: after a successful load of a scene
      with at least one duplicate-free widget entry, loading the same stored
      scene again fails, because its first entry has lost its `type`. */
  lemma SecondLoadFails(types: map<string, WidgetClass>, sm: StyleManager, scene: Value)
    requires WidgetEntries(scene).Some? && |WidgetEntries(scene).value| > 0
    requires WidgetEntries(scene).value[0].1.VObj?
    requires DistinctKeys(WidgetEntries(scene).value[0].1.fields)
    requires SceneToUi(types, sm, scene).ui.Ok?
    ensures SceneToUi(types, sm, SceneToUi(types, sm, scene).scene).ui.Err?
  {
    var ws := WidgetEntries(scene).value;
    var steps := Steps(types, sm, ws);
    var entries := EntriesLoop(types, sm, ws).entries;
    EditedEntriesAt(ws, steps, FirstFailure(steps) + 1, 0);
    var stored := SceneToUi(types, sm, scene).scene;
    assert WidgetEntries(stored) == Some(entries);
    TransformWidgetArgs(types, sm, ws[0].0, ws[0].1);
    UntypedFirstFails(types, sm, stored);
  }

  /** A scene whose first widget entry has no `type` loads nothing. */
  lemma UntypedFirstFails(types: map<string, WidgetClass>, sm: StyleManager, scene: Value)
    requires WidgetEntries(scene).Some? && |WidgetEntries(scene).value| > 0
    requires var w := WidgetEntries(scene).value[0].1; w.VObj? && "type" !in Keys(w.fields)
    ensures SceneToUi(types, sm, scene).ui.Err?
  {
    var ws := WidgetEntries(scene).value;
    var steps := Steps(types, sm, ws);
    assert steps[0].spec.Err?;
  }

  /** An entry the loop has been through holds what its transform left. */
  lemma EditedEntriesAt(ws: Fields, steps: seq<WidgetStep>, n: nat, j: nat)
    requires |steps| == |ws| && j < n && j < |ws|
    ensures EditedEntries(ws, steps, n)[j] == (ws[j].0, steps[j].widget)
  {
  }

  class JSONUILoader {
    var scenes: Fields
    var widgetTypes: map<string, WidgetClass>
    var styleMgr: StyleManager

    /** The scene dict is a dict: no scene name is stored twice. */
    ghost predicate Valid()
      reads this
    {
      DistinctKeys(scenes)
    }

    /** A new loader knows the five built-in widget types and holds every scene of `folder`. */
    constructor (folder: seq<SceneFile>, styleMgr: StyleManager)
      ensures widgetTypes == DefaultWidgetTypes()
      ensures scenes == ScenesOf(folder)
      ensures this.styleMgr == styleMgr
      ensures Valid()
    {
      widgetTypes := DefaultWidgetTypes();
      this.styleMgr := styleMgr;
      scenes := [];
      new;
      ReloadScenes(folder);
    }

    /** Starts from an empty dict and reads every file of `folder` into it. */
    method ReloadScenes(folder: seq<SceneFile>)
      modifies this
      ensures scenes == ScenesOf(folder)
      ensures widgetTypes == old(widgetTypes) && styleMgr == old(styleMgr)
      ensures Valid()
    {
      scenes := [];
      var i := 0;
      while i < |folder|
        invariant 0 <= i <= |folder|
        invariant scenes == ScenesOf(folder[..i])
        invariant widgetTypes == old(widgetTypes) && styleMgr == old(styleMgr)
        invariant Valid()
      {
        assert folder[..i + 1][..i] == folder[..i];
        scenes := Store(scenes, folder[i].stem, folder[i].content);
        i := i + 1;
      }
      assert folder[..|folder|] == folder;
    }

    /** Adds or replaces the binding of one type name and leaves the others alone. */
    method RegisterWidgetType(widgetType: string, widgetClass: WidgetClass)
      modifies this
      ensures widgetTypes == old(widgetTypes)[widgetType := widgetClass]
      ensures scenes == old(scenes) && styleMgr == old(styleMgr)
    {
      widgetTypes := widgetTypes[widgetType := widgetClass];
    }

    /** `list(self.scenes.keys())`: every scene name, once, in the order read. */
    function GetSceneNames(): (names: seq<string>)
      reads this
      ensures |names| == |scenes|
      ensures forall i :: 0 <= i < |names| ==> names[i] == scenes[i].0
      ensures Valid() ==> forall i, j :: 0 <= i < j < |names| ==> names[i] != names[j]
    {
      var sc := scenes;
      DistinctKeysPairwise(sc);
      seq(|sc|, i requires 0 <= i < |sc| => sc[i].0)
    }

    /** `load_scene(name)`: a missing name raises; otherwise the stored scene
        is transformed, and since the transform edits the very dict the
        loader holds, the edited scene is what stays stored. */
    method LoadScene(name: string) returns (ui: Result<seq<WidgetSpec>>)
      requires Valid()
      modifies this
      ensures Valid()
      ensures widgetTypes == old(widgetTypes) && styleMgr == old(styleMgr)
      ensures name !in Keys(old(scenes)) ==> ui.Err? && scenes == old(scenes)
      ensures name in Keys(old(scenes)) ==>
        var load := SceneToUi(widgetTypes, styleMgr, Lookup(old(scenes), name).value);
        ui == load.ui && scenes == Store(old(scenes), name, load.scene)
    {
      var found := Lookup(scenes, name);
      if found.None? {
        ui := Err("KeyError: scene name");
        return;
      }
      var stored;
      ui, stored := TransformScene(found.value);
      scenes := Store(scenes, name, stored);
    }

    /** `_scene_to_ui(scene)`, returning besides its result the scene as the
        loop leaves it. */
    method TransformScene(scene: Value) returns (ui: Result<seq<WidgetSpec>>, stored: Value)
      ensures SceneLoad(ui, stored) == SceneToUi(widgetTypes, styleMgr, scene)
    {
      stored := scene;
      if !scene.VObj? {
        ui := Err("TypeError: scene is not a dict");
        return;
      }
      var wv := Lookup(scene.fields, "widgets");
      if wv.None? {
        ui := Err("KeyError: 'widgets'");
        return;
      }
      if !wv.value.VObj? {
        ui := Err("AttributeError: widgets has no items()");
        return;
      }
      var ws := wv.value.fields;
      var entries;
      ui, entries := TransformEntries(ws);
      stored := VObj(Store(scene.fields, "widgets", VObj(entries)));
    }

    /** The loop of `_scene_to_ui` over the widget entries `ws`: the calls
        made, or the error of the first entry that raises, and the entries
        as the loop leaves them. */
    method TransformEntries(ws: Fields) returns (ui: Result<seq<WidgetSpec>>, entries: Fields)
      ensures LoopResult(ui, entries) == EntriesLoop(widgetTypes, styleMgr, ws)
    {
      var types, sm := widgetTypes, styleMgr;
      ghost var steps := Steps(types, sm, ws);
      entries := ws;
      var made: seq<WidgetSpec> := [];
      var i := 0;
      assert entries == EditedEntries(ws, steps, 0);
      while i < |ws|
        invariant 0 <= i <= |ws| && i <= FirstFailure(steps)
        invariant made == BuiltSpecs(steps, i)
        invariant entries == EditedEntries(ws, steps, i)
      {
        var step := TransformWidget(types, sm, ws[i].0, ws[i].1);
        assert step == steps[i];
        EditedStep(ws, steps, i);
        entries := entries[i := (ws[i].0, step.widget)];
        if step.spec.Err? {
          FirstFailureAt(steps, i);
          ui := Err(step.spec.error);
          return;
        }
        FirstFailureNext(steps, i);
        made := made + [step.spec.value];
        i := i + 1;
      }
      EditedAll(ws, steps);
      ui := Ok(made);
    }
  }

  /** Past the last entry, going further edits nothing more. */
  lemma EditedAll(ws: Fields, steps: seq<WidgetStep>)
    requires |steps| == |ws|
    ensures EditedEntries(ws, steps, |ws|) == EditedEntries(ws, steps, |ws| + 1)
  {
  }

  /** A step that succeeds, at or before the first failure, is before it. */
  lemma FirstFailureNext(steps: seq<WidgetStep>, i: nat)
    requires i <= FirstFailure(steps) && i < |steps| && steps[i].spec.Ok?
    ensures i + 1 <= FirstFailure(steps)
    ensures BuiltSpecs(steps, i) + [steps[i].spec.value] == BuiltSpecs(steps, i + 1)
  {
  }

  /** A step that raises, at or before the first failure, is the first failure. */
  lemma FirstFailureAt(steps: seq<WidgetStep>, i: nat)
    requires i <= FirstFailure(steps) && i < |steps| && steps[i].spec.Err?
    ensures FirstFailure(steps) == i
  {
  }

  /** Going through one more entry edits that entry and no other. */
  lemma EditedStep(ws: Fields, steps: seq<WidgetStep>, i: nat)
    requires |steps| == |ws| && i < |ws|
    ensures EditedEntries(ws, steps, i)[i := (ws[i].0, steps[i].widget)] == EditedEntries(ws, steps, i + 1)
  {
  }
}
