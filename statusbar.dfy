/**
  The status bar of the input method panel: the registry of the properties
  the input method publishes (`m_objectPaths`, kept index by index beside the
  items of the bar's layout) and the right-button drag that moves the bar.
  A property arrives as the string `objectPath:name:iconName:description`.
 */
module StatusBar {
  import opened Geometry
  import opened Strings
  import opened Options

  // ---------------------------------------------------------------------------
  // Properties.

  datatype Property = Property(objectPath: string, name: string, iconName: string, description: string)

  /** `extractProperty`: the first four `:`-separated fields, in order.  Fields
      after the fourth are ignored; fewer than four fields is outside what the
      panel expects (`QStringList::at` would fail). */
  function ExtractProperty(str: string): (p: Property)
    requires |Split(str, ':')| >= 4
    ensures ':' !in p.objectPath && ':' !in p.name && ':' !in p.iconName && ':' !in p.description
  {
    var list := Split(str, ':');
    Property(list[0], list[1], list[2], list[3])
  }

  /** The string form of a property, with any further fields after it. */
  function PropertyString(p: Property, rest: seq<string>): string {
    Join([p.objectPath, p.name, p.iconName, p.description] + rest, ':')
  }

  /** A property whose fields hold no `:` is read back from its string form,
      whatever fields follow it. */
  lemma ExtractPropertyString(p: Property, rest: seq<string>)
    requires ':' !in p.objectPath && ':' !in p.name && ':' !in p.iconName && ':' !in p.description
    requires forall i :: 0 <= i < |rest| ==> ':' !in rest[i]
    ensures |Split(PropertyString(p, rest), ':')| >= 4
    ensures ExtractProperty(PropertyString(p, rest)) == p
  {
    var parts := [p.objectPath, p.name, p.iconName, p.description] + rest;
    SplitJoin(parts, ':');
  }

  /** The first position of `x` in `s`, or -1: `QList::indexOf`. */
  function IndexOf<T(==)>(s: seq<T>, x: T): (r: int)
    ensures -1 <= r < |s|
    ensures r == -1 <==> x !in s
    ensures 0 <= r ==> s[r] == x && forall j :: 0 <= j < r ==> s[j] != x
  {
    if |s| == 0 then -1
    else if s[0] == x then 0
    else
      var r := IndexOf(s[1..], x);
      if r == -1 then -1 else r + 1
  }

  predicate NoDuplicates<T(==)>(s: seq<T>) {
    forall i, j :: 0 <= i < j < |s| ==> s[i] != s[j]
  }

  /** In a list without duplicates the position of an element is its only position. */
  lemma IndexOfUnique<T>(s: seq<T>, i: int)
    requires NoDuplicates(s) && 0 <= i < |s|
    ensures IndexOf(s, s[i]) == i
  {
  }

  // ---------------------------------------------------------------------------
  // The registry as a value.

  /** A property widget as the bar shows it: what `setProperty` gave it. */
  datatype PropertyWidget = PropertyWidget(name: string, iconName: string, description: string)

  /** A new `PropertyWidget`, before its first `setProperty`. */
  const NewWidget := PropertyWidget("", "", "")

  /** An item of the bar's layout: its widget, the largest size it accepts and the place it was given. */
  datatype LayoutItem = LayoutItem(widget: PropertyWidget, maximumSize: Size, geometry: Rect)

  /** The registry: the object paths, the layout items beside them, and the
      number of times the bar has recomputed its size (`updateSize`). */
  datatype Registry = Registry(paths: seq<string>, items: seq<LayoutItem>, sizeUpdates: nat)

  /** Paths and items are kept index by index, and no path is registered twice. */
  predicate ValidRegistry(r: Registry) {
    |r.paths| == |r.items| && NoDuplicates(r.paths)
  }

  /** `PropertyWidget::setProperty`. */
  function SetProperty(p: Property): PropertyWidget {
    PropertyWidget(p.name, p.iconName, p.description)
  }

  /** One pass of the loop of `slotRegisterProperties`: an unknown path is appended
      with a new item of the given maximum size and of the given geometry, the one a
      freshly constructed widget has; then the item at the path's
      index is updated, and the size is recomputed when that index is the last. */
  function RegisterOne(r: Registry, p: Property, widgetSize: Size, widgetGeometry: Rect): (r': Registry)
    requires ValidRegistry(r)
    ensures ValidRegistry(r')
  {
    var index := IndexOf(r.paths, p.objectPath);
    var r1 := if index == -1
      then Registry(r.paths + [p.objectPath], r.items + [LayoutItem(NewWidget, widgetSize, widgetGeometry)], r.sizeUpdates)
      else r;
    var i := if index == -1 then |r1.paths| - 1 else index;
    assert NoDuplicates(r1.paths);
    Registry(r1.paths, r1.items[i := r1.items[i].(widget := SetProperty(p))],
             if i == |r1.paths| - 1 then r1.sizeUpdates + 1 else r1.sizeUpdates)
  }

  /** `slotRegisterProperties` on a list of property strings. */
  function RegisterAll(r: Registry, props: seq<string>, widgetSize: Size, widgetGeometry: Rect): (r': Registry)
    requires ValidRegistry(r)
    requires forall i :: 0 <= i < |props| ==> |Split(props[i], ':')| >= 4
    ensures ValidRegistry(r')
  {
    if |props| == 0 then r
    else RegisterOne(RegisterAll(r, props[..|props| - 1], widgetSize, widgetGeometry), ExtractProperty(props[|props| - 1]), widgetSize, widgetGeometry)
  }

  /** Registering a property: an unknown path is appended at the end with a new
      item showing the property; a known path keeps its index and only its item's
      widget changes; every other entry is kept; the size is recomputed
      exactly when the entry is the last one. */
  lemma RegisterOneSpec(r: Registry, p: Property, widgetSize: Size, widgetGeometry: Rect)
    requires ValidRegistry(r)
    ensures var r' := RegisterOne(r, p, widgetSize, widgetGeometry);
      var i := IndexOf(r'.paths, p.objectPath);
      && 0 <= i < |r'.paths|
      && (p.objectPath !in r.paths ==>
            && r'.paths == r.paths + [p.objectPath]
            && r'.items == r.items + [LayoutItem(SetProperty(p), widgetSize, widgetGeometry)])
      && (p.objectPath in r.paths ==>
            && r'.paths == r.paths && i == IndexOf(r.paths, p.objectPath)
            && r'.items == r.items[i := r.items[i].(widget := SetProperty(p))])
      && r'.sizeUpdates == r.sizeUpdates + (if i == |r'.paths| - 1 then 1 else 0)
  {
    var index := IndexOf(r.paths, p.objectPath);
    var r' := RegisterOne(r, p, widgetSize, widgetGeometry);
    if index == -1 {
      var paths := r.paths + [p.objectPath];
      assert NoDuplicates(paths);
      IndexOfUnique(paths, |paths| - 1);
    }
  }

  /** Registration only appends: the paths and the items registered before keep
      their positions and paths, and every registered path ends up in the registry. */
  lemma {:induction false} RegisterAllKeeps(r: Registry, props: seq<string>, widgetSize: Size, widgetGeometry: Rect)
    requires ValidRegistry(r)
    requires forall i :: 0 <= i < |props| ==> |Split(props[i], ':')| >= 4
    ensures var r' := RegisterAll(r, props, widgetSize, widgetGeometry);
      && r.paths <= r'.paths
      && (forall i :: 0 <= i < |props| ==> ExtractProperty(props[i]).objectPath in r'.paths)
  {
    if |props| > 0 {
      var init := props[..|props| - 1];
      RegisterAllKeeps(r, init, widgetSize, widgetGeometry);
      var mid := RegisterAll(r, init, widgetSize, widgetGeometry);
      var p := ExtractProperty(props[|props| - 1]);
      RegisterOneSpec(mid, p, widgetSize, widgetGeometry);
      forall i | 0 <= i < |props|
        ensures ExtractProperty(props[i]).objectPath in RegisterAll(r, props, widgetSize, widgetGeometry).paths
      {
        if i < |props| - 1 {
          assert props[i] == init[i];
        }
      }
    }
  }

  /** `slotUpdateProperty`: only the item of a known path changes. */
  function UpdateProperty(r: Registry, p: Property): (r': Registry)
    requires ValidRegistry(r)
    ensures ValidRegistry(r')
    ensures p.objectPath !in r.paths ==> r' == r
    ensures r'.paths == r.paths && r'.sizeUpdates == r.sizeUpdates && |r'.items| == |r.items|
    ensures forall j :: 0 <= j < |r.items| && r.paths[j] != p.objectPath ==> r'.items[j] == r.items[j]
    ensures forall j :: 0 <= j < |r.items| && r.paths[j] == p.objectPath ==> r'.items[j] == r.items[j].(widget := SetProperty(p))
  {
    var index := IndexOf(r.paths, p.objectPath);
    if index == -1 then r
    else r.(items := r.items[index := r.items[index].(widget := SetProperty(p))])
  }

  /** `slotRemoveProperty`: the entry of a known path is taken out of both lists. */
  function RemoveProperty(r: Registry, p: Property): (r': Registry)
    requires ValidRegistry(r)
    ensures ValidRegistry(r')
    ensures p.objectPath !in r.paths ==> r' == r
    ensures p.objectPath !in r'.paths
  {
    var index := IndexOf(r.paths, p.objectPath);
    if index == -1 then r
    else
      var r' := Registry(r.paths[..index] + r.paths[index + 1..], r.items[..index] + r.items[index + 1..], r.sizeUpdates);
      assert forall j :: 0 <= j < |r'.paths| ==> r'.paths[j] == (if j < index then r.paths[j] else r.paths[j + 1]);
      r'
  }

  /** Removing a known path takes out exactly its entry; the others keep their order. */
  lemma RemoveKeepsOrder(r: Registry, p: Property)
    requires ValidRegistry(r) && p.objectPath in r.paths
    ensures var r', i := RemoveProperty(r, p), IndexOf(r.paths, p.objectPath);
      && r'.paths == r.paths[..i] + r.paths[i + 1..]
      && r'.items == r.items[..i] + r.items[i + 1..]
      && |r'.paths| == |r.paths| - 1
  {
  }

  /** Registering a new path and then removing it gives back the paths and items
      there were before. */
  lemma RegisterThenRemove(r: Registry, p: Property, widgetSize: Size, widgetGeometry: Rect)
    requires ValidRegistry(r) && p.objectPath !in r.paths
    ensures var r' := RemoveProperty(RegisterOne(r, p, widgetSize, widgetGeometry), p);
      r'.paths == r.paths && r'.items == r.items
  {
    RegisterOneSpec(r, p, widgetSize, widgetGeometry);
    var r1 := RegisterOne(r, p, widgetSize, widgetGeometry);
    IndexOfUnique(r1.paths, |r.paths|);
    assert r1.paths[..|r.paths|] == r.paths;
    assert r1.items[..|r.items|] == r.items;
  }

  // ---------------------------------------------------------------------------
  // Dragging.

  datatype MouseButton = LeftButton | RightButton | MidButton

  /** The events the bar filters, for itself and for its property widgets: a press
      at a position local to the widget pressed (`widgetPos` is `None` for the bar
      itself and the widget's place in the bar otherwise), a move at a position
      on the screen, and anything else. */
  datatype Event =
    | Press(button: MouseButton, pos: Point, widgetPos: Option<Point>)
    | Move(globalPos: Point)
    | OtherEvent

  /** `m_moving`, `m_pointPos` and the bar's position on the screen. */
  datatype DragState = DragState(moving: bool, pointPos: Point, windowPos: Point)

  /** `QWidget::mapToParent`: a local position moved by the widget's place. */
  function MapToParent(widgetPos: Option<Point>, pos: Point): Point {
    match widgetPos
    case None => pos
    case Some(o) => Point(pos.x + o.x, pos.y + o.y)
  }

  /** `eventFilter`: the new state and whether the event was consumed. */
  function Filter(st: DragState, ev: Event): (DragState, bool) {
    match ev
    case Press(button, pos, widgetPos) =>
      if button == RightButton then (st.(moving := true, pointPos := MapToParent(widgetPos, pos)), true)
      else (st.(moving := false), false)
    case Move(g) =>
      if st.moving then (st.(windowPos := Point(g.x - st.pointPos.x, g.y - st.pointPos.y)), true)
      else (st, false)
    case OtherEvent => (st, false)
  }

  /** The state after a sequence of events. */
  function FilterAll(st: DragState, evs: seq<Event>): DragState
    decreases |evs|
  {
    if |evs| == 0 then st else FilterAll(Filter(st, evs[0]).0, evs[1..])
  }

  predicate AllMoves(evs: seq<Event>) {
    forall i :: 0 <= i < |evs| ==> evs[i].Move?
  }

  /** After a right-button press, the bar follows the mouse: every move is
      consumed and leaves the bar at the mouse position less the point
      grabbed, so the grabbed point stays under the mouse. */
  lemma {:induction false} DragFollowsMouse(st: DragState, pos: Point, widgetPos: Option<Point>, moves: seq<Event>)
    requires AllMoves(moves) && |moves| > 0
    ensures var grab := MapToParent(widgetPos, pos);
      var last := moves[|moves| - 1].globalPos;
      var st' := FilterAll(Filter(st, Press(RightButton, pos, widgetPos)).0, moves);
      st'.moving && st'.pointPos == grab && st'.windowPos == Point(last.x - grab.x, last.y - grab.y)
  {
    var st1 := Filter(st, Press(RightButton, pos, widgetPos)).0;
    DragSteps(st1, moves);
  }

  /** Moves while dragging keep the grab and put the bar under the last mouse position. */
  lemma {:induction false} DragSteps(st: DragState, moves: seq<Event>)
    requires st.moving && AllMoves(moves) && |moves| > 0
    ensures var last := moves[|moves| - 1].globalPos;
      var st' := FilterAll(st, moves);
      st'.moving && st'.pointPos == st.pointPos && st'.windowPos == Point(last.x - st.pointPos.x, last.y - st.pointPos.y)
    decreases |moves|
  {
    var st1 := Filter(st, moves[0]).0;
    if |moves| > 1 {
      assert AllMoves(moves[1..]) by {
        forall i | 0 <= i < |moves[1..]| ensures moves[1..][i].Move? {
          assert moves[1..][i] == moves[i + 1];
        }
      }
      DragSteps(st1, moves[1..]);
      assert moves[1..][|moves[1..]| - 1] == moves[|moves| - 1];
    }
  }

  /** A press of another button ends a drag: the moves after it are not consumed
      and leave the bar where it is. */
  lemma {:induction false} OtherPressStopsDrag(st: DragState, button: MouseButton, pos: Point, widgetPos: Option<Point>, moves: seq<Event>)
    requires button != RightButton && AllMoves(moves)
    ensures var st1 := Filter(st, Press(button, pos, widgetPos));
      !st1.1 && FilterAll(st1.0, moves) == st1.0
      && st1.0.windowPos == st.windowPos
  {
    var st1 := Filter(st, Press(button, pos, widgetPos)).0;
    StillSteps(st1, moves);
  }

  /** Moves while not dragging change nothing. */
  lemma {:induction false} StillSteps(st: DragState, moves: seq<Event>)
    requires !st.moving && AllMoves(moves)
    ensures FilterAll(st, moves) == st
    decreases |moves|
  {
    if |moves| > 0 {
      assert AllMoves(moves[1..]) by {
        forall i | 0 <= i < |moves[1..]| ensures moves[1..][i].Move? {
          assert moves[1..][i] == moves[i + 1];
        }
      }
      StillSteps(st, moves[1..]);
    }
  }

  // ---------------------------------------------------------------------------
  // The bar.

  /** `StatusBarLayout`: the items of the bar. */
  class StatusBarLayout {
    var items: seq<LayoutItem>

    constructor()
      ensures items == []
    {
      items := [];
    }
  }

  /** `StatusBar`: the registry of object paths beside the layout, the drag state,
      the bar's position and the count of size recomputations. */
  class Bar {
    var objectPaths: seq<string>
    const layout: StatusBarLayout
    var moving: bool
    var pointPos: Point
    var windowPos: Point
    var sizeUpdates: nat
    /** The maximum size a new property widget reports. */
    const widgetSize: Size
    /** The geometry a new property widget has before the bar is laid out. */
    const widgetGeometry: Rect

    ghost function State(): Registry
      reads this, layout
    {
      Registry(objectPaths, layout.items, sizeUpdates)
    }

    ghost predicate Valid()
      reads this, layout
    {
      ValidRegistry(State())
    }

    constructor(widgetSize: Size, widgetGeometry: Rect, windowPos: Point)
      ensures Valid() && fresh(layout)
      ensures objectPaths == [] && layout.items == [] && sizeUpdates == 0
      ensures !moving && this.windowPos == windowPos
      ensures this.widgetSize == widgetSize && this.widgetGeometry == widgetGeometry
    {
      objectPaths := [];
      layout := new StatusBarLayout();
      moving := false;
      pointPos := Point(0, 0);
      this.windowPos := windowPos;
      sizeUpdates := 0;
      this.widgetSize := widgetSize;
      this.widgetGeometry := widgetGeometry;
    }

    /** `slotRegisterProperties`. */
    method RegisterProperties(props: seq<string>)
      requires Valid()
      requires forall i :: 0 <= i < |props| ==> |Split(props[i], ':')| >= 4
      modifies this, layout
      ensures Valid()
      ensures State() == RegisterAll(old(State()), props, widgetSize, widgetGeometry)
      ensures moving == old(moving) && pointPos == old(pointPos) && windowPos == old(windowPos)
    {
      var k := 0;
      while k < |props|
        invariant 0 <= k <= |props|
        invariant Valid()
        invariant State() == RegisterAll(old(State()), props[..k], widgetSize, widgetGeometry)
        invariant moving == old(moving) && pointPos == old(pointPos) && windowPos == old(windowPos)
      {
        RegisterPropertyString(props[k]);
        assert props[..k + 1][..k] == props[..k];
        k := k + 1;
      }
      assert props[..k] == props;
    }

    /** One pass of the loop of `slotRegisterProperties`. */
    method RegisterPropertyString(prop: string)
      requires Valid() && |Split(prop, ':')| >= 4
      modifies this, layout
      ensures Valid()
      ensures State() == RegisterOne(old(State()), ExtractProperty(prop), widgetSize, widgetGeometry)
      ensures moving == old(moving) && pointPos == old(pointPos) && windowPos == old(windowPos)
    {
      var p := ExtractProperty(prop);
      var index := IndexOf(objectPaths, p.objectPath);
      if index == -1 {
        objectPaths := objectPaths + [p.objectPath];
        layout.items := layout.items + [LayoutItem(NewWidget, widgetSize, widgetGeometry)];
        index := |objectPaths| - 1;
      }
      var item := layout.items[index];
      layout.items := layout.items[index := item.(widget := SetProperty(p))];
      if index == |objectPaths| - 1 {
        sizeUpdates := sizeUpdates + 1;
      }
    }

    /** `slotUpdateProperty`. */
    method UpdatePropertyString(prop: string)
      requires Valid() && |Split(prop, ':')| >= 4
      modifies layout
      ensures Valid()
      ensures State() == UpdateProperty(old(State()), ExtractProperty(prop))
    {
      var p := ExtractProperty(prop);
      var index := IndexOf(objectPaths, p.objectPath);
      if index == -1 {
        return;
      }
      var item := layout.items[index];
      layout.items := layout.items[index := item.(widget := SetProperty(p))];
    }

    /** `slotRemoveProperty`. */
    method RemovePropertyString(prop: string)
      requires Valid() && |Split(prop, ':')| >= 4
      modifies this, layout
      ensures Valid()
      ensures State() == RemoveProperty(old(State()), ExtractProperty(prop))
      ensures moving == old(moving) && pointPos == old(pointPos) && windowPos == old(windowPos)
    {
      var p := ExtractProperty(prop);
      var index := IndexOf(objectPaths, p.objectPath);
      if index == -1 {
        return;
      }
      objectPaths := objectPaths[..index] + objectPaths[index + 1..];
      layout.items := layout.items[..index] + layout.items[index + 1..];
    }

    /** `eventFilter`. */
    method EventFilter(ev: Event) returns (consumed: bool)
      modifies this
      ensures (DragState(moving, pointPos, windowPos), consumed) == Filter(old(DragState(moving, pointPos, windowPos)), ev)
      ensures objectPaths == old(objectPaths) && sizeUpdates == old(sizeUpdates)
    {
      match ev {
        case Press(button, pos, widgetPos) =>
          if button == RightButton {
            pointPos := MapToParent(widgetPos, pos);
            moving := true;
            return true;
          }
          moving := false;
          return false;
        case Move(g) =>
          if moving {
            windowPos := Point(g.x - pointPos.x, g.y - pointPos.y);
            return true;
          }
          return false;
        case OtherEvent =>
          return false;
      }
    }
  }
}
