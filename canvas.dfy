/** The canvas's pointer gestures (src/components/home/Canvas.tsx): moving an
    element by dragging it and resizing it by its corner handle. Each gesture is a
    record that a press fills in and a release switches off; while it is on, every
    pointer move rewrites the captured element from the captured origin. */
module Canvas {
  import opened Types
  import opened Strings
  import opened Helpers
  import opened Layout

  /** `movingRef.current`. */
  datatype MoveGesture = MoveGesture(active: bool, id: Option<string>, startX: int, startY: int, origX: int, origY: int)

  /** `resizeRef.current`. */
  datatype ResizeGesture = ResizeGesture(active: bool, id: Option<string>, startX: int, startY: int, origW: int, origH: int)

  /** A moved coordinate: the captured origin plus the pointer's travel, on the grid. */
  function MovedCoordinate(orig: int, start: int, client: int, g: Grid): (r: int)
    requires Snaps(g) ==> g.size > 0
    ensures !Snaps(g) ==> r == orig + (client - start)
    ensures Snaps(g) ==> r % g.size == 0 && -g.size < 2 * (r - (orig + (client - start))) <= g.size
  {
    Snap(orig + (client - start), g)
  }

  /** A resized side: the captured size plus the pointer's travel, on the grid,
      and never below 20. */
  function ResizedSide(orig: int, start: int, client: int, g: Grid): (r: int)
    requires Snaps(g) ==> g.size > 0
    ensures r >= 20
    ensures r == 20 || r == Snap(orig + (client - start), g)
    ensures Snap(orig + (client - start), g) >= 20 ==> r == Snap(orig + (client - start), g)
  {
    var s := Snap(orig + (client - start), g);
    if 20 > s then 20 else s
  }

  /** The size captured when a resize starts: `Number(width) || 100` and `Number(height) || 50`. */
  lemma ResizeCapture(p: Position)
    ensures p.width.Num? && p.width.n != 0 ==> NumberOr(p.width, 100) == p.width.n
    ensures p.height.Num? && p.height.n != 0 ==> NumberOr(p.height, 50) == p.height.n
    ensures p.width == Str("100%") || p.width == Str("auto") || p.width == Num(0) ==> NumberOr(p.width, 100) == 100
    ensures p.height == Str("100%") || p.height == Str("auto") || p.height == Num(0) ==> NumberOr(p.height, 50) == 50
  {
    CssStringsFallBack(100);
    CssStringsFallBack(50);
  }

  /** The canvas component's two gesture records, acting on the page state. */
  class Canvas {
    var moving: MoveGesture
    var resizing: ResizeGesture
    const store: Store

    /** A gesture that is on always knows which element it acts on. */
    ghost predicate Valid()
      reads this, store
    {
      && (moving.active ==> moving.id.Some?)
      && (resizing.active ==> resizing.id.Some?)
      && store.grid == InitialGrid
    }

    constructor (store: Store)
      requires store.grid == InitialGrid
      ensures Valid() && this.store == store
      ensures moving == MoveGesture(false, None, 0, 0, 0, 0)
      ensures resizing == ResizeGesture(false, None, 0, 0, 0, 0)
    {
      moving := MoveGesture(false, None, 0, 0, 0, 0);
      resizing := ResizeGesture(false, None, 0, 0, 0, 0);
      this.store := store;
    }

    /** `onElementMouseDown`: any button but the primary one changes nothing; the
        primary one selects the element and starts a move from its current point. */
    method ElementMouseDown(button: int, clientX: int, clientY: int, el: Element)
      requires Valid()
      modifies this, store
      ensures Valid() && resizing == old(resizing)
      ensures store.elements == old(store.elements) && store.canvasSize == old(store.canvasSize)
      ensures button != 0 ==> moving == old(moving) && store.selectedId == old(store.selectedId)
      ensures button == 0 ==>
        && store.selectedId == Some(el.id)
        && moving == MoveGesture(true, Some(el.id), clientX, clientY, el.position.x, el.position.y)
    {
      if button != 0 {
        return;
      }
      store.selectedId := Some(el.id);
      moving := MoveGesture(true, Some(el.id), clientX, clientY, el.position.x, el.position.y);
    }

    /** `onWindowMove`: while a move is on, the captured element goes to the
        captured origin plus the pointer's travel, snapped; otherwise nothing changes. */
    method WindowMove(clientX: int, clientY: int)
      requires Valid()
      modifies store
      ensures Valid()
      ensures store.selectedId == old(store.selectedId) && store.canvasSize == old(store.canvasSize)
      ensures !moving.active ==> store.elements == old(store.elements)
      ensures moving.active ==>
        store.elements == Retarget(old(store.elements), moving.id.value,
          MoveTo(MovedCoordinate(moving.origX, moving.startX, clientX, store.grid),
                 MovedCoordinate(moving.origY, moving.startY, clientY, store.grid)))
    {
      if !moving.active {
        return;
      }
      var d := moving;
      var dx := clientX - d.startX;
      var dy := clientY - d.startY;
      var x := Snap(d.origX + dx, store.grid);
      var y := Snap(d.origY + dy, store.grid);
      store.elements := Retarget(store.elements, d.id.value, MoveTo(x, y));
    }

    /** `onWindowUp`: the move is switched off, keeping what it captured. */
    method WindowUp()
      requires Valid()
      modifies this
      ensures Valid() && moving == old(moving).(active := false) && resizing == old(resizing)
    {
      moving := moving.(active := false);
    }

    /** `onResizeStart`: starts a resize of `el`, capturing its size as numbers
        (`Number(width) || 100`, `Number(height) || 50`). */
    method ResizeStart(clientX: int, clientY: int, el: Element)
      requires Valid()
      modifies this
      ensures Valid() && moving == old(moving)
      ensures resizing == ResizeGesture(true, Some(el.id), clientX, clientY,
        NumberOr(el.position.width, 100), NumberOr(el.position.height, 50))
    {
      resizing := ResizeGesture(true, Some(el.id), clientX, clientY,
        NumberOr(el.position.width, 100), NumberOr(el.position.height, 50));
    }

    /** `onResizeMove`: while a resize is on, the captured element gets the
        captured size plus the pointer's travel, snapped and at least 20. */
    method ResizeMove(clientX: int, clientY: int)
      requires Valid()
      modifies store
      ensures Valid()
      ensures store.selectedId == old(store.selectedId) && store.canvasSize == old(store.canvasSize)
      ensures !resizing.active ==> store.elements == old(store.elements)
      ensures resizing.active ==>
        store.elements == Retarget(old(store.elements), resizing.id.value,
          ResizeTo(Num(ResizedSide(resizing.origW, resizing.startX, clientX, store.grid)),
                   Num(ResizedSide(resizing.origH, resizing.startY, clientY, store.grid))))
    {
      if !resizing.active {
        return;
      }
      var d := resizing;
      var dx := clientX - d.startX;
      var dy := clientY - d.startY;
      var nw := Snap(d.origW + dx, store.grid);
      if nw < 20 {
        nw := 20;
      }
      var nh := Snap(d.origH + dy, store.grid);
      if nh < 20 {
        nh := 20;
      }
      store.elements := Retarget(store.elements, d.id.value, ResizeTo(Num(nw), Num(nh)));
    }

    /** `onResizeEnd`: the resize is switched off. */
    method ResizeEnd()
      requires Valid()
      modifies this
      ensures Valid() && resizing == old(resizing).(active := false) && moving == old(moving)
    {
      resizing := resizing.(active := false);
    }

    /** The card's delete button: every element with that id goes, and the
        selection is cleared only if it was that id. */
    method DeleteCard(id: string)
      requires Valid()
      modifies store
      ensures Valid() && store.canvasSize == old(store.canvasSize)
      ensures store.elements == Remove(old(store.elements), id)
      ensures old(store.selectedId) == Some(id) ==> store.selectedId == None
      ensures old(store.selectedId) != Some(id) ==> store.selectedId == old(store.selectedId)
    {
      store.elements := Remove(store.elements, id);
      if store.selectedId == Some(id) {
        store.selectedId := None;
      }
    }

    /** A click on the canvas background clears the selection. */
    method BackgroundClick()
      requires Valid()
      modifies store
      ensures Valid() && store.selectedId == None
      ensures store.elements == old(store.elements) && store.canvasSize == old(store.canvasSize)
    {
      store.selectedId := None;
    }

    /** A click on an element selects it. */
    method ElementClick(el: Element)
      requires Valid()
      modifies store
      ensures Valid() && store.selectedId == Some(el.id)
      ensures store.elements == old(store.elements) && store.canvasSize == old(store.canvasSize)
    {
      store.selectedId := Some(el.id);
    }
  }

  /** A move only relocates the captured element: every element keeps its id,
      type, content, size and z-index, and the others are untouched. */
  lemma MoveOnlyRelocates(els: seq<Element>, id: string, x: int, y: int)
    ensures |Retarget(els, id, MoveTo(x, y))| == |els|
    ensures forall i :: 0 <= i < |els| ==>
      var e, m := els[i], Retarget(els, id, MoveTo(x, y))[i];
      && m.id == e.id && m.kind == e.kind && m.content == e.content && m.responsive == e.responsive
      && m.position.width == e.position.width && m.position.height == e.position.height
      && m.position.zIndex == e.position.zIndex
      && (e.id == id ==> m.position.x == x && m.position.y == y)
      && (e.id != id ==> m == e)
  {
    RetargetOnlyTarget(els, id, MoveTo(x, y));
  }

  /** A resize only changes the captured element's width and height, and every
      size it sets is a number of at least 20. */
  lemma ResizeOnlyResizes(els: seq<Element>, id: string, origW: int, origH: int, startX: int, startY: int,
                          clientX: int, clientY: int, g: Grid)
    requires Snaps(g) ==> g.size > 0
    ensures var r := Retarget(els, id, ResizeTo(Num(ResizedSide(origW, startX, clientX, g)),
                                                Num(ResizedSide(origH, startY, clientY, g))));
      && |r| == |els|
      && forall i :: 0 <= i < |els| ==>
           && r[i].id == els[i].id && r[i].kind == els[i].kind && r[i].content == els[i].content
           && r[i].position.x == els[i].position.x && r[i].position.y == els[i].position.y
           && r[i].position.zIndex == els[i].position.zIndex
           && (els[i].id == id ==>
                 r[i].position.width.Num? && r[i].position.width.n >= 20
                 && r[i].position.height.Num? && r[i].position.height.n >= 20)
           && (els[i].id != id ==> r[i] == els[i])
  {
    RetargetOnlyTarget(els, id, ResizeTo(Num(ResizedSide(origW, startX, clientX, g)),
                                        Num(ResizedSide(origH, startY, clientY, g))));
  }

  /** Dropping a card at (103, 207) on a fresh page places it at (100, 210), on top. */
  method DropCard(counters: IdCounters) returns (store: Store, el: Element)
    requires counters.Valid()
    modifies counters
    ensures fresh(store) && store.Valid() && store.counters == counters
    ensures |store.elements| > 0 && el == store.elements[|store.elements| - 1]
    ensures el.position.x == 100 && el.position.y == 210
    ensures el.position.width == Num(300) && el.position.height == Num(200)
  {
    store := new Store(counters);
    store.OnCanvasDrop("card", 103, 207);
    SnapHalves();
    el := store.elements[|store.elements| - 1];
  }

  /** Dragging the dropped card 23 right and 6 up puts it at (120, 200); a move
      after the release changes nothing. */
  method DropAndDrag(counters: IdCounters) returns (x: int, y: int)
    requires counters.Valid()
    modifies counters
    ensures x == 120 && y == 200
  {
    var store, el := DropCard(counters);
    var canvas := new Canvas(store);
    canvas.ElementMouseDown(0, 500, 500, el);
    canvas.WindowMove(523, 494);
    canvas.WindowUp();
    canvas.WindowMove(700, 700);
    SnapHalves();
    RetargetOnlyTarget(canvas.store.elements, el.id, MoveTo(120, 200));
    x := store.elements[|store.elements| - 1].position.x;
    y := store.elements[|store.elements| - 1].position.y;
  }

  /** Shrinking the dropped card by dragging its handle far up and left leaves it
      20 by 20; a move after the release changes nothing. */
  method DropAndShrink(counters: IdCounters) returns (w: Dim, h: Dim)
    requires counters.Valid()
    modifies counters
    ensures w == Num(20) && h == Num(20)
  {
    var store, el := DropCard(counters);
    var canvas := new Canvas(store);
    canvas.ResizeStart(400, 400, el);
    canvas.ResizeMove(0, 0);
    canvas.ResizeEnd();
    canvas.ResizeMove(900, 900);
    RetargetOnlyTarget(canvas.store.elements, el.id, ResizeTo(Num(20), Num(20)));
    w := store.elements[|store.elements| - 1].position.width;
    h := store.elements[|store.elements| - 1].position.height;
  }
}
