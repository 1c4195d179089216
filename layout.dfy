/** The builder's page state (src/components/layout/index.tsx): the element list,
    the canvas size, the grid and the selection, with the operations that create,
    drop, export and load elements. The list edits the canvas and the inspector
    make are defined here too, since they all rewrite this one list. */
module Layout {
  import opened Types
  import opened Strings
  import opened Helpers
  import opened Validation

  const InitialCanvas := CanvasSize(1200, 800)
  const InitialGrid := Grid(true, 10, true)

  // ---------------------------------------------------------------------------
  // Rewriting one element of the list

  /** The position edits made to one element: a move, a resize, a new z-index,
      or one field set from the inspector. */
  datatype Change =
    | MoveTo(x: int, y: int)
    | ResizeTo(width: Dim, height: Dim)
    | SetZ(z: int)
    | SetX(x: int)
    | SetY(y: int)
    | SetWidth(width: Dim)
    | SetHeight(height: Dim)

  function Applied(p: Position, c: Change): Position
  {
    match c
    case MoveTo(x, y) => p.(x := x, y := y)
    case ResizeTo(w, h) => p.(width := w, height := h)
    case SetZ(z) => p.(zIndex := z)
    case SetX(x) => p.(x := x)
    case SetY(y) => p.(y := y)
    case SetWidth(w) => p.(width := w)
    case SetHeight(h) => p.(height := h)
  }

  /** `prev.map(el => el.id === id ? { ...el, position: ... } : el)`. */
  function Retarget(els: seq<Element>, id: string, c: Change): (r: seq<Element>)
    ensures |r| == |els|
  {
    seq(|els|, i requires 0 <= i < |els| =>
      if els[i].id == id then els[i].(position := Applied(els[i].position, c)) else els[i])
  }

  /** Only elements carrying `id` change, and of those only the position, as the
      change says; the order and every other element stay as they were. */
  lemma RetargetOnlyTarget(els: seq<Element>, id: string, c: Change)
    ensures |Retarget(els, id, c)| == |els|
    ensures forall i :: 0 <= i < |els| && els[i].id != id ==> Retarget(els, id, c)[i] == els[i]
    ensures forall i :: 0 <= i < |els| && els[i].id == id ==>
      Retarget(els, id, c)[i] == els[i].(position := Applied(els[i].position, c))
  {
  }

  /** A list without an element carrying `id` is left as it is. */
  lemma RetargetAbsent(els: seq<Element>, id: string, c: Change)
    requires forall i :: 0 <= i < |els| ==> els[i].id != id
    ensures Retarget(els, id, c) == els
  {
    RetargetOnlyTarget(els, id, c);
  }

  /** `prev.filter(x => x.id !== id)`. */
  function Remove(els: seq<Element>, id: string): (r: seq<Element>)
    ensures |r| <= |els|
  {
    if els == [] then []
    else
      var last := els[|els| - 1];
      Remove(els[..|els| - 1], id) + (if last.id == id then [] else [last])
  }

  /** Removing `id` keeps exactly the elements that do not carry it. */
  lemma {:induction false} RemoveKeepsOthers(els: seq<Element>, id: string)
    ensures forall e :: e in Remove(els, id) <==> e in els && e.id != id
  {
    if els != [] {
      RemoveKeepsOthers(els[..|els| - 1], id);
      assert els == els[..|els| - 1] + [els[|els| - 1]];
    }
  }

  /** The filter works element by element, keeping order and repetitions: the
      list's survivors are those of its first part followed by those of the rest. */
  lemma {:induction false} RemoveAppend(a: seq<Element>, b: seq<Element>, id: string)
    ensures Remove(a + b, id) == Remove(a, id) + Remove(b, id)
  {
    if b == [] {
      assert a + b == a;
    } else {
      var init, last := b[..|b| - 1], b[|b| - 1];
      assert b == init + [last];
      assert a + b == (a + init) + [last];
      RemoveAppend(a, init, id);
      RemoveSnoc(a + init, last, id);
      RemoveSnoc(init, last, id);
    }
  }

  lemma RemoveSnoc(s: seq<Element>, e: Element, id: string)
    ensures Remove(s + [e], id) == Remove(s, id) + Remove([e], id)
  {
    assert (s + [e])[..|s|] == s;
    assert [e][..0] == [];
  }

  lemma RemoveOne(e: Element, id: string)
    ensures Remove([e], id) == if e.id == id then [] else [e]
  {
    assert [e][..0] == [];
  }

  /** Removing an id no element carries changes nothing. */
  lemma {:induction false} RemoveAbsent(els: seq<Element>, id: string)
    requires forall i :: 0 <= i < |els| ==> els[i].id != id
    ensures Remove(els, id) == els
  {
    if els != [] {
      RemoveAbsent(els[..|els| - 1], id);
      assert els == els[..|els| - 1] + [els[|els| - 1]];
    }
  }

  // ---------------------------------------------------------------------------
  // createElementFromTemplate

  /** The default width: a number as it is, "100%" as the canvas width, any other text 300. */
  function ResolveWidth(d: Dim, canvasWidth: int): int
  {
    match d
    case Num(n) => n
    case Str(s) => if s == "100%" then canvasWidth else 300
  }

  /** The default height: a number as it is, "auto" as 100, any other text kept. */
  function ResolveHeight(d: Dim): Dim
  {
    match d
    case Num(n) => d
    case Str(s) => if s == "auto" then Num(100) else d
  }

  /** The z-index a new element gets: one above the highest, or 1 on an empty canvas. */
  function NextZ(els: seq<Element>): (z: int)
    ensures els == [] ==> z == 1
    ensures forall i :: 0 <= i < |els| ==> els[i].position.zIndex < z
    ensures els != [] ==> exists i :: 0 <= i < |els| && els[i].position.zIndex == z - 1
  {
    if |els| > 0 then
      var zs := ZsOf(els);
      var m := MaxOf(zs);
      assert exists i :: 0 <= i < |zs| && zs[i] == m;
      MaxOf(zs) + 1
    else 1
  }

  /** `createElementFromTemplate(type, x, y)` given the id `uidFor` handed out. */
  function Instantiate(t: ElementType, id: string, x: int, y: int, canvasWidth: int, els: seq<Element>): Element
  {
    var tpl := TemplateOf(t);
    Element(id, t.Tag(), tpl.content,
      Position(x, y, Num(ResolveWidth(tpl.defaultWidth, canvasWidth)), ResolveHeight(tpl.defaultHeight),
        NextZ(els), None, None),
      None)
  }

  /** What a new element looks like, type by type: exactly the given point, the
      template's content, the resolved default size and a z-index above every
      existing element. */
  lemma InstantiateShape(t: ElementType, id: string, x: int, y: int, canvasWidth: int, els: seq<Element>)
    ensures var e := Instantiate(t, id, x, y, canvasWidth, els);
      && e.id == id && e.kind == t.Tag() && LookupTemplate(e.kind) == Some(t)
      && e.content == TemplateOf(t).content
      && e.position.x == x && e.position.y == y
      && e.position.width == (match t
                                case Header => Num(canvasWidth)
                                case Footer => Num(canvasWidth)
                                case Slider => Num(canvasWidth)
                                case Card => Num(300)
                                case TextContent => Num(650))
      && e.position.height == (match t
                                 case Header => Num(80)
                                 case Footer => Num(60)
                                 case Slider => Num(400)
                                 case Card => Num(200)
                                 case TextContent => Num(100))
      && (els == [] ==> e.position.zIndex == 1)
      && (forall i :: 0 <= i < |els| ==> els[i].position.zIndex < e.position.zIndex)
  {
    LookupTag(t);
  }

  /** The width and height rules on any default size. */
  lemma ResolveRules(d: Dim, canvasWidth: int)
    ensures d.Num? ==> ResolveWidth(d, canvasWidth) == d.n && ResolveHeight(d) == d
    ensures d == Str("100%") ==> ResolveWidth(d, canvasWidth) == canvasWidth
    ensures d.Str? && d.s != "100%" ==> ResolveWidth(d, canvasWidth) == 300
    ensures d == Str("auto") ==> ResolveHeight(d) == Num(100)
    ensures d.Str? && d.s != "auto" ==> ResolveHeight(d) == d
  {
  }

  // ---------------------------------------------------------------------------
  // The initial page

  /** The five elements the page starts with, given the ids handed out for them. */
  function InitialElements(header: string, card1: string, card2: string, text: string, footer: string): seq<Element>
  {
    [ Element(header, "header", NoContent.(text := Some("Site Title")),
        Position(0, 0, Str("100%"), Num(80), 1, None, None),
        Some(Responsive(Some(Breakpoint(Str("100%"), Num(60))), Some(Breakpoint(Str("100%"), Num(70)))))),
      Element(card1, "card", NoContent.(title := Some("Card Title"), description := Some("Card Description...")),
        Position(50, 120, Num(300), Num(200), 2, None, None), None),
      Element(card2, "card", NoContent.(title := Some("Card Title"), description := Some("Card Description...")),
        Position(380, 120, Num(300), Num(200), 3, None, None), None),
      Element(text, "text-content", NoContent.(html := Some("<p>Text content will go here</p>")),
        Position(50, 340, Num(650), Str("auto"), 4, Some(100), None), None),
      Element(footer, "footer", NoContent.(copyright := Some("\U{00C2}\U{00A9} Test Builder | Test Case")),
        Position(0, 740, Str("100%"), Num(60), 5, None, Some(true)), None) ]
  }

  /** Two generated ids are equal exactly when type and index are. */
  lemma ElemIdEq(t1: ElementType, n1: nat, t2: ElementType, n2: nat)
    ensures ElemId(t1, n1) == ElemId(t2, n2) <==> t1 == t2 && n1 == n2
  {
    if ElemId(t1, n1) == ElemId(t2, n2) {
      ElemIdInjective(t1, n1, t2, n2);
    }
  }

  /** The ids the initial page gets from counters at `h`, `c`, `x` and `f`. */
  function InitialFrom(h: nat, c: nat, x: nat, f: nat): seq<Element>
  {
    InitialElements(ElemId(Header, h), ElemId(Card, c), ElemId(Card, c + 1), ElemId(TextContent, x), ElemId(Footer, f))
  }

  /** The initial z-indices are 1 to 5 in order, with no gap. */
  lemma InitialZs(header: string, card1: string, card2: string, text: string, footer: string)
    ensures var zs := ZsOf(InitialElements(header, card1, card2, text, footer));
      |zs| == 5 && forall i :: 0 <= i < |zs| ==> zs[i] == i + 1
    ensures ZContiguous(ZsOf(InitialElements(header, card1, card2, text, footer)))
  {
    var zs := ZsOf(InitialElements(header, card1, card2, text, footer));
    assert zs[0] == 1 && zs[1] == 2 && zs[2] == 3 && zs[3] == 4 && zs[4] == 5;
    forall i, v | 0 <= i < |zs| && 1 <= v <= zs[i]
      ensures v in zs
    {
      assert zs[v - 1] == v;
    }
  }

  lemma InitialIdsDistinct(header: string, card1: string, card2: string, text: string, footer: string)
    requires header != card1 && header != card2 && header != text && header != footer
    requires card1 != card2 && card1 != text && card1 != footer
    requires card2 != text && card2 != footer && text != footer
    ensures DistinctIds(InitialElements(header, card1, card2, text, footer))
  {
    var els := InitialElements(header, card1, card2, text, footer);
    assert IdsOf(els) == [header, card1, card2, text, footer];
  }

  /** The initial page holds five elements with distinct ids and z-indices 1 to 5. */
  lemma InitialPageShape(h: nat, c: nat, x: nat, f: nat)
    ensures |InitialFrom(h, c, x, f)| == 5
    ensures DistinctIds(InitialFrom(h, c, x, f))
    ensures forall i :: 0 <= i < 5 ==> ZsOf(InitialFrom(h, c, x, f))[i] == i + 1
  {
    var header, card1, card2, text, footer :=
      ElemId(Header, h), ElemId(Card, c), ElemId(Card, c + 1), ElemId(TextContent, x), ElemId(Footer, f);
    ElemIdEq(Header, h, Card, c);
    ElemIdEq(Header, h, Card, c + 1);
    ElemIdEq(Header, h, TextContent, x);
    ElemIdEq(Header, h, Footer, f);
    ElemIdEq(Card, c, Card, c + 1);
    ElemIdEq(Card, c, TextContent, x);
    ElemIdEq(Card, c, Footer, f);
    ElemIdEq(Card, c + 1, TextContent, x);
    ElemIdEq(Card, c + 1, Footer, f);
    ElemIdEq(TextContent, x, Footer, f);
    InitialIdsDistinct(header, card1, card2, text, footer);
    InitialZs(header, card1, card2, text, footer);
  }

  // ---------------------------------------------------------------------------
  // buildExport and onLoadJSON

  /** An exported element: the same record, with an absent `responsive` written as `{}`. */
  function ExportElement(e: Element): Element
  {
    e.(responsive := Some(e.responsive.GetOr(EmptyResponsive)))
  }

  function ExportElements(els: seq<Element>): (r: seq<Element>)
    ensures |r| == |els|
  {
    if els == [] then [] else ExportElements(els[..|els| - 1]) + [ExportElement(els[|els| - 1])]
  }

  /** `buildExport()`; the two timestamps are parameters. */
  function BuildExport(els: seq<Element>, size: CanvasSize, grid: Grid, created: string, lastModified: string): Document
  {
    Document(
      ProjectMeta("Test Builder Layout", "1.0", created, lastModified),
      CanvasData(size.width, size.height, grid),
      ExportElements(els),
      Metadata(|els|, "json", "2.0"))
  }

  /** The export keeps the elements in order with the same id, type, content and
      position, and writes `{}` for an absent `responsive` and nothing else. */
  lemma {:induction false} ExportKeepsElements(els: seq<Element>)
    ensures |ExportElements(els)| == |els|
    ensures forall i :: 0 <= i < |els| ==>
      var e, x := els[i], ExportElements(els)[i];
      && x.id == e.id && x.kind == e.kind && x.content == e.content && x.position == e.position
      && x.responsive == (if e.responsive.Some? then e.responsive else Some(EmptyResponsive))
  {
    if els != [] {
      ExportKeepsElements(els[..|els| - 1]);
    }
  }

  /** The document's metadata and canvas describe the page it was built from. */
  lemma ExportMetadata(els: seq<Element>, size: CanvasSize, grid: Grid, created: string, lastModified: string)
    ensures var doc := BuildExport(els, size, grid, created, lastModified);
      && doc.metadata.totalElements == |doc.elements| == |els|
      && doc.metadata.exportFormat == "json" && doc.metadata.exportVersion == "2.0"
      && doc.canvas == CanvasData(size.width, size.height, grid)
  {
  }

  /** Exporting an already exported list changes nothing. */
  lemma {:induction false} ExportIdempotent(els: seq<Element>)
    ensures ExportElements(ExportElements(els)) == ExportElements(els)
  {
    if els != [] {
      ExportIdempotent(els[..|els| - 1]);
      assert ExportElements(els)[..|els| - 1] == ExportElements(els[..|els| - 1]);
    }
  }

  /** The canvas part of a document to load; a missing or non-numeric field is `None`. */
  datatype LoadCanvas = LoadCanvas(width: Option<int>, height: Option<int>)

  /** The JSON `onLoadJSON` receives: possibly without `elements` or `canvas`. */
  datatype LoadRequest = LoadRequest(elements: Option<seq<Element>>, canvas: Option<LoadCanvas>)

  /** Whether `json.canvas?.width && json.canvas?.height` holds: both present and nonzero. */
  predicate CanvasGiven(req: LoadRequest)
  {
    && req.canvas.Some?
    && req.canvas.value.width.Some? && req.canvas.value.width.value != 0
    && req.canvas.value.height.Some? && req.canvas.value.height.value != 0
  }

  /** The canvas size after a load: the document's when both sides are given, else the current one. */
  function LoadedCanvas(current: CanvasSize, req: LoadRequest): (c: CanvasSize)
    ensures CanvasGiven(req) ==> c == CanvasSize(req.canvas.value.width.value, req.canvas.value.height.value)
    ensures !CanvasGiven(req) ==> c == current
  {
    if CanvasGiven(req) then CanvasSize(req.canvas.value.width.value, req.canvas.value.height.value)
    else current
  }

  /** A load never gives the canvas a zero side: a canvas whose sides are both
      nonzero keeps them nonzero, whatever document is loaded. */
  lemma LoadKeepsCanvasNonzero(current: CanvasSize, req: LoadRequest)
    requires current.width != 0 && current.height != 0
    ensures LoadedCanvas(current, req).width != 0 && LoadedCanvas(current, req).height != 0
    ensures LoadedCanvas(current, req) == current || req.canvas.Some?
  {
  }

  /** An exported document read back as load input. */
  function AsLoadRequest(doc: Document): LoadRequest
  {
    LoadRequest(Some(doc.elements), Some(LoadCanvas(Some(doc.canvas.width), Some(doc.canvas.height))))
  }

  /** Loading an export gives back the same elements in the same order (only an
      absent `responsive` becomes `{}`), and the canvas size it was built with:
      in any store when both sides are nonzero, and always in the store it came from.
      Exporting again then yields the same element list. */
  lemma LoadExportRoundTrip(els: seq<Element>, size: CanvasSize, grid: Grid, created: string, lastModified: string, current: CanvasSize)
    ensures var req := AsLoadRequest(BuildExport(els, size, grid, created, lastModified));
      && req.elements == Some(ExportElements(els))
      && |req.elements.value| == |els|
      && (forall i :: 0 <= i < |els| ==>
            var e, x := els[i], req.elements.value[i];
            x.id == e.id && x.kind == e.kind && x.content == e.content && x.position == e.position)
      && LoadedCanvas(size, req) == size
      && (size.width != 0 && size.height != 0 ==> LoadedCanvas(current, req) == size)
      && BuildExport(req.elements.value, LoadedCanvas(size, req), grid, created, lastModified)
         == BuildExport(els, size, grid, created, lastModified)
  {
    ExportKeepsElements(els);
    ExportIdempotent(els);
  }

  /** The two `uidFor("card")` calls of the initial page. */
  method IssueCardIds(counters: IdCounters) returns (card1: string, card2: string)
    requires counters.Valid()
    modifies counters
    ensures counters.Valid()
    ensures card1 == ElemId(Card, old(counters.next[Card])) && card2 == ElemId(Card, old(counters.next[Card]) + 1)
    ensures counters.next == old(counters.next)[Card := old(counters.next[Card]) + 2]
  {
    card1 := counters.UidFor(Card);
    card2 := counters.UidFor(Card);
  }

  /** The first three `uidFor` calls of the initial page: header, card, card. */
  method IssueHeaderAndCards(counters: IdCounters) returns (header: string, card1: string, card2: string)
    requires counters.Valid()
    modifies counters
    ensures counters.Valid()
    ensures header == ElemId(Header, old(counters.next[Header]))
    ensures card1 == ElemId(Card, old(counters.next[Card])) && card2 == ElemId(Card, old(counters.next[Card]) + 1)
    ensures counters.next[Header] == old(counters.next[Header]) + 1
    ensures counters.next[Card] == old(counters.next[Card]) + 2
    ensures counters.next[TextContent] == old(counters.next[TextContent])
    ensures counters.next[Footer] == old(counters.next[Footer])
    ensures counters.next[Slider] == old(counters.next[Slider])
  {
    ghost var n := counters.next;
    header := counters.UidFor(Header);
    assert counters.next[Card] == n[Card] && counters.next[TextContent] == n[TextContent];
    assert counters.next[Footer] == n[Footer] && counters.next[Slider] == n[Slider];
    card1, card2 := IssueCardIds(counters);
  }

  /** The last two `uidFor` calls of the initial page: text-content, footer. */
  method IssueTextAndFooter(counters: IdCounters) returns (text: string, footer: string)
    requires counters.Valid()
    modifies counters
    ensures counters.Valid()
    ensures text == ElemId(TextContent, old(counters.next[TextContent]))
    ensures footer == ElemId(Footer, old(counters.next[Footer]))
    ensures counters.next[Header] == old(counters.next[Header])
    ensures counters.next[Card] == old(counters.next[Card])
    ensures counters.next[TextContent] == old(counters.next[TextContent]) + 1
    ensures counters.next[Footer] == old(counters.next[Footer]) + 1
    ensures counters.next[Slider] == old(counters.next[Slider])
  {
    ghost var n := counters.next;
    text := counters.UidFor(TextContent);
    assert counters.next[Header] == n[Header] && counters.next[Card] == n[Card];
    assert counters.next[Footer] == n[Footer] && counters.next[Slider] == n[Slider];
    footer := counters.UidFor(Footer);
  }

  /** The five `uidFor` calls that build the initial page, in their order:
      header, card, card, text-content, footer. */
  method IssueInitialIds(counters: IdCounters) returns (header: string, card1: string, card2: string, text: string, footer: string)
    requires counters.Valid()
    modifies counters
    ensures counters.Valid()
    ensures header == ElemId(Header, old(counters.next[Header]))
    ensures card1 == ElemId(Card, old(counters.next[Card])) && card2 == ElemId(Card, old(counters.next[Card]) + 1)
    ensures text == ElemId(TextContent, old(counters.next[TextContent]))
    ensures footer == ElemId(Footer, old(counters.next[Footer]))
    ensures counters.next[Header] == old(counters.next[Header]) + 1
    ensures counters.next[Card] == old(counters.next[Card]) + 2
    ensures counters.next[TextContent] == old(counters.next[TextContent]) + 1
    ensures counters.next[Footer] == old(counters.next[Footer]) + 1
    ensures counters.next[Slider] == old(counters.next[Slider])
  {
    header, card1, card2 := IssueHeaderAndCards(counters);
    text, footer := IssueTextAndFooter(counters);
  }

  // ---------------------------------------------------------------------------
  // The page state

  /** The state `Layout` keeps: the element list, the canvas size, the grid and the
      selected id, with the id counters `uidFor` advances. */
  class Store {
    var elements: seq<Element>
    var canvasSize: CanvasSize
    var selectedId: Option<string>
    const grid: Grid
    const counters: IdCounters

    ghost predicate Valid()
      reads this, counters
    {
      counters.Valid() && grid == InitialGrid
    }

    /** The page as it first renders: the five initial elements, each id taken
        from the counters in the order header, card, card, text, footer. */
    constructor (counters: IdCounters)
      requires counters.Valid()
      modifies counters
      ensures Valid() && this.counters == counters
      ensures elements == InitialFrom(old(counters.next[Header]), old(counters.next[Card]),
        old(counters.next[TextContent]), old(counters.next[Footer]))
      ensures canvasSize == InitialCanvas && selectedId == None
      ensures counters.next[Header] == old(counters.next[Header]) + 1
      ensures counters.next[Card] == old(counters.next[Card]) + 2
      ensures counters.next[TextContent] == old(counters.next[TextContent]) + 1
      ensures counters.next[Footer] == old(counters.next[Footer]) + 1
      ensures counters.next[Slider] == old(counters.next[Slider])
    {
      var header, card1, card2, text, footer := IssueInitialIds(counters);
      var els := InitialElements(header, card1, card2, text, footer);
      elements := els;
      canvasSize := InitialCanvas;
      selectedId := None;
      grid := InitialGrid;
      this.counters := counters;
    }

    /** `createElementFromTemplate(type, x, y)`: takes the next id of `t` and
        builds the element; the page itself is not changed. */
    method CreateElementFromTemplate(t: ElementType, x: int, y: int) returns (e: Element)
      requires Valid()
      modifies counters
      ensures Valid()
      ensures e == Instantiate(t, ElemId(t, old(counters.next[t])), x, y, canvasSize.width, elements)
      ensures counters.next == old(counters.next)[t := old(counters.next[t]) + 1]
      ensures e.id !in old(counters.IssuedIds()) && counters.IssuedIds() == old(counters.IssuedIds()) + {e.id}
    {
      var id := counters.UidFor(t);
      e := Instantiate(t, id, x, y, canvasSize.width, elements);
    }

    /** `onCanvasDrop`: a drop of an empty or unknown type changes nothing; any
        other drop appends one new element at the snapped point and selects it. */
    method OnCanvasDrop(key: string, px: int, py: int)
      requires Valid()
      modifies this, counters
      ensures Valid() && canvasSize == old(canvasSize)
      ensures key == "" || LookupTemplate(key).None? ==>
        elements == old(elements) && selectedId == old(selectedId) && counters.next == old(counters.next)
      ensures key != "" && LookupTemplate(key).Some? ==>
        var t := LookupTemplate(key).value;
        var e := Instantiate(t, ElemId(t, old(counters.next[t])), Snap(px, grid), Snap(py, grid), canvasSize.width, old(elements));
        && elements == old(elements) + [e]
        && selectedId == Some(e.id)
        && e.id !in old(counters.IssuedIds())
        && counters.next == old(counters.next)[t := old(counters.next[t]) + 1]
    {
      if key == "" || LookupTemplate(key).None? {
        return;
      }
      var t := LookupTemplate(key).value;
      var x := Snap(px, grid);
      var y := Snap(py, grid);
      var e := CreateElementFromTemplate(t, x, y);
      elements := elements + [e];
      selectedId := Some(e.id);
    }

    /** `onLoadJSON(json)`: without `elements` nothing changes; otherwise the list
        becomes the document's and the canvas size is taken when both sides are given. */
    method OnLoadJSON(req: LoadRequest)
      modifies this
      ensures selectedId == old(selectedId)
      ensures req.elements.None? ==> elements == old(elements) && canvasSize == old(canvasSize)
      ensures req.elements.Some? ==>
        elements == req.elements.value && canvasSize == LoadedCanvas(old(canvasSize), req)
    {
      if req.elements.None? {
        return;
      }
      elements := req.elements.value;
      if CanvasGiven(req) {
        canvasSize := CanvasSize(req.canvas.value.width.value, req.canvas.value.height.value);
      }
    }

    /** The sidebar's "new page": the list becomes empty. */
    method NewPage()
      modifies this
      ensures elements == [] && canvasSize == old(canvasSize) && selectedId == old(selectedId)
    {
      elements := [];
    }

    /** `buildExport()` of the current page, with the timestamps as parameters. */
    function Export(created: string, lastModified: string): Document
      reads this
    {
      BuildExport(elements, canvasSize, grid, created, lastModified)
    }
  }

  /** The export leaves every checked field alone, so a list passes the id and
      field checks exactly when its export does. */
  lemma ExportKeepsIdChecks(els: seq<Element>)
    ensures IdsOf(ExportElements(els)) == IdsOf(els)
    ensures DistinctIds(ExportElements(els)) <==> DistinctIds(els)
    ensures AllIdsMatch(ExportElements(els)) <==> AllIdsMatch(els)
    ensures AllFieldsPresent(ExportElements(els)) <==> AllFieldsPresent(els)
  {
    ExportKeepsElements(els);
    var exported := ExportElements(els);
    forall i | 0 <= i < |els|
      ensures exported[i].id == els[i].id && exported[i].kind == els[i].kind
    {
    }
    assert IdsOf(exported) == IdsOf(els);
  }

  /** Likewise for the position, type and z-index checks. */
  lemma ExportKeepsLayoutChecks(els: seq<Element>, canvas: CanvasData)
    ensures ZsOf(ExportElements(els)) == ZsOf(els)
    ensures AllPlaced(ExportElements(els), canvas) <==> AllPlaced(els, canvas)
    ensures AllKnownTypes(ExportElements(els)) <==> AllKnownTypes(els)
  {
    ExportKeepsElements(els);
    var exported := ExportElements(els);
    forall i | 0 <= i < |els|
      ensures exported[i].position == els[i].position
      ensures IsKnownType(exported[i].kind) == IsKnownType(els[i].kind)
    {
      assert exported[i].kind == els[i].kind;
    }
    assert ZsOf(exported) == ZsOf(els);
  }

  /** The initial page's ids pass the id checks once they are distinct and of
      the generated form. */
  lemma InitialIdChecks(header: string, card1: string, card2: string, text: string, footer: string)
    requires header != card1 && header != card2 && header != text && header != footer
    requires card1 != card2 && card1 != text && card1 != footer
    requires card2 != text && card2 != footer && text != footer
    requires MatchesIdPattern(header) && MatchesIdPattern(card1) && MatchesIdPattern(card2)
    requires MatchesIdPattern(text) && MatchesIdPattern(footer)
    ensures var els := InitialElements(header, card1, card2, text, footer);
      DistinctIds(els) && AllIdsMatch(els) && AllFieldsPresent(els)
  {
    InitialIdsDistinct(header, card1, card2, text, footer);
  }

  /** The initial page lies on the initial canvas, uses supported types only and
      has contiguous z-indices, whatever its ids. */
  lemma InitialLayoutChecks(header: string, card1: string, card2: string, text: string, footer: string)
    ensures var els := InitialElements(header, card1, card2, text, footer);
      && AllPlaced(els, CanvasData(InitialCanvas.width, InitialCanvas.height, InitialGrid))
      && AllKnownTypes(els)
      && ZContiguous(ZsOf(els))
  {
    InitialZs(header, card1, card2, text, footer);
    assert "100%"[3] == '%';
  }

  /** The initial page, exported, passes every check once its ids are distinct
      and of the generated form. */
  lemma InitialExportWellFormed(header: string, card1: string, card2: string, text: string, footer: string,
                                created: string, lastModified: string)
    requires header != card1 && header != card2 && header != text && header != footer
    requires card1 != card2 && card1 != text && card1 != footer
    requires card2 != text && card2 != footer && text != footer
    requires MatchesIdPattern(header) && MatchesIdPattern(card1) && MatchesIdPattern(card2)
    requires MatchesIdPattern(text) && MatchesIdPattern(footer)
    ensures WellFormed(BuildExport(InitialElements(header, card1, card2, text, footer), InitialCanvas, InitialGrid, created, lastModified))
  {
    var els := InitialElements(header, card1, card2, text, footer);
    InitialIdChecks(header, card1, card2, text, footer);
    InitialLayoutChecks(header, card1, card2, text, footer);
    ExportKeepsIdChecks(els);
    ExportKeepsLayoutChecks(els, CanvasData(InitialCanvas.width, InitialCanvas.height, InitialGrid));
  }

  /** With counters at most 999 the initial page exports as a well-formed document. */
  lemma InitialExportValid(h: nat, c: nat, x: nat, f: nat, created: string, lastModified: string)
    requires 1 <= h <= 999 && 1 <= c < 999 && 1 <= x <= 999 && 1 <= f <= 999
    ensures ValidationErrors(BuildExport(InitialFrom(h, c, x, f), InitialCanvas, InitialGrid, created, lastModified)) == []
  {
    ElemIdEq(Header, h, Card, c);
    ElemIdEq(Header, h, Card, c + 1);
    ElemIdEq(Header, h, TextContent, x);
    ElemIdEq(Header, h, Footer, f);
    ElemIdEq(Card, c, Card, c + 1);
    ElemIdEq(Card, c, TextContent, x);
    ElemIdEq(Card, c, Footer, f);
    ElemIdEq(Card, c + 1, TextContent, x);
    ElemIdEq(Card, c + 1, Footer, f);
    ElemIdEq(TextContent, x, Footer, f);
    ElemIdPattern(Header, h);
    ElemIdPattern(Card, c);
    ElemIdPattern(Card, c + 1);
    ElemIdPattern(TextContent, x);
    ElemIdPattern(Footer, f);
    InitialExportWellFormed(ElemId(Header, h), ElemId(Card, c), ElemId(Card, c + 1), ElemId(TextContent, x), ElemId(Footer, f),
      created, lastModified);
    NoErrorsIffWellFormed(BuildExport(InitialFrom(h, c, x, f), InitialCanvas, InitialGrid, created, lastModified));
  }
}
