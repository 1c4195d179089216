/** The records the layout builder works on: elements, their position, the grid,
    the canvas size and the exported document (src/Types/index.ts and the
    `ProjectExport` shape of src/utils/helpers.ts). */
module Types {

  datatype Option<+T> = None | Some(value: T) {
    function GetOr(default: T): T {
      match this
      case Some(v) => v
      case None => default
    }
  }

  /** The closed set of element types a template exists for. */
  datatype ElementType = Header | Footer | Card | TextContent | Slider {
    /** The type tag as it is written in an element and in the template catalog. */
    function Tag(): string {
      match this
      case Header => "header"
      case Footer => "footer"
      case Card => "card"
      case TextContent => "text-content"
      case Slider => "slider"
    }
  }

  /** A width or a height: a number of pixels, or a CSS string such as "100%" or "auto". */
  datatype Dim = Num(n: int) | Str(s: string)

  /** The type-dependent payload of an element; every field is optional. */
  datatype Content = Content(
    text: Option<string>,
    html: Option<string>,
    title: Option<string>,
    description: Option<string>,
    copyright: Option<string>,
    slides: Option<seq<string>>)

  const NoContent := Content(None, None, None, None, None, None)

  datatype Position = Position(
    x: int,
    y: int,
    width: Dim,
    height: Dim,
    zIndex: int,
    minHeight: Option<int>,
    fixed: Option<bool>)

  datatype Breakpoint = Breakpoint(width: Dim, height: Dim)

  /** Per-breakpoint overrides; `Responsive(None, None)` is the empty object `{}`. */
  datatype Responsive = Responsive(mobile: Option<Breakpoint>, tablet: Option<Breakpoint>)

  const EmptyResponsive := Responsive(None, None)

  /** A layout element. Its type is a free string (`kind`), since a loaded document
      may carry any type; only the five tags of `ElementType` are supported. */
  datatype Element = Element(
    id: string,
    kind: string,
    content: Content,
    position: Position,
    responsive: Option<Responsive>)

  datatype Grid = Grid(enabled: bool, size: int, snap: bool)

  datatype CanvasSize = CanvasSize(width: int, height: int)

  datatype ProjectMeta = ProjectMeta(name: string, version: string, created: string, lastModified: string)

  datatype CanvasData = CanvasData(width: int, height: int, grid: Grid)

  datatype Metadata = Metadata(totalElements: int, exportFormat: string, exportVersion: string)

  /** The exported document, with its four parts in the order they are written. */
  datatype Document = Document(
    project: ProjectMeta,
    canvas: CanvasData,
    elements: seq<Element>,
    metadata: Metadata)

  /** The ids of a list of elements, in order. */
  function IdsOf(els: seq<Element>): (ids: seq<string>)
    ensures |ids| == |els| && forall i :: 0 <= i < |els| ==> ids[i] == els[i].id
  {
    seq(|els|, i requires 0 <= i < |els| => els[i].id)
  }

  /** The z-indices of a list of elements, in order. */
  function ZsOf(els: seq<Element>): (zs: seq<int>)
    ensures |zs| == |els| && forall i :: 0 <= i < |els| ==> zs[i] == els[i].position.zIndex
  {
    seq(|els|, i requires 0 <= i < |els| => els[i].position.zIndex)
  }

  /** The largest of a non-empty list of integers (`Math.max(...zs)`). */
  function MaxOf(zs: seq<int>): (m: int)
    requires |zs| > 0
    ensures m in zs && forall i :: 0 <= i < |zs| ==> zs[i] <= m
  {
    if |zs| == 1 then zs[0]
    else
      var m := MaxOf(zs[..|zs| - 1]);
      if zs[|zs| - 1] > m then zs[|zs| - 1] else m
  }

  /** The smallest of a non-empty list of integers (`Math.min(...zs)`). */
  function MinOf(zs: seq<int>): (m: int)
    requires |zs| > 0
    ensures m in zs && forall i :: 0 <= i < |zs| ==> m <= zs[i]
  {
    if |zs| == 1 then zs[0]
    else
      var m := MinOf(zs[..|zs| - 1]);
      if zs[|zs| - 1] < m then zs[|zs| - 1] else m
  }
}
