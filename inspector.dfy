/** The inspector panel's operations (src/components/home/Inspector.tsx): the
    collision warning, bring-to-front and send-to-back, the field edits and delete. */
module Inspector {
  import opened Types
  import opened Strings
  import opened Helpers
  import opened Validation
  import opened Layout

  // ---------------------------------------------------------------------------
  // Collision check

  /** The rectangle of an element, with `Number(dim) || 0` for each side, so that a
      side given as text ("100%", "auto") counts as 0. */
  function RectOf(el: Element): (r: Rect)
    ensures r.x == el.position.x && r.y == el.position.y
    ensures r.width == NumberOr(el.position.width, 0) && r.height == NumberOr(el.position.height, 0)
  {
    Rect(el.position.x, el.position.y, NumberOr(el.position.width, 0), NumberOr(el.position.height, 0))
  }

  /** A side written as "100%" or "auto" counts as 0, so such an element overlaps
      another only when its own x (for the width) or y (for the height) lies
      strictly inside the other's span: a full-width header at x = 0 never
      collides with an element placed at x >= 0. */
  lemma TextSideCollision(el: Element, other: Element)
    ensures ((el.position.width == Str("100%") || el.position.width == Str("auto")) &&
      RectsOverlap(RectOf(el), RectOf(other))) ==>
        other.position.x < el.position.x < other.position.x + RectOf(other).width
    ensures ((el.position.height == Str("100%") || el.position.height == Str("auto")) &&
      RectsOverlap(RectOf(el), RectOf(other))) ==>
        other.position.y < el.position.y < other.position.y + RectOf(other).height
  {
    CssStringsFallBack(0);
  }

  /** `elements.find(e => e.id === id)`: the first element carrying `id`. */
  function FindById(els: seq<Element>, id: string): (r: Option<Element>)
    ensures r.None? <==> forall i :: 0 <= i < |els| ==> els[i].id != id
    ensures r.Some? ==> exists i :: 0 <= i < |els| && els[i] == r.value && r.value.id == id &&
                                   (forall j :: 0 <= j < i ==> els[j].id != id)
  {
    if els == [] then None
    else if els[0].id == id then Some(els[0])
    else
      var r := FindById(els[1..], id);
      assert forall i :: 0 < i < |els| ==> els[1..][i - 1] == els[i];
      r
  }

  /** Whether the element `id` overlaps some element with another id. */
  predicate Collides(els: seq<Element>, id: string)
  {
    match FindById(els, id)
    case None => false
    case Some(t) => exists i :: 0 <= i < |els| && els[i].id != id && RectsOverlap(RectOf(t), RectOf(els[i]))
  }

  /** `checkCollision(id)`: false when no element carries `id`; otherwise a scan
      that skips the target's own id and stops at the first overlap. */
  method CheckCollision(els: seq<Element>, id: string) returns (hit: bool)
    ensures hit == Collides(els, id)
  {
    var target := FindById(els, id);
    if target.None? {
      return false;
    }
    var a := RectOf(target.value);
    var i := 0;
    while i < |els|
      invariant 0 <= i <= |els|
      invariant forall k :: 0 <= k < i && els[k].id != id ==> !RectsOverlap(a, RectOf(els[k]))
    {
      if els[i].id != id {
        var b := RectOf(els[i]);
        if RectsOverlap(a, b) {
          return true;
        }
      }
      i := i + 1;
    }
    return false;
  }

  /** With distinct ids, the element an id names is the one at its index. */
  lemma FindDistinct(els: seq<Element>, i: int)
    requires DistinctIds(els) && 0 <= i < |els|
    ensures FindById(els, els[i].id) == Some(els[i])
  {
  }

  /** On a page with distinct ids, two overlapping elements each get the warning. */
  lemma CollisionIsMutual(els: seq<Element>, i: int, j: int)
    requires DistinctIds(els) && 0 <= i < |els| && 0 <= j < |els| && i != j
    requires RectsOverlap(RectOf(els[i]), RectOf(els[j]))
    ensures Collides(els, els[i].id) && Collides(els, els[j].id)
  {
    FindDistinct(els, i);
    FindDistinct(els, j);
    OverlapSymmetric(RectOf(els[i]), RectOf(els[j]));
  }

  /** A lone element never collides, whatever its size. */
  lemma LoneElementNeverCollides(el: Element, id: string)
    ensures !Collides([el], id)
  {
  }

  // ---------------------------------------------------------------------------
  // z-order

  /** `bringToFront(id)`: the target gets one above the highest z-index. An empty
      list stays empty. */
  function Raised(els: seq<Element>, id: string): seq<Element>
  {
    if els == [] then els else Retarget(els, id, SetZ(MaxOf(ZsOf(els)) + 1))
  }

  /** `sendToBack(id)`: the target gets one below the lowest z-index. */
  function Lowered(els: seq<Element>, id: string): seq<Element>
  {
    if els == [] then els else Retarget(els, id, SetZ(MinOf(ZsOf(els)) - 1))
  }

  /** After bring-to-front the target is strictly above every other element,
      every other element is untouched, and the target keeps everything but its z-index. */
  lemma RaisedOnTop(els: seq<Element>, id: string)
    ensures |Raised(els, id)| == |els|
    ensures forall i, j :: 0 <= i < |els| && 0 <= j < |els| && els[i].id == id && els[j].id != id ==>
      Raised(els, id)[j].position.zIndex < Raised(els, id)[i].position.zIndex
    ensures forall i :: 0 <= i < |els| && els[i].id != id ==> Raised(els, id)[i] == els[i]
    ensures forall i :: 0 <= i < |els| && els[i].id == id ==>
      Raised(els, id)[i] == els[i].(position := els[i].position.(zIndex := Raised(els, id)[i].position.zIndex))
    ensures forall i, k :: 0 <= i < |els| && 0 <= k < |els| && els[i].id == id ==>
      els[k].position.zIndex < Raised(els, id)[i].position.zIndex
  {
    if els != [] {
      var zs := ZsOf(els);
      RetargetOnlyTarget(els, id, SetZ(MaxOf(zs) + 1));
    }
  }

  /** After send-to-back the target is strictly below every other element, and
      every other element is untouched. */
  lemma LoweredAtBottom(els: seq<Element>, id: string)
    ensures |Lowered(els, id)| == |els|
    ensures forall i, j :: 0 <= i < |els| && 0 <= j < |els| && els[i].id == id && els[j].id != id ==>
      Lowered(els, id)[i].position.zIndex < Lowered(els, id)[j].position.zIndex
    ensures forall i :: 0 <= i < |els| && els[i].id != id ==> Lowered(els, id)[i] == els[i]
    ensures forall i :: 0 <= i < |els| && els[i].id == id ==>
      Lowered(els, id)[i] == els[i].(position := els[i].position.(zIndex := Lowered(els, id)[i].position.zIndex))
    ensures forall i, k :: 0 <= i < |els| && 0 <= k < |els| && els[i].id == id ==>
      Lowered(els, id)[i].position.zIndex < els[k].position.zIndex
  {
    if els != [] {
      var zs := ZsOf(els);
      RetargetOnlyTarget(els, id, SetZ(MinOf(zs) - 1));
    }
  }

  /** A list that passes the z-index checks starts at 1. */
  lemma CleanStartsAtOne(zs: seq<int>)
    requires |zs| > 0 && ZErrors(zs) == []
    ensures MinOf(zs) == 1
  {
    ZReport(zs);
  }

  /** A z-index below 1 anywhere is reported as not starting from 1. */
  lemma BelowOneReported(zs: seq<int>, k: int)
    requires 0 <= k < |zs| && zs[k] < 1
    ensures ZIndexShouldStartFrom1 in ZErrors(zs)
  {
    assert MinOf(zs) <= zs[k];
    ZReport(zs);
  }

  /** A value that is absent, above which a z-index lies and below which every
      value from 1 is present, is the one reported missing. */
  lemma GapReported(zs: seq<int>, v: int, k: int)
    requires 1 <= v && v !in zs && 0 <= k < |zs| && v < zs[k]
    requires forall u :: 1 <= u < v ==> u in zs
    ensures ZIndexMissing(v) in ZErrors(zs)
  {
    assert v <= MaxOf(zs);
    var m := FirstMissing(zs, 1, MaxOf(zs));
    assert m == Some(v);
    assert ZErrors(zs)[|ZErrors(zs)| - 1] == ZIndexMissing(v);
  }

  /** Moving the only holder of a level below the top, in a list that passes the
      z-index checks, above the top leaves that level unused. */
  lemma RaiseLeavesGap(zs: seq<int>, raised: seq<int>, k: int)
    requires 0 <= k < |zs| && ZErrors(zs) == []
    requires forall j :: 0 <= j < |zs| && j != k ==> zs[j] != zs[k]
    requires zs[k] < MaxOf(zs)
    requires |raised| == |zs| && raised[k] == MaxOf(zs) + 1
    requires forall j :: 0 <= j < |zs| && j != k ==> raised[j] == zs[j]
    ensures ZIndexMissing(zs[k]) in ZErrors(raised)
  {
    ZErrorsEmpty(zs);
    var v := zs[k];
    assert v !in raised;
    forall u | 1 <= u < v
      ensures u in raised
    {
      assert u in zs;
      var j :| 0 <= j < |zs| && zs[j] == u;
      assert raised[j] == u;
    }
    GapReported(raised, v, k);
  }

  /** Send-to-back's new z-index, read at the target's place in the list. */
  lemma LoweredZ(els: seq<Element>, k: int, id: string)
    requires 0 <= k < |els| && els[k].id == id
    ensures ZsOf(Lowered(els, id))[k] == MinOf(ZsOf(els)) - 1
  {
    var z := MinOf(ZsOf(els)) - 1;
    var lowered := Lowered(els, id);
    assert lowered == Retarget(els, id, SetZ(z));
    RetargetOnlyTarget(els, id, SetZ(z));
    assert lowered[k].position.zIndex == z;
  }

  /** Bring-to-front puts the target one above the old top and leaves the
      z-index of every element with another id as it was. */
  lemma RaisedZs(els: seq<Element>, k: int, id: string)
    requires 0 <= k < |els| && els[k].id == id
    ensures |ZsOf(Raised(els, id))| == |els|
    ensures ZsOf(Raised(els, id))[k] == MaxOf(ZsOf(els)) + 1
    ensures forall j :: 0 <= j < |els| && els[j].id != id ==> ZsOf(Raised(els, id))[j] == ZsOf(els)[j]
  {
    var z := MaxOf(ZsOf(els)) + 1;
    var raised := Raised(els, id);
    assert raised == Retarget(els, id, SetZ(z));
    RetargetOnlyTarget(els, id, SetZ(z));
    assert raised[k].position.zIndex == z;
    forall j | 0 <= j < |els| && els[j].id != id
      ensures ZsOf(raised)[j] == ZsOf(els)[j]
    {
      assert raised[j] == els[j];
    }
  }

  /** The z-index reassignments do not keep a valid document valid. Sending any
      element of a list that passes the z-index checks to the back gives it
      z-index 0, so the smallest z-index is no longer 1. */
  lemma SendToBackUnsettlesZ(els: seq<Element>, k: int, id: string)
    requires 0 <= k < |els| && els[k].id == id && ZErrors(ZsOf(els)) == []
    ensures ZIndexShouldStartFrom1 in ZErrors(ZsOf(Lowered(els, id)))
  {
    CleanStartsAtOne(ZsOf(els));
    LoweredZ(els, k, id);
    BelowOneReported(ZsOf(Lowered(els, id)), k);
  }

  /** Bringing to the front an element that is alone on its level, below the top
      and with an id no other element carries, leaves its old level unused. */
  lemma BringToFrontUnsettlesZ(els: seq<Element>, k: int, id: string)
    requires 0 <= k < |els| && els[k].id == id && ZErrors(ZsOf(els)) == []
    requires forall j :: 0 <= j < |els| && j != k ==> els[j].id != id
    requires forall j :: 0 <= j < |els| && j != k ==> els[j].position.zIndex != els[k].position.zIndex
    requires els[k].position.zIndex < MaxOf(ZsOf(els))
    ensures ZIndexMissing(els[k].position.zIndex) in ZErrors(ZsOf(Raised(els, id)))
  {
    var zs, raised := ZsOf(els), ZsOf(Raised(els, id));
    RaisedZs(els, k, id);
    forall j | 0 <= j < |zs| && j != k
      ensures raised[j] == zs[j] && zs[j] != zs[k]
    {
      assert els[j].id != id;
    }
    RaiseLeavesGap(zs, raised, k);
  }

  // ---------------------------------------------------------------------------
  // Field edits

  /** The width/height input's rule: the number when the text reads as one,
      otherwise the text itself. */
  function CoerceDim(text: string): (d: Dim)
    ensures d.Num? <==> ParseNumber(text).Some?
    ensures d.Num? ==> ParseNumber(text) == Some(d.n)
    ensures d.Str? ==> d.s == text
  {
    match ParseNumber(text)
    case Some(n) => Num(n)
    case None => Str(text)
  }

  /** What the input shows for a width or height. */
  function DimText(d: Dim): string
  {
    match d
    case Num(n) => IntText(n)
    case Str(s) => s
  }

  /** Reading back what the input shows gives the same value, for numbers and
      for every text that is not itself numeric. */
  lemma CoerceShownDim(d: Dim)
    requires d.Str? ==> ParseNumber(d.s).None?
    ensures CoerceDim(DimText(d)) == d
  {
    if d.Num? {
      ParseIntText(d.n);
    }
  }

  /** Typed texts: "250" and "-40" become numbers, "100%" stays text, and an
      emptied field becomes 0. */
  lemma CoerceExamples()
    ensures CoerceDim("250") == Num(250)
    ensures CoerceDim("-40") == Num(-40)
    ensures CoerceDim("100%") == Str("100%")
    ensures CoerceDim("") == Num(0)
  {
    assert "100%"[3] == '%';
    assert DigitsValue("250") == DigitsValue("25") * 10 + 0;
    assert DigitsValue("25") == DigitsValue("2") * 10 + 5;
    assert DigitsValue("2") == DigitsValue("") * 10 + 2;
    assert "-40"[1..] == "40";
    assert DigitsValue("40") == DigitsValue("4") * 10 + 0;
    assert DigitsValue("4") == DigitsValue("") * 10 + 4;
  }

  // ---------------------------------------------------------------------------
  // The operations on the page state

  method BringToFront(store: Store, id: string)
    modifies store
    ensures store.elements == Raised(old(store.elements), id)
    ensures store.selectedId == old(store.selectedId) && store.canvasSize == old(store.canvasSize)
  {
    if |store.elements| > 0 {
      var maxZ := MaxOf(ZsOf(store.elements));
      store.elements := Retarget(store.elements, id, SetZ(maxZ + 1));
    }
  }

  method SendToBack(store: Store, id: string)
    modifies store
    ensures store.elements == Lowered(old(store.elements), id)
    ensures store.selectedId == old(store.selectedId) && store.canvasSize == old(store.canvasSize)
  {
    if |store.elements| > 0 {
      var minZ := MinOf(ZsOf(store.elements));
      store.elements := Retarget(store.elements, id, SetZ(minZ - 1));
    }
  }

  /** The X input: only the selected element's x changes. */
  method EditX(store: Store, id: string, x: int)
    modifies store
    ensures store.elements == Retarget(old(store.elements), id, SetX(x))
    ensures store.selectedId == old(store.selectedId) && store.canvasSize == old(store.canvasSize)
  {
    store.elements := Retarget(store.elements, id, SetX(x));
  }

  /** The Y input: only the selected element's y changes. */
  method EditY(store: Store, id: string, y: int)
    modifies store
    ensures store.elements == Retarget(old(store.elements), id, SetY(y))
    ensures store.selectedId == old(store.selectedId) && store.canvasSize == old(store.canvasSize)
  {
    store.elements := Retarget(store.elements, id, SetY(y));
  }

  /** The W input: the selected element's width becomes the coerced text. */
  method EditWidth(store: Store, id: string, text: string)
    modifies store
    ensures store.elements == Retarget(old(store.elements), id, SetWidth(CoerceDim(text)))
    ensures store.selectedId == old(store.selectedId) && store.canvasSize == old(store.canvasSize)
  {
    var w := CoerceDim(text);
    store.elements := Retarget(store.elements, id, SetWidth(w));
  }

  /** The H input: the selected element's height becomes the coerced text. */
  method EditHeight(store: Store, id: string, text: string)
    modifies store
    ensures store.elements == Retarget(old(store.elements), id, SetHeight(CoerceDim(text)))
    ensures store.selectedId == old(store.selectedId) && store.canvasSize == old(store.canvasSize)
  {
    var h := CoerceDim(text);
    store.elements := Retarget(store.elements, id, SetHeight(h));
  }

  /** The Delete button: the selected element goes and the selection is cleared. */
  method Delete(store: Store, id: string)
    modifies store
    ensures store.elements == Remove(old(store.elements), id)
    ensures store.selectedId == None && store.canvasSize == old(store.canvasSize)
  {
    store.elements := Remove(store.elements, id);
    store.selectedId := None;
  }

  /** An x or y edit changes that one coordinate of the target and nothing else. */
  lemma EditCoordinateOnly(els: seq<Element>, id: string, v: int)
    ensures forall i :: 0 <= i < |els| ==>
      && Retarget(els, id, SetX(v))[i] == (if els[i].id == id then els[i].(position := els[i].position.(x := v)) else els[i])
      && Retarget(els, id, SetY(v))[i] == (if els[i].id == id then els[i].(position := els[i].position.(y := v)) else els[i])
  {
    RetargetOnlyTarget(els, id, SetX(v));
    RetargetOnlyTarget(els, id, SetY(v));
  }

  /** A width or height edit sets that one side of the target to the coerced text. */
  lemma EditSideOnly(els: seq<Element>, id: string, text: string)
    ensures forall i :: 0 <= i < |els| ==>
      && Retarget(els, id, SetWidth(CoerceDim(text)))[i]
           == (if els[i].id == id then els[i].(position := els[i].position.(width := CoerceDim(text))) else els[i])
      && Retarget(els, id, SetHeight(CoerceDim(text)))[i]
           == (if els[i].id == id then els[i].(position := els[i].position.(height := CoerceDim(text))) else els[i])
  {
    RetargetOnlyTarget(els, id, SetWidth(CoerceDim(text)));
    RetargetOnlyTarget(els, id, SetHeight(CoerceDim(text)));
  }

  /** After a delete no element carries the id, and every other element is kept. */
  lemma DeleteRemovesAll(els: seq<Element>, id: string)
    ensures forall e :: e in Remove(els, id) ==> e.id != id
    ensures forall i :: 0 <= i < |els| && els[i].id != id ==> els[i] in Remove(els, id)
  {
    RemoveKeepsOthers(els, id);
  }
}
