/** Geometry and id helpers of the builder (src/utils/helpers.ts): grid snapping,
    rectangle overlap, the template catalog and the per-type id counters. */
module Helpers {
  import opened Types
  import opened Strings

  // ---------------------------------------------------------------------------
  // Grid snapping

  /** A grid whose snapping is switched on. */
  predicate Snaps(g: Grid) { g.enabled && g.snap }

  /** `snap(v, grid)`: `Math.round(v / size) * size` when the grid is enabled and
      snapping, otherwise `v`. `Math.round` takes halves up (towards +infinity),
      which on integers is `floor((2v + size) / (2 size))`. */
  function Snap(v: int, g: Grid): (r: int)
    requires Snaps(g) ==> g.size > 0
    ensures !Snaps(g) ==> r == v
    ensures Snaps(g) ==> r % g.size == 0 && -g.size < 2 * (r - v) <= g.size
  {
    if Snaps(g) then
      var k := (2 * v + g.size) / (2 * g.size);
      MultipleFacts(k, g.size, 2 * v + g.size);
      k * g.size
    else v
  }

  /** The sign of a product with a positive factor. */
  lemma MulSign(s: int, d: int)
    requires s > 0
    ensures d >= 1 ==> s * d >= s
    ensures d <= -1 ==> s * d <= -s
    ensures d == 0 ==> s * d == 0
  {
  }

  lemma MultipleFacts(k: int, s: int, w: int)
    requires s > 0 && k == w / (2 * s)
    ensures (k * s) % s == 0
    ensures 2 * (k * s) <= w < 2 * (k * s) + 2 * s
  {
    var q := k * s;
    assert w == (2 * s) * k + w % (2 * s);
    assert (2 * s) * k == 2 * q;
    var d := k - q / s;
    assert q == s * (q / s) + q % s;
    assert s * d == q % s by {
      assert s * d == s * k - s * (q / s);
    }
    MulSign(s, d);
  }

  /** The snapped value is the only multiple of the cell size within half a cell,
      a half taken upwards: snapping is rounding to the nearest multiple. */
  lemma SnapIsNearestMultiple(v: int, g: Grid, m: int)
    requires Snaps(g) && g.size > 0
    requires m % g.size == 0 && -g.size < 2 * (m - v) <= g.size
    ensures m == Snap(v, g)
  {
    var r := Snap(v, g);
    var s := g.size;
    assert -2 * s < 2 * (m - r) < 2 * s;
    assert m == s * (m / s) && r == s * (r / s);
    var d := m / s - r / s;
    assert m - r == s * d;
    MulSign(s, d);
  }

  /** Snapping an already snapped value changes nothing. */
  lemma SnapIdempotent(v: int, g: Grid)
    requires Snaps(g) ==> g.size > 0
    ensures Snap(Snap(v, g), g) == Snap(v, g)
  {
    if Snaps(g) {
      SnapIsNearestMultiple(Snap(v, g), g, Snap(v, g));
    }
  }

  /** Rounding examples: halves go up, on both sides of zero. */
  lemma SnapHalves()
    ensures Snap(5, Grid(true, 10, true)) == 10
    ensures Snap(-5, Grid(true, 10, true)) == 0
    ensures Snap(103, Grid(true, 10, true)) == 100
    ensures Snap(207, Grid(true, 10, true)) == 210
    ensures Snap(123, Grid(true, 10, true)) == 120 && Snap(204, Grid(true, 10, true)) == 200
    ensures Snap(5, Grid(false, 10, true)) == 5 && Snap(5, Grid(true, 10, false)) == 5
  {
  }

  // ---------------------------------------------------------------------------
  // Rectangles

  datatype Rect = Rect(x: int, y: int, width: int, height: int)

  /** `rectsOverlap(a, b)`: the rectangles overlap unless one lies entirely to the
      left of, right of, above or below the other; touching edges do not overlap. */
  predicate RectsOverlap(a: Rect, b: Rect)
  {
    !(a.x + a.width <= b.x || b.x + b.width <= a.x || a.y + a.height <= b.y || b.y + b.height <= a.y)
  }

  /** Whether the pixel `(px, py)` lies in `r`, taken as half-open on the right and bottom. */
  predicate Inside(px: int, py: int, r: Rect)
  {
    r.x <= px < r.x + r.width && r.y <= py < r.y + r.height
  }

  lemma OverlapSymmetric(a: Rect, b: Rect)
    ensures RectsOverlap(a, b) == RectsOverlap(b, a)
  {
  }

  /** For rectangles of positive size, overlapping means sharing a pixel. */
  lemma OverlapIffCommonPixel(a: Rect, b: Rect)
    requires a.width > 0 && a.height > 0 && b.width > 0 && b.height > 0
    ensures RectsOverlap(a, b) <==> exists px, py :: Inside(px, py, a) && Inside(px, py, b)
  {
    if RectsOverlap(a, b) {
      var px := if a.x < b.x then b.x else a.x;
      var py := if a.y < b.y then b.y else a.y;
      assert Inside(px, py, a) && Inside(px, py, b);
    }
  }

  /** Rectangles that only share an edge do not overlap. */
  lemma SharedEdgeIsNoOverlap()
    ensures !RectsOverlap(Rect(0, 0, 10, 10), Rect(10, 0, 10, 10))
    ensures !RectsOverlap(Rect(0, 0, 10, 10), Rect(0, 10, 10, 10))
    ensures RectsOverlap(Rect(0, 0, 10, 10), Rect(9, 9, 10, 10))
  {
  }

  // ---------------------------------------------------------------------------
  // Template catalog

  /** A catalog entry: the default width and height and the default content. */
  datatype Template = Template(kind: ElementType, defaultWidth: Dim, defaultHeight: Dim, content: Content)

  /** `TEMPLATES[t]`. */
  function TemplateOf(t: ElementType): (tpl: Template)
    ensures tpl.kind == t
  {
    match t
    case Header => Template(Header, Str("100%"), Num(80), NoContent.(text := Some("Site Title")))
    case Footer => Template(Footer, Str("100%"), Num(60), NoContent.(copyright := Some("© Test Builder | Test Case")))
    case Card => Template(Card, Num(300), Num(200),
      NoContent.(title := Some("Card"), description := Some("Card description...")))
    case TextContent => Template(TextContent, Num(650), Str("auto"),
      NoContent.(html := Some("<p>Text content will go here</p>")))
    case Slider => Template(Slider, Str("100%"), Num(400), NoContent.(slides := Some([])))
  }

  /** The lookup `TEMPLATES[key]` for a key that arrives as free text. */
  function LookupTemplate(key: string): (r: Option<ElementType>)
    ensures r.Some? ==> r.value.Tag() == key
  {
    if key == "header" then Some(Header)
    else if key == "footer" then Some(Footer)
    else if key == "card" then Some(Card)
    else if key == "text-content" then Some(TextContent)
    else if key == "slider" then Some(Slider)
    else None
  }

  /** Every type is found under its own tag, so tags are pairwise distinct. */
  lemma LookupTag(t: ElementType)
    ensures LookupTemplate(t.Tag()) == Some(t)
  {
  }

  lemma TagInjective(t1: ElementType, t2: ElementType)
    requires t1.Tag() == t2.Tag()
    ensures t1 == t2
  {
    LookupTag(t1);
    LookupTag(t2);
  }

  /** Whether `key` is one of the five supported type tags. */
  predicate IsKnownType(key: string)
  {
    key in ["header", "footer", "card", "text-content", "slider"]
  }

  lemma KnownTypeIffTemplate(key: string)
    ensures IsKnownType(key) <==> LookupTemplate(key).Some?
  {
  }

  // ---------------------------------------------------------------------------
  // Element ids

  /** The characters JavaScript's `\s` matches. */
  predicate IsWhitespace(c: char)
  {
    || c == ' ' || c == '\t' || c == '\n' || c == '\r' || c == '\U{000B}' || c == '\U{000C}'
    || c == '\U{00A0}' || c == '\U{1680}' || '\U{2000}' <= c <= '\U{200A}'
    || c == '\U{2028}' || c == '\U{2029}' || c == '\U{202F}' || c == '\U{205F}'
    || c == '\U{3000}' || c == '\U{FEFF}'
  }

  /** `s.replace(/\s+/g, '_')`: every maximal run of white space becomes one `_`. */
  function ReplaceWhitespace(s: string): (r: string)
    ensures |r| <= |s|
    ensures forall i :: 0 <= i < |r| ==> !IsWhitespace(r[i])
    decreases |s|
  {
    if s == [] then []
    else if IsWhitespace(s[0]) then "_" + ReplaceWhitespace(DropWhitespace(s))
    else [s[0]] + ReplaceWhitespace(s[1..])
  }

  /** `s` without its leading run of white space. */
  function DropWhitespace(s: string): (r: string)
    requires s != [] && IsWhitespace(s[0])
    ensures |r| < |s| && (r == [] || !IsWhitespace(r[0]))
  {
    if |s| == 1 || !IsWhitespace(s[1]) then s[1..] else DropWhitespace(s[1..])
  }

  lemma {:induction false} ReplaceWhitespaceKeeps(s: string)
    requires forall i :: 0 <= i < |s| ==> !IsWhitespace(s[i])
    ensures ReplaceWhitespace(s) == s
  {
    if s != [] {
      ReplaceWhitespaceKeeps(s[1..]);
    }
  }

  /** Dropping a maximal run of white space leaves exactly what follows it. */
  lemma {:induction false} DropRun(w: string, rest: string)
    requires |w| > 0 && forall i :: 0 <= i < |w| ==> IsWhitespace(w[i])
    requires rest == [] || !IsWhitespace(rest[0])
    ensures DropWhitespace(w + rest) == rest
  {
    var s := w + rest;
    if |w| == 1 {
      assert s[1..] == rest;
    } else {
      assert s[1] == w[1];
      DropRun(w[1..], rest);
      assert s[1..] == w[1..] + rest;
    }
  }

  /** `replace(/\s+/g, '_')` run by run: the text before a maximal run of white
      space is kept as it is, the run becomes exactly one `_`, and the rest of
      the text is replaced in the same way. */
  lemma {:induction false} ReplaceRun(t: string, w: string, rest: string)
    requires forall i :: 0 <= i < |t| ==> !IsWhitespace(t[i])
    requires |w| > 0 && forall i :: 0 <= i < |w| ==> IsWhitespace(w[i])
    requires rest == [] || !IsWhitespace(rest[0])
    ensures ReplaceWhitespace(t + w + rest) == t + "_" + ReplaceWhitespace(rest)
  {
    if t == [] {
      assert t + w + rest == w + rest;
      assert (w + rest)[0] == w[0];
      DropRun(w, rest);
    } else {
      var s := t + w + rest;
      assert s[0] == t[0];
      assert s[1..] == t[1..] + w + rest;
      ReplaceRun(t[1..], w, rest);
      assert t + "_" + ReplaceWhitespace(rest) == [t[0]] + (t[1..] + "_" + ReplaceWhitespace(rest));
    }
  }

  predicate IsTokenChar(c: char)
  {
    'a' <= c <= 'z' || 'A' <= c <= 'Z' || IsDigit(c) || c == '_' || c == '-'
  }

  lemma TagChars(t: ElementType)
    ensures |t.Tag()| >= 1
    ensures forall i :: 0 <= i < |t.Tag()| ==> IsTokenChar(t.Tag()[i]) && !IsWhitespace(t.Tag()[i])
  {
  }

  /** The id `uidFor` gives the `n`-th element of type `t`:
      `elem_<type>_<n padded to three digits>`. */
  function ElemId(t: ElementType, n: nat): string
  {
    "elem_" + ReplaceWhitespace(t.Tag()) + "_" + PadStart3(Decimal(n))
  }

  /** The pattern `^elem_[a-zA-Z0-9_-]+_[0-9]{3}$` that exported ids must match. */
  predicate MatchesIdPattern(s: string)
  {
    && |s| >= 10
    && s[..5] == "elem_"
    && (forall i :: 5 <= i < |s| - 4 ==> IsTokenChar(s[i]))
    && s[|s| - 4] == '_'
    && (forall i :: |s| - 3 <= i < |s| ==> IsDigit(s[i]))
  }

  /** An id from `uidFor` matches the id pattern exactly while its index has at
      most three digits: from index 1000 on, the padding gives four digits. */
  lemma ElemIdPattern(t: ElementType, n: nat)
    ensures MatchesIdPattern(ElemId(t, n)) <==> n <= 999
  {
    TagChars(t);
    ReplaceWhitespaceKeeps(t.Tag());
    DecimalAtMostThreeDigits(n);
    var tag := t.Tag();
    var digits := PadStart3(Decimal(n));
    var s := ElemId(t, n);
    assert s == "elem_" + tag + "_" + digits;
    assert AllDigits(digits);
    assert forall i :: |s| - |digits| <= i < |s| ==> s[i] == digits[i - (|s| - |digits|)];
    if n <= 999 {
      assert |digits| == 3;
      assert forall i :: 5 <= i < |s| - 4 ==> s[i] == tag[i - 5];
    } else {
      assert |digits| >= 4;
      assert IsDigit(s[|s| - 4]);
    }
  }

  /** A prefix ending in `_` followed by digits splits in one way only. */
  lemma SplitBeforeDigits(a1: string, d1: string, a2: string, d2: string)
    requires |a1| >= 1 && a1[|a1| - 1] == '_' && AllDigits(d1)
    requires |a2| >= 1 && a2[|a2| - 1] == '_' && AllDigits(d2)
    requires a1 + d1 == a2 + d2
    ensures a1 == a2 && d1 == d2
  {
    var s := a1 + d1;
    assert s[|a1| - 1] == '_' && s[|a2| - 1] == '_';
    assert forall i :: |a1| <= i < |s| ==> IsDigit(s[i]);
    assert forall i :: |a2| <= i < |s| ==> IsDigit(s[i]);
    assert |a1| == |a2|;
    assert a1 == s[..|a1|] && a2 == s[..|a2|];
  }

  lemma ElemIdParts(t: ElementType, n: nat)
    ensures ElemId(t, n) == ("elem_" + t.Tag() + "_") + PadStart3(Decimal(n))
    ensures AllDigits(PadStart3(Decimal(n))) && DigitsValue(PadStart3(Decimal(n))) == n
  {
    ReplaceWhitespaceKeeps(t.Tag());
    PadStart3Value(Decimal(n));
    DecimalValue(n);
  }

  lemma IdPrefixInjective(t1: ElementType, t2: ElementType)
    requires "elem_" + t1.Tag() + "_" == "elem_" + t2.Tag() + "_"
    ensures t1 == t2
  {
    var a1, a2 := "elem_" + t1.Tag() + "_", "elem_" + t2.Tag() + "_";
    assert t1.Tag() == a1[5..|a1| - 1];
    assert t2.Tag() == a2[5..|a2| - 1];
    TagInjective(t1, t2);
  }

  /** Different (type, index) pairs give different ids. */
  lemma ElemIdInjective(t1: ElementType, n1: nat, t2: ElementType, n2: nat)
    requires ElemId(t1, n1) == ElemId(t2, n2)
    ensures t1 == t2 && n1 == n2
  {
    ElemIdParts(t1, n1);
    ElemIdParts(t2, n2);
    SplitBeforeDigits("elem_" + t1.Tag() + "_", PadStart3(Decimal(n1)), "elem_" + t2.Tag() + "_", PadStart3(Decimal(n2)));
    IdPrefixInjective(t1, t2);
  }

  /** The module-level `idCounters`: the next index to hand out for each type.
      `issued` records, for the proofs, every (type, index) pair handed out so far. */
  class IdCounters {
    var next: map<ElementType, int>
    ghost var issued: set<(ElementType, nat)>

    ghost predicate Valid()
      reads this
    {
      && (forall t: ElementType :: t in next && next[t] >= 1)
      && (forall p | p in issued :: p.1 < next[p.0])
    }

    /** Every id handed out so far. */
    ghost function IssuedIds(): set<string>
      reads this
    {
      set p | p in issued :: ElemId(p.0, p.1)
    }

    /** The counters as the module initialises them: every type starts at 1. */
    constructor ()
      ensures Valid() && issued == {}
      ensures next == map[Header := 1, Footer := 1, Card := 1, TextContent := 1, Slider := 1]
    {
      next := map[Header := 1, Footer := 1, Card := 1, TextContent := 1, Slider := 1];
      issued := {};
      new;
      forall t: ElementType
        ensures t in next && next[t] >= 1
      {
        match t
        case Header =>
        case Footer =>
        case Card =>
        case TextContent =>
        case Slider =>
      }
    }

    /** `uidFor(t)`: hands out the current index of `t` (or 1 if the counter is
        unset or 0), advances only that counter, and returns the formatted id. */
    method UidFor(t: ElementType) returns (id: string)
      requires Valid()
      modifies this
      ensures Valid()
      ensures id == ElemId(t, old(next[t]))
      ensures next == old(next)[t := old(next[t]) + 1]
      ensures id !in old(IssuedIds())
      ensures IssuedIds() == old(IssuedIds()) + {id}
    {
      var idx := if t in next && next[t] != 0 then next[t] else 1;
      next := next[t := idx + 1];
      id := ElemId(t, idx);
      forall p | p in issued
        ensures ElemId(p.0, p.1) != id
      {
        if ElemId(p.0, p.1) == id {
          ElemIdInjective(p.0, p.1, t, idx);
        }
      }
      issued := issued + {(t, idx)};
    }
  }
}
