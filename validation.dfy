/** `validateExport` (src/utils/helpers.ts): the structural checks on an exported
    document. Every check runs whatever the others found, and each failure adds
    one report to the list; an empty list means the document is well formed. */
module Validation {
  import opened Types
  import opened Strings
  import opened Helpers

  /** One report of `validateExport`; `Message` renders it as the source words it. */
  datatype ValidationError =
    | DuplicateIds(ids: seq<string>)
    | IdsNotMatchingPattern(ids: seq<string>)
    | XOutOfRange(id: string)
    | YOutOfRange(id: string)
    | InvalidDimension(id: string)
    | ZIndexShouldStartFrom1
    | ZIndexMissing(value: int)
    | UnsupportedTypes(ids: seq<string>)
    | MissingRequiredFields(subject: string)

  /** `items.join(sep)`. */
  function Join(items: seq<string>, sep: string): string
  {
    if items == [] then ""
    else if |items| == 1 then items[0]
    else items[0] + sep + Join(items[1..], sep)
  }

  function Message(e: ValidationError): string
  {
    match e
    case DuplicateIds(ids) => "Duplicate IDs: " + Join(ids, ", ")
    case IdsNotMatchingPattern(ids) => "IDs not matching pattern: " + Join(ids, ", ")
    case XOutOfRange(id) => id + ": x out of range"
    case YOutOfRange(id) => id + ": y out of range"
    case InvalidDimension(id) => id + ": invalid"
    case ZIndexShouldStartFrom1 => "z-index should start from 1"
    case ZIndexMissing(v) => "z-index missing value " + IntText(v)
    case UnsupportedTypes(ids) => "Unsupported types: " + Join(ids, ", ")
    case MissingRequiredFields(subject) => subject + ": missing required fields"
  }

  // ---------------------------------------------------------------------------
  // Duplicate ids

  /** `ids.filter((v, i, a) => a.indexOf(v) !== i)`: every occurrence of an id
      after its first one. (`a.indexOf(v) !== i` says that `v` occurs before `i`.) */
  function Duplicated(ids: seq<string>): seq<string>
  {
    if ids == [] then []
    else
      var init, last := ids[..|ids| - 1], ids[|ids| - 1];
      Duplicated(init) + (if last in init then [last] else [])
  }

  /** `[...new Set(s)]`: the first occurrence of every value, in order. */
  function Dedup(s: seq<string>): (r: seq<string>)
    ensures forall x :: x in r <==> x in s
    ensures NoDups(r)
  {
    if s == [] then []
    else
      var r := Dedup(s[..|s| - 1]);
      if s[|s| - 1] in r then r else r + [s[|s| - 1]]
  }

  /** `new Set` keeps insertion order: an id already seen adds nothing, and a new
      one goes to the end, so the message lists ids by first occurrence. */
  lemma DedupSnoc(s: seq<string>, x: string)
    ensures Dedup([]) == []
    ensures Dedup(s + [x]) == if x in s then Dedup(s) else Dedup(s) + [x]
  {
    assert (s + [x])[..|s|] == s;
  }

  predicate NoDups(s: seq<string>)
  {
    forall i, j :: 0 <= i < j < |s| ==> s[i] != s[j]
  }

  /** Whether `x` occurs at least twice in `ids`. */
  predicate Repeated(ids: seq<string>, x: string)
  {
    exists i, j :: 0 <= i < j < |ids| && ids[i] == x && ids[j] == x
  }

  lemma {:induction false} DuplicatedMembers(ids: seq<string>)
    ensures forall x :: x in Duplicated(ids) <==> Repeated(ids, x)
  {
    if ids != [] {
      var init, last := ids[..|ids| - 1], ids[|ids| - 1];
      DuplicatedMembers(init);
      forall x
        ensures x in Duplicated(ids) <==> Repeated(ids, x)
      {
        if Repeated(init, x) {
          var i, j :| 0 <= i < j < |init| && init[i] == x && init[j] == x;
          assert ids[i] == x && ids[j] == x;
        }
        if Repeated(ids, x) {
          var i, j :| 0 <= i < j < |ids| && ids[i] == x && ids[j] == x;
          if j < |ids| - 1 {
            assert init[i] == x && init[j] == x;
          } else {
            assert init[i] == x;
          }
        }
        if x == last && last in init {
          var i :| 0 <= i < |init| && init[i] == last;
          assert ids[i] == x && ids[|ids| - 1] == x;
        }
      }
    }
  }

  function DuplicateErrors(ids: seq<string>): seq<ValidationError>
  {
    var dup := Duplicated(ids);
    if |dup| > 0 then [DuplicateIds(Dedup(dup))] else []
  }

  /** No occurrence comes after a first one exactly when all ids are distinct. */
  lemma DuplicateFree(ids: seq<string>)
    ensures Duplicated(ids) == [] <==> NoDups(ids)
  {
    DuplicatedMembers(ids);
    if !NoDups(ids) {
      var i, j :| 0 <= i < j < |ids| && ids[i] == ids[j];
      assert Repeated(ids, ids[i]);
      assert ids[i] in Duplicated(ids);
    }
    if Duplicated(ids) != [] {
      var x := Duplicated(ids)[0];
      assert Repeated(ids, x);
      var i, j :| 0 <= i < j < |ids| && ids[i] == x && ids[j] == x;
    }
  }

  /** At most one duplicate-id report; it names every repeated id exactly once,
      and there is none exactly when all ids are distinct. */
  lemma DuplicateReport(ids: seq<string>)
    ensures |DuplicateErrors(ids)| <= 1
    ensures DuplicateErrors(ids) == [] <==> NoDups(ids)
    ensures forall e | e in DuplicateErrors(ids) ::
      e.DuplicateIds? && NoDups(e.ids) && forall x :: x in e.ids <==> Repeated(ids, x)
  {
    DuplicateFree(ids);
    var dup := Duplicated(ids);
    if |dup| > 0 {
      DuplicatedMembers(ids);
      assert DuplicateErrors(ids) == [DuplicateIds(Dedup(dup))];
    }
  }

  // ---------------------------------------------------------------------------
  // Id pattern

  /** `ids.filter(id => !idRegex.test(id))`. */
  function Unmatched(ids: seq<string>): (bad: seq<string>)
    ensures forall x {:trigger x in bad} :: x in bad <==> x in ids && !MatchesIdPattern(x)
  {
    if ids == [] then []
    else
      var last := ids[|ids| - 1];
      Unmatched(ids[..|ids| - 1]) + (if MatchesIdPattern(last) then [] else [last])
  }

  lemma {:induction false} UnmatchedEmpty(ids: seq<string>)
    ensures Unmatched(ids) == [] <==> forall i :: 0 <= i < |ids| ==> MatchesIdPattern(ids[i])
  {
    if ids != [] {
      UnmatchedEmpty(ids[..|ids| - 1]);
      assert forall i :: 0 <= i < |ids| - 1 ==> ids[..|ids| - 1][i] == ids[i];
    }
  }

  /** The pattern filter works id by id, keeping the order: a list's failing ids
      are those of its first part followed by those of the rest. */
  lemma {:induction false} UnmatchedAppend(a: seq<string>, b: seq<string>)
    ensures Unmatched(a + b) == Unmatched(a) + Unmatched(b)
  {
    if b == [] {
      assert a + b == a;
    } else {
      var init, last := b[..|b| - 1], b[|b| - 1];
      assert b == init + [last];
      assert a + b == (a + init) + [last];
      UnmatchedAppend(a, init);
      UnmatchedSnoc(a + init, last);
      UnmatchedSnoc(init, last);
    }
  }

  lemma UnmatchedSnoc(s: seq<string>, x: string)
    ensures Unmatched(s + [x]) == Unmatched(s) + Unmatched([x])
  {
    assert (s + [x])[..|s|] == s;
    assert [x][..0] == [];
  }

  lemma UnmatchedOne(x: string)
    ensures Unmatched([x]) == if MatchesIdPattern(x) then [] else [x]
  {
    assert [x][..0] == [];
  }

  function PatternErrors(ids: seq<string>): seq<ValidationError>
  {
    var bad := Unmatched(ids);
    if |bad| > 0 then [IdsNotMatchingPattern(bad)] else []
  }

  // ---------------------------------------------------------------------------
  // Position and dimensions, per element

  /** `checkDim`: a number at least 0, a string ending in `%`, or "auto". */
  predicate ValidDim(d: Dim)
  {
    match d
    case Num(n) => n >= 0
    case Str(s) => (|s| > 0 && s[|s| - 1] == '%') || s == "auto"
  }

  /** The four checks on one element, in the order the source makes them. */
  function ElementErrors(el: Element, canvas: CanvasData): seq<ValidationError>
  {
    var p := el.position;
    (if p.x < 0 || p.x > canvas.width then [XOutOfRange(el.id)] else [])
    + (if p.y < 0 || p.y > canvas.height then [YOutOfRange(el.id)] else [])
    + (if !ValidDim(p.width) then [InvalidDimension(el.id)] else [])
    + (if !ValidDim(p.height) then [InvalidDimension(el.id)] else [])
  }

  function PositionErrors(els: seq<Element>, canvas: CanvasData): seq<ValidationError>
  {
    if els == [] then []
    else PositionErrors(els[..|els| - 1], canvas) + ElementErrors(els[|els| - 1], canvas)
  }

  predicate InBounds(p: Position, canvas: CanvasData)
  {
    0 <= p.x <= canvas.width && 0 <= p.y <= canvas.height
  }

  lemma {:induction false} PositionErrorsEmpty(els: seq<Element>, canvas: CanvasData)
    ensures PositionErrors(els, canvas) == [] <==> AllPlaced(els, canvas)
  {
    if els != [] {
      PositionErrorsEmpty(els[..|els| - 1], canvas);
      assert forall i :: 0 <= i < |els| - 1 ==> els[..|els| - 1][i] == els[i];
    }
  }

  /** Checks do not stop one another: an element failing all four gets four reports. */
  lemma ChecksAreIndependent(c: Content)
    ensures var el := Element("elem_card_001", "card", c, Position(-1, 900, Str("12px"), Num(-3), 1, None, None), None);
      ElementErrors(el, CanvasData(1200, 800, Grid(true, 10, true))) ==
        [XOutOfRange("elem_card_001"), YOutOfRange("elem_card_001"),
         InvalidDimension("elem_card_001"), InvalidDimension("elem_card_001")]
  {
    assert "12px"[3] == 'x';
  }

  // ---------------------------------------------------------------------------
  // z-indices

  /** The least integer in `lo..hi` missing from `zs`, if any: the source's loop
      `for (i = 1; i <= max; i++) if (!zs.includes(i)) { ...; break; }`. */
  function FirstMissing(zs: seq<int>, lo: int, hi: int): (r: Option<int>)
    ensures r.Some? ==> lo <= r.value <= hi && r.value !in zs && forall j :: lo <= j < r.value ==> j in zs
    ensures r.None? ==> forall j :: lo <= j <= hi ==> j in zs
    decreases hi - lo
  {
    if lo > hi then None
    else if lo !in zs then Some(lo)
    else FirstMissing(zs, lo + 1, hi)
  }

  /** The z-index checks. Sorting the list only serves to read its smallest value
      (first) and its largest (last), so they are taken directly. */
  function ZErrors(zs: seq<int>): seq<ValidationError>
  {
    if |zs| == 0 then []
    else
      (if MinOf(zs) != 1 then [ZIndexShouldStartFrom1] else [])
      + (match FirstMissing(zs, 1, MaxOf(zs))
         case Some(v) => [ZIndexMissing(v)]
         case None => [])
  }

  /** z-indices that are all at least 1 and leave no gap below any of them. */
  predicate ZContiguous(zs: seq<int>)
  {
    && (forall i :: 0 <= i < |zs| ==> 1 <= zs[i])
    && (forall i, v :: 0 <= i < |zs| && 1 <= v <= zs[i] ==> v in zs)
  }

  /** "should start from 1" is reported exactly when the smallest z-index is not 1;
      at most one missing value is reported, the least one in 1..max. */
  lemma ZReport(zs: seq<int>)
    ensures ZIndexShouldStartFrom1 in ZErrors(zs) <==> |zs| > 0 && MinOf(zs) != 1
    ensures forall k, l :: 0 <= k < l < |ZErrors(zs)| ==> !(ZErrors(zs)[k].ZIndexMissing? && ZErrors(zs)[l].ZIndexMissing?)
    ensures forall e | e in ZErrors(zs) && e.ZIndexMissing? ::
      1 <= e.value <= MaxOf(zs) && e.value !in zs && forall j :: 1 <= j < e.value ==> j in zs
    ensures (exists e :: e in ZErrors(zs) && e.ZIndexMissing?) <==>
      |zs| > 0 && exists v :: 1 <= v <= MaxOf(zs) && v !in zs
    ensures zs == [] ==> ZErrors(zs) == []
  {
    if |zs| > 0 {
      var m := FirstMissing(zs, 1, MaxOf(zs));
      if m.Some? {
        assert ZIndexMissing(m.value) in ZErrors(zs);
      }
    }
  }

  lemma ZErrorsEmpty(zs: seq<int>)
    ensures ZErrors(zs) == [] <==> ZContiguous(zs)
  {
    if |zs| > 0 {
      var lo, hi := MinOf(zs), MaxOf(zs);
      if ZErrors(zs) == [] {
        assert lo == 1 && FirstMissing(zs, 1, hi) == None;
        forall i, v | 0 <= i < |zs| && 1 <= v <= zs[i]
          ensures v in zs
        {
        }
      }
      if ZContiguous(zs) {
        var k :| 0 <= k < |zs| && zs[k] == hi;
        assert forall v :: 1 <= v <= hi ==> v in zs;
        assert 1 in zs;
      }
    }
  }

  /** The z-index examples: `[1, 2, 4]` reports only the missing 3, and `[2, 3]`
      both the wrong start and the missing 1. */
  lemma ZExamplesWithGaps()
    ensures ZErrors([1, 2, 4]) == [ZIndexMissing(3)]
    ensures ZErrors([2, 3]) == [ZIndexShouldStartFrom1, ZIndexMissing(1)]
  {
    var a: seq<int> := [1, 2, 4];
    assert MinOf(a) == 1 && MaxOf(a) == 4;
    assert FirstMissing(a, 1, 4) == Some(3);
    var b: seq<int> := [2, 3];
    assert MinOf(b) == 2 && MaxOf(b) == 3;
    assert FirstMissing(b, 1, 3) == Some(1);
  }

  /** `[0, 1, 2]` only starts wrong, and the repeated `[1, 1, 2]` passes. */
  lemma ZExamplesWithoutGaps()
    ensures ZErrors([0, 1, 2]) == [ZIndexShouldStartFrom1]
    ensures ZErrors([1, 1, 2]) == []
  {
    var c: seq<int> := [0, 1, 2];
    assert MinOf(c) == 0 && MaxOf(c) == 2;
    assert FirstMissing(c, 1, 2) == None;
    var d: seq<int> := [1, 1, 2];
    assert MinOf(d) == 1 && MaxOf(d) == 2;
    assert FirstMissing(d, 1, 2) == None;
  }

  // ---------------------------------------------------------------------------
  // Types and required fields

  /** `elements.filter(e => !allowed.includes(e.type)).map(e => e.id)`. */
  function UnsupportedIds(els: seq<Element>): (r: seq<string>)
    ensures |r| <= |els|
    ensures forall x :: x in r <==> exists i :: 0 <= i < |els| && els[i].id == x && !IsKnownType(els[i].kind)
  {
    if els == [] then []
    else
      var last := els[|els| - 1];
      UnsupportedIds(els[..|els| - 1]) + (if IsKnownType(last.kind) then [] else [last.id])
  }

  lemma {:induction false} UnsupportedIdsEmpty(els: seq<Element>)
    ensures UnsupportedIds(els) == [] <==> AllKnownTypes(els)
  {
    if els != [] {
      UnsupportedIdsEmpty(els[..|els| - 1]);
      assert forall i :: 0 <= i < |els| - 1 ==> els[..|els| - 1][i] == els[i];
    }
  }

  /** The type filter works element by element, keeping the order. */
  lemma {:induction false} UnsupportedIdsAppend(a: seq<Element>, b: seq<Element>)
    ensures UnsupportedIds(a + b) == UnsupportedIds(a) + UnsupportedIds(b)
  {
    if b == [] {
      assert a + b == a;
    } else {
      var init, last := b[..|b| - 1], b[|b| - 1];
      assert b == init + [last];
      assert a + b == (a + init) + [last];
      UnsupportedIdsAppend(a, init);
      UnsupportedIdsSnoc(a + init, last);
      UnsupportedIdsSnoc(init, last);
    }
  }

  lemma UnsupportedIdsSnoc(s: seq<Element>, e: Element)
    ensures UnsupportedIds(s + [e]) == UnsupportedIds(s) + UnsupportedIds([e])
  {
    assert (s + [e])[..|s|] == s;
    assert [e][..0] == [];
  }

  lemma UnsupportedIdsOne(e: Element)
    ensures UnsupportedIds([e]) == if IsKnownType(e.kind) then [] else [e.id]
  {
    assert [e][..0] == [];
  }

  function TypeErrors(els: seq<Element>): seq<ValidationError>
  {
    var bad := UnsupportedIds(els);
    if |bad| > 0 then [UnsupportedTypes(bad)] else []
  }

  function FieldError(el: Element): seq<ValidationError>
  {
    if |el.id| == 0 || |el.kind| == 0 then
      [MissingRequiredFields(if |el.id| == 0 then "<missing id>" else el.id)]
    else []
  }

  function FieldErrors(els: seq<Element>): seq<ValidationError>
  {
    if els == [] then [] else FieldErrors(els[..|els| - 1]) + FieldError(els[|els| - 1])
  }

  lemma {:induction false} FieldErrorsEmpty(els: seq<Element>)
    ensures FieldErrors(els) == [] <==> AllFieldsPresent(els)
  {
    if els != [] {
      FieldErrorsEmpty(els[..|els| - 1]);
      assert forall i :: 0 <= i < |els| - 1 ==> els[..|els| - 1][i] == els[i];
    }
  }

  // ---------------------------------------------------------------------------
  // The whole validation

  /** The reports of `validateExport(doc)`, in the order it pushes them. */
  function ValidationErrors(doc: Document): seq<ValidationError>
  {
    var els := doc.elements;
    var ids := IdsOf(els);
    DuplicateErrors(ids) + PatternErrors(ids) + PositionErrors(els, doc.canvas)
    + ZErrors(ZsOf(els)) + TypeErrors(els) + FieldErrors(els)
  }

  predicate DistinctIds(els: seq<Element>)
  {
    forall i, j :: 0 <= i < j < |els| ==> els[i].id != els[j].id
  }

  predicate AllIdsMatch(els: seq<Element>)
  {
    forall i :: 0 <= i < |els| ==> MatchesIdPattern(els[i].id)
  }

  predicate AllPlaced(els: seq<Element>, canvas: CanvasData)
  {
    forall i :: 0 <= i < |els| ==>
      InBounds(els[i].position, canvas) && ValidDim(els[i].position.width) && ValidDim(els[i].position.height)
  }

  predicate AllKnownTypes(els: seq<Element>)
  {
    forall i :: 0 <= i < |els| ==> IsKnownType(els[i].kind)
  }

  predicate AllFieldsPresent(els: seq<Element>)
  {
    forall i :: 0 <= i < |els| ==> |els[i].id| > 0 && |els[i].kind| > 0
  }

  /** A document that passes every check, stated element by element. */
  predicate WellFormed(doc: Document)
  {
    var els := doc.elements;
    && DistinctIds(els)
    && AllIdsMatch(els)
    && AllPlaced(els, doc.canvas)
    && ZContiguous(ZsOf(els))
    && AllKnownTypes(els)
    && AllFieldsPresent(els)
  }

  lemma IdChecksEmpty(els: seq<Element>)
    ensures DuplicateErrors(IdsOf(els)) == [] <==> DistinctIds(els)
    ensures PatternErrors(IdsOf(els)) == [] <==> AllIdsMatch(els)
  {
    var ids := IdsOf(els);
    DuplicateReport(ids);
    UnmatchedEmpty(ids);
  }

  /** `validateExport` reports nothing exactly when the document is well formed. */
  lemma NoErrorsIffWellFormed(doc: Document)
    ensures ValidationErrors(doc) == [] <==> WellFormed(doc)
  {
    var els := doc.elements;
    var ids := IdsOf(els);
    var a, b, c := DuplicateErrors(ids), PatternErrors(ids), PositionErrors(els, doc.canvas);
    var d, e, f := ZErrors(ZsOf(els)), TypeErrors(els), FieldErrors(els);
    assert |ValidationErrors(doc)| == |a| + |b| + |c| + |d| + |e| + |f|;
    IdChecksEmpty(els);
    PositionErrorsEmpty(els, doc.canvas);
    ZErrorsEmpty(ZsOf(els));
    UnsupportedIdsEmpty(els);
    FieldErrorsEmpty(els);
  }

  /** One pass of the `forEach` that checks positions and dimensions. */
  method CheckElement(el: Element, canvas: CanvasData) returns (errors: seq<ValidationError>)
    ensures errors == ElementErrors(el, canvas)
  {
    var p := el.position;
    errors := [];
    if p.x < 0 || p.x > canvas.width {
      errors := errors + [XOutOfRange(el.id)];
    }
    if p.y < 0 || p.y > canvas.height {
      errors := errors + [YOutOfRange(el.id)];
    }
    if !ValidDim(p.width) {
      errors := errors + [InvalidDimension(el.id)];
    }
    if !ValidDim(p.height) {
      errors := errors + [InvalidDimension(el.id)];
    }
  }

  /** The `forEach` over the elements that checks positions and dimensions. */
  method CheckPositions(els: seq<Element>, canvas: CanvasData) returns (errors: seq<ValidationError>)
    ensures errors == PositionErrors(els, canvas)
  {
    errors := [];
    var i := 0;
    while i < |els|
      invariant 0 <= i <= |els|
      invariant errors == PositionErrors(els[..i], canvas)
    {
      var found := CheckElement(els[i], canvas);
      assert els[..i + 1][..i] == els[..i];
      errors := errors + found;
      i := i + 1;
    }
    assert els[..i] == els;
  }

  /** The loop over 1..max that reports the first value missing from `zs` and stops. */
  method FindMissingZ(zs: seq<int>, max: int) returns (missing: Option<int>)
    ensures missing.Some? ==> 1 <= missing.value <= max && missing.value !in zs
    ensures missing.Some? ==> forall j :: 1 <= j < missing.value ==> j in zs
    ensures missing.None? ==> forall j :: 1 <= j <= max ==> j in zs
  {
    missing := None;
    var k := 1;
    while k <= max
      invariant 1 <= k
      invariant forall j :: 1 <= j < k ==> j in zs
    {
      if k !in zs {
        missing := Some(k);
        break;
      }
      k := k + 1;
    }
  }

  /** The last `forEach`, which reports elements without an id or a type. */
  method CheckRequiredFields(els: seq<Element>) returns (errors: seq<ValidationError>)
    ensures errors == FieldErrors(els)
  {
    errors := [];
    var i := 0;
    while i < |els|
      invariant 0 <= i <= |els|
      invariant errors == FieldErrors(els[..i])
    {
      var el := els[i];
      if |el.id| == 0 || |el.kind| == 0 {
        errors := errors + [MissingRequiredFields(if |el.id| == 0 then "<missing id>" else el.id)];
      }
      assert els[..i + 1][..i] == els[..i];
      i := i + 1;
    }
    assert els[..i] == els;
  }

  /** The two checks on the list of ids. */
  method CheckIds(ids: seq<string>) returns (errors: seq<ValidationError>)
    ensures errors == DuplicateErrors(ids) + PatternErrors(ids)
  {
    errors := [];
    var dup := Duplicated(ids);
    if |dup| > 0 {
      errors := errors + [DuplicateIds(Dedup(dup))];
    }
    var bad := Unmatched(ids);
    if |bad| > 0 {
      errors := errors + [IdsNotMatchingPattern(bad)];
    }
  }

  /** The z-index checks, run only when there is at least one element. */
  method CheckZ(zs: seq<int>) returns (errors: seq<ValidationError>)
    ensures errors == ZErrors(zs)
  {
    errors := [];
    if |zs| > 0 {
      if MinOf(zs) != 1 {
        errors := errors + [ZIndexShouldStartFrom1];
      }
      var missing := FindMissingZ(zs, MaxOf(zs));
      UniqueFirstMissing(zs, MaxOf(zs), missing);
      if missing.Some? {
        errors := errors + [ZIndexMissing(missing.value)];
      }
      ZErrorsParts(zs, missing);
    }
  }

  /** `validateExport(project)`: the checks in the order the source makes them. */
  method ValidateExport(doc: Document) returns (errors: seq<ValidationError>)
    ensures errors == ValidationErrors(doc)
  {
    var els := doc.elements;
    var ids := IdsOf(els);
    errors := CheckIds(ids);
    var positionErrors := CheckPositions(els, doc.canvas);
    var zErrors := CheckZ(ZsOf(els));
    var typeErrors := [];
    var badTypes := UnsupportedIds(els);
    if |badTypes| > 0 {
      typeErrors := [UnsupportedTypes(badTypes)];
    }
    var fieldErrors := CheckRequiredFields(els);
    errors := errors + positionErrors + zErrors + typeErrors + fieldErrors;
  }

  lemma ZErrorsParts(zs: seq<int>, missing: Option<int>)
    requires |zs| > 0 && missing == FirstMissing(zs, 1, MaxOf(zs))
    ensures ZErrors(zs) ==
      (if MinOf(zs) != 1 then [ZIndexShouldStartFrom1] else [])
      + (if missing.Some? then [ZIndexMissing(missing.value)] else [])
  {
  }

  /** The least missing value is determined by its description. */
  lemma UniqueFirstMissing(zs: seq<int>, max: int, m: Option<int>)
    requires m.Some? ==> 1 <= m.value <= max && m.value !in zs && forall j :: 1 <= j < m.value ==> j in zs
    requires m.None? ==> forall j :: 1 <= j <= max ==> j in zs
    ensures m == FirstMissing(zs, 1, max)
  {
  }
}
