# Layout builder core, modelled in Dafny

The builder is a page editor. A page is a list of elements (header, footer, card,
text block, slider). Each element has an id, a type, content and a position:
x, y, a width and a height that are pixels or CSS text, and a z-index. The user
drops elements from a template catalog onto a canvas, drags and resizes them with
the pointer, edits them in an inspector, changes their stacking order, deletes
them, and exports or loads the page as a JSON document. `validateExport` checks
such a document's structure.

The model covers four source files, one Dafny module each, on top of two shared
modules:

- `Types` (types.dfy): the records (`Element`, `Position`, `Dim`, `Grid`,
  `Document`, ...) and the id, z-index, max and min views of an element list.
- `Strings` (strings.dfy): the JavaScript number/text conversions the code relies
  on, taken on integers: `String(n)`, `padStart(3, '0')`, `Number(s)` and
  `Number(x) || fallback`.
- `Helpers` (helpers.dfy, src/utils/helpers.ts): `snap`, `rectsOverlap`, the
  `TEMPLATES` catalog, and `idCounters`/`uidFor`. `uidFor` is a class whose map
  field each call advances.
- `Validation` (validation.dfy, the rest of src/utils/helpers.ts):
  `validateExport`. It has two forms:
  - a specification function that lists the reports in the source's order;
  - the imperative loops (`forEach`, and the `for` that breaks at the first
    missing z-index), proved equal to that function.

  `NoErrorsIffWellFormed` ties the report list to an element-by-element
  statement of what a well-formed document is.
- `Layout` (layout.dfy, src/components/layout/index.tsx): the page state as a
  class `Store` (elements, canvas size, grid, selection, counters), with these
  parts:
  - the initial page;
  - `createElementFromTemplate`, `onCanvasDrop`, `buildExport` and `onLoadJSON`;
  - the sidebar's "new page";
  - the export/load round trip;
  - the proof that the initial page exports as a document that passes
    validation.
- `Canvas` (canvas.dfy, src/components/home/Canvas.tsx): the move and resize
  gestures, as a class holding the two gesture records and the page they act on.
  Also the card's delete button and the click-to-select and click-to-clear
  handlers.
- `Inspector` (inspector.dfy, src/components/home/Inspector.tsx):
  - the collision check;
  - bring-to-front and send-to-back;
  - the X/Y/W/H edits with their number-or-text rule;
  - delete.

Every list rewrite the components do with `prev.map(el => el.id === id ? ... : el)`
is the one function `Layout.Retarget`. `Layout.RetargetOnlyTarget` proves once
that only the elements carrying the id change, and only in their position.

Some behaviour of the code is worth stating outright:

- `onLoadJSON` takes the document's canvas size when both sides are truthy,
  that is nonzero, not when they are positive. A negative width is taken.
- On a page that validates, `sendToBack` and `bringToFront` can produce a
  z-index report:
  - `sendToBack` gives the target `min - 1`, which is 0 on a valid page, so the
    "should start from 1" report follows (`Inspector.SendToBackUnsettlesZ`);
  - `bringToFront` of an element below the top leaves its old level empty, so a
    missing z-index is reported (`Inspector.BringToFrontUnsettlesZ`).
- No code path calls `validateExport`. The "Validate & Export" button only
  exports. The function is modelled as written.

The initial page's footer text is the mis-encoded `"Â© Test Builder | Test Case"`
as it appears in the layout file; the template catalog has `"©"`.

## Model

| member | source | states |
|---|---|---|
| Types.MaxOf | src/components/layout/index.tsx:188-190 | `Math.max` of a non-empty list is one of its entries and at least every entry |
| Types.MinOf | src/components/home/Inspector.tsx:85 | `Math.min` of a non-empty list is one of its entries and at most every entry |
| Strings.Decimal | src/utils/helpers.ts:22 | `String(n)` of a natural number is a non-empty run of decimal digits |
| Strings.DecimalValue | src/utils/helpers.ts:22 | the digits `String(n)` writes read back as `n` |
| Strings.DecimalAtMostThreeDigits | src/utils/helpers.ts:22 | `String(n)` has at most three digits exactly when `n <= 999` |
| Strings.PadStart3 | src/utils/helpers.ts:22 | `padStart(3, '0')` is three long or the string itself, ends with the string, and is preceded only by zeros |
| Strings.PadStart3Value | src/utils/helpers.ts:22 | zero padding keeps a digit string's value |
| Strings.ParseDecimal | src/components/home/Inspector.tsx:106-107 | `Number` of the digits of `n` is `n` |
| Strings.ParseNegated | src/components/home/Inspector.tsx:106-107 | `Number` of `-` followed by the digits of `n` is `-n` |
| Strings.ParseIntText | src/components/home/Inspector.tsx:106-107 | `Number(String(n)) === n` for every integer |
| Strings.NumberOr | src/components/home/Canvas.tsx:94-95 | `Number(d)` with a fallback is the nonzero number `d` stands for when there is one, and the fallback whenever `Number(d)` is NaN or 0 |
| Strings.CssStringsFallBack | src/components/home/Canvas.tsx:94-95 | "100%", "auto" and 0 all give the fallback |
| Helpers.Snap | src/utils/helpers.ts:25-27 | without snapping the value is unchanged; with it the result is a multiple of the cell size within half a cell, a half taken upwards |
| Helpers.SnapIsNearestMultiple | src/utils/helpers.ts:26 | any multiple of the cell size within half a cell (half up) of `v` is `snap(v)`, so snapping is rounding to the nearest multiple |
| Helpers.SnapIdempotent | src/utils/helpers.ts:25-27 | snapping a snapped value changes nothing |
| Helpers.SnapHalves | src/utils/helpers.ts:26 | 5 snaps to 10, -5 to 0, 103 to 100, 207 to 210, and a disabled or non-snapping grid keeps 5 |
| Helpers.OverlapSymmetric | src/utils/helpers.ts:29-31 | `rectsOverlap(a, b) == rectsOverlap(b, a)` |
| Helpers.OverlapIffCommonPixel | src/utils/helpers.ts:29-31 | for rectangles of positive size, overlap holds exactly when they share a pixel |
| Helpers.SharedEdgeIsNoOverlap | src/utils/helpers.ts:29-31 | rectangles sharing only an edge do not overlap; a one-pixel intersection does |
| Helpers.TemplateOf | src/utils/helpers.ts:10-16 | each catalog entry carries the type it is filed under |
| Helpers.LookupTemplate | src/components/layout/index.tsx:205 | a free-text key finds a template only under that template's own tag |
| Helpers.LookupTag | src/utils/helpers.ts:10-16 | every type is found under its tag |
| Helpers.TagInjective | src/utils/helpers.ts:10-16 | distinct types have distinct tags |
| Helpers.KnownTypeIffTemplate | src/utils/helpers.ts:58 | the types `validateExport` allows are exactly the catalog's keys |
| Helpers.ReplaceWhitespace | src/utils/helpers.ts:22 | `replace(/\s+/g, '_')` leaves no white space and never lengthens the text |
| Helpers.ReplaceRun | src/utils/helpers.ts:22 | `replace(/\s+/g, '_')` turns each maximal run of white space into exactly one `_` and keeps the other characters in order |
| Helpers.ReplaceWhitespaceKeeps | src/utils/helpers.ts:22 | text without white space is unchanged |
| Helpers.TagChars | src/utils/helpers.ts:38 | every type tag is non-empty and made of id-pattern characters |
| Helpers.ElemIdPattern | src/utils/helpers.ts:22-38 | a generated id matches `^elem_[a-zA-Z0-9_-]+_[0-9]{3}$` exactly when its index is at most 999 |
| Helpers.ElemIdInjective | src/utils/helpers.ts:19-23 | equal generated ids come from the same type and index |
| Helpers.IdCounters.constructor | src/utils/helpers.ts:18 | every counter starts at 1 and nothing has been issued |
| Helpers.IdCounters.UidFor | src/utils/helpers.ts:19-23 | returns `elem_<type>_<index padded to 3>` for the type's current index, advances only that counter by one, and the id differs from every id issued before |
| Validation.Dedup | src/utils/helpers.ts:37 | `[...new Set(s)]` has the same members as `s` and no repeats |
| Validation.DedupSnoc | src/utils/helpers.ts:37 | `[...new Set(s)]` keeps first occurrences in order: appending a value already seen adds nothing, a new value goes at the end |
| Validation.DuplicatedMembers | src/utils/helpers.ts:36 | an id is in the duplicate filter's output exactly when it occurs at least twice |
| Validation.DuplicateFree | src/utils/helpers.ts:36 | the duplicate filter is empty exactly when all ids are distinct |
| Validation.DuplicateReport | src/utils/helpers.ts:35-37 | at most one duplicate report; none exactly when ids are distinct; it names every repeated id exactly once |
| Validation.Unmatched | src/utils/helpers.ts:39 | an id is listed exactly when it is one of the ids and fails the pattern |
| Validation.UnmatchedAppend | src/utils/helpers.ts:39 | the filter keeps order and repetitions: the failing ids of a joined list are those of the first part followed by those of the second |
| Validation.UnmatchedOne | src/utils/helpers.ts:39 | a single id is listed exactly when it fails the pattern |
| Validation.UnmatchedEmpty | src/utils/helpers.ts:38-40 | no id fails the pattern exactly when every id matches it |
| Validation.PositionErrorsEmpty | src/utils/helpers.ts:42-49 | the per-element checks report nothing exactly when every x is in `[0, width]`, every y in `[0, height]`, and both sides are numbers ≥ 0, text ending in `%`, or "auto" |
| Validation.ChecksAreIndependent | src/utils/helpers.ts:42-49 | an element failing x, y, width and height gets the four reports, in that order, width and height each as `<id>: invalid` |
| Validation.FirstMissing | src/utils/helpers.ts:55 | the value found is the least in the range absent from the list; none is found exactly when the range is covered |
| Validation.ZReport | src/utils/helpers.ts:51-56 | "should start from 1" is reported exactly when the smallest z-index is not 1; at most one missing value is reported, the least absent one in 1..max; an empty list gives no z report |
| Validation.ZErrorsEmpty | src/utils/helpers.ts:51-56 | no z report exactly when every z-index is at least 1 and every value from 1 up to each one is present |
| Validation.ZExamplesWithGaps | src/utils/helpers.ts:51-56 | `[1, 2, 4]` reports only the missing 3; `[2, 3]` reports the start and the missing 1 |
| Validation.ZExamplesWithoutGaps | src/utils/helpers.ts:51-56 | `[0, 1, 2]` reports only the start; `[1, 1, 2]` passes |
| Validation.UnsupportedIds | src/utils/helpers.ts:59 | an id is listed exactly when some element carries it with a type outside the five, and the list is no longer than the elements |
| Validation.UnsupportedIdsAppend | src/utils/helpers.ts:59 | the ids of unsupported elements keep the elements' order and repetitions across a joined list |
| Validation.UnsupportedIdsOne | src/utils/helpers.ts:59 | a single element is reported, by its id, exactly when its type is outside the five |
| Validation.UnsupportedIdsEmpty | src/utils/helpers.ts:58-60 | no unsupported-type report exactly when every type is one of the five |
| Validation.FieldErrorsEmpty | src/utils/helpers.ts:62 | no missing-field report exactly when every element has a non-empty id and type |
| Validation.IdChecksEmpty | src/utils/helpers.ts:35-40 | no duplicate report exactly when ids are distinct; no pattern report exactly when all match |
| Validation.NoErrorsIffWellFormed | src/utils/helpers.ts:33-64 | `validateExport` returns no report exactly when ids are distinct and well formed, every element is placed and sized validly, z-indices are contiguous from 1, types are supported and required fields are present |
| Validation.CheckElement | src/utils/helpers.ts:43-48 | one `forEach` pass pushes the element's reports in the source's order |
| Validation.CheckPositions | src/utils/helpers.ts:42-49 | the `forEach` loop's pushes are the per-element reports in element order |
| Validation.FindMissingZ | src/utils/helpers.ts:55 | the loop that breaks at the first gap finds the least value in 1..max absent from the list, or finds none when there is none |
| Validation.CheckRequiredFields | src/utils/helpers.ts:62 | the last `forEach` reports each element with an empty id or type, naming `<missing id>` when the id is empty |
| Validation.CheckIds | src/utils/helpers.ts:35-40 | the duplicate report and the pattern report, in that order |
| Validation.CheckZ | src/utils/helpers.ts:51-56 | the z reports, computed with the breaking loop, are those of the specification |
| Validation.ValidateExport | src/utils/helpers.ts:33-64 | the whole method's reports are the specification's, in the order the source pushes them |
| Layout.RetargetOnlyTarget | src/components/home/Canvas.tsx:55-68 | the id-targeted rewrite keeps the order, leaves every other element equal, and changes only the target's position as the edit says |
| Layout.RetargetAbsent | src/components/home/Canvas.tsx:55-68 | a rewrite of an id no element carries changes nothing |
| Layout.RemoveKeepsOthers | src/components/home/Canvas.tsx:156 | `filter(x => x.id !== id)` keeps exactly the elements not carrying the id |
| Layout.RemoveAppend | src/components/home/Canvas.tsx:156 | the filter keeps order and repetitions: removing from a joined list removes from each part |
| Layout.RemoveOne | src/components/home/Canvas.tsx:156 | a single element is dropped exactly when it carries the id |
| Layout.RemoveAbsent | src/components/home/Inspector.tsx:111 | removing an id no element carries changes nothing |
| Layout.NextZ | src/components/layout/index.tsx:188-196 | a new z-index is 1 on an empty page; otherwise it is strictly above every existing one, and one above some existing one |
| Layout.InstantiateShape | src/components/layout/index.tsx:170-198 | a new element has the given id, the requested type, exactly the given x and y, the template's content, the resolved default size per type and a z-index above every element |
| Layout.ResolveRules | src/components/layout/index.tsx:174-186 | a numeric default stays; width "100%" becomes the canvas width and other text 300; height "auto" becomes 100 and other text is kept |
| Layout.ElemIdEq | src/utils/helpers.ts:22 | two generated ids are equal exactly when type and index are |
| Layout.InitialZs | src/components/layout/index.tsx:27-94 | the initial page's z-indices are 1, 2, 3, 4, 5 in order, with no gap |
| Layout.InitialIdsDistinct | src/components/layout/index.tsx:27-94 | distinct ids given to the initial elements stay distinct in the list |
| Layout.InitialPageShape | src/components/layout/index.tsx:27-94 | from any counters the initial page has five elements with distinct ids and z-indices 1 to 5 |
| Layout.ExportKeepsElements | src/components/layout/index.tsx:127-133 | the export keeps the elements in order with identical id, type, content and position, and writes `{}` for an absent `responsive` |
| Layout.ExportMetadata | src/components/layout/index.tsx:118-140 | `totalElements` is the element count, the format is "json", the version "2.0", and the canvas part is the page's size and grid |
| Layout.ExportIdempotent | src/components/layout/index.tsx:127-133 | exporting an exported list changes nothing |
| Layout.LoadKeepsCanvasNonzero | src/components/layout/index.tsx:162-167 | a load never leaves a zero canvas side behind a nonzero one, and the canvas changes only when the document carries a canvas |
| Layout.LoadExportRoundTrip | src/components/layout/index.tsx:118-168 | loading an export gives back the same count, order, ids, types, contents and positions and the same canvas size, and re-exporting gives the same document |
| Layout.IssueCardIds | src/components/layout/index.tsx:45-63 | the two card ids use the card counter's current index and the next one, and advance it by two |
| Layout.IssueHeaderAndCards | src/components/layout/index.tsx:28-63 | the header and two card ids come from the current header and card indices; only those counters advance |
| Layout.IssueTextAndFooter | src/components/layout/index.tsx:65-91 | the text and footer ids come from their current indices; only those counters advance |
| Layout.IssueInitialIds | src/components/layout/index.tsx:27-94 | the five initial ids in source order, and each type's counter advanced by its number of calls |
| Layout.Store.constructor | src/components/layout/index.tsx:16-94 | the page starts with the five initial elements, a 1200×800 canvas, a 10-pixel snapping grid and no selection |
| Layout.Store.CreateElementFromTemplate | src/components/layout/index.tsx:170-198 | the element built from the template with a fresh id from the type's counter; the page is unchanged |
| Layout.Store.OnCanvasDrop | src/components/layout/index.tsx:200-216 | an empty or unknown type changes nothing; otherwise exactly one new element is appended at the snapped point, the old ones are kept, and it is selected |
| Layout.Store.OnLoadJSON | src/components/layout/index.tsx:157-168 | without `elements` nothing changes; otherwise the list becomes the document's, and the canvas size changes only when both sides are given and nonzero |
| Layout.Store.NewPage | src/components/sidebar/index.tsx:18-20 | the element list becomes empty and nothing else changes |
| Layout.ExportKeepsIdChecks | src/components/layout/index.tsx:127-133 | the export has the same ids, and passes the id, pattern and field checks exactly when the page does |
| Layout.ExportKeepsLayoutChecks | src/components/layout/index.tsx:127-133 | the export has the same z-indices, and passes the placement and type checks exactly when the page does |
| Layout.InitialIdChecks | src/components/layout/index.tsx:27-94 | with distinct ids of the generated form, the initial page passes the id and field checks |
| Layout.InitialLayoutChecks | src/components/layout/index.tsx:27-94 | the initial page lies within the 1200×800 canvas, uses supported types and has contiguous z-indices |
| Layout.InitialExportWellFormed | src/components/layout/index.tsx:118-140 | the initial page, exported, is a well-formed document |
| Layout.InitialExportValid | src/components/layout/index.tsx:27-140 | with counters at most 999, `validateExport` reports nothing on the initial page's export |
| Canvas.MovedCoordinate | src/components/home/Canvas.tsx:52-63 | a moved coordinate is the origin plus the travel, rounded to the nearest grid multiple when snapping |
| Canvas.ResizedSide | src/components/home/Canvas.tsx:106-113 | a resized side is at least 20; it is the snapped size whenever that is at least 20, and 20 otherwise |
| Canvas.ResizeCapture | src/components/home/Canvas.tsx:94-95 | a nonzero numeric size is captured as is; "100%", "auto" and 0 fall back to 100 (width) and 50 (height) |
| Canvas.Canvas.constructor | src/components/home/Canvas.tsx:20-27 | both gestures start idle, with no id and zero captures |
| Canvas.Canvas.ElementMouseDown | src/components/home/Canvas.tsx:29-46 | a non-primary button changes neither selection nor gesture; the primary one selects the element and starts a move capturing its id, the pointer and its x and y |
| Canvas.Canvas.WindowMove | src/components/home/Canvas.tsx:48-69 | while a move is on, the captured element goes to the snapped origin plus travel; otherwise the list is unchanged |
| Canvas.Canvas.WindowUp | src/components/home/Canvas.tsx:71-75 | the move is switched off and nothing else changes |
| Canvas.Canvas.ResizeStart | src/components/home/Canvas.tsx:86-100 | a resize starts capturing the id, the pointer and `Number(w)` falling back to 100 and `Number(h)` falling back to 50 |
| Canvas.Canvas.ResizeMove | src/components/home/Canvas.tsx:102-117 | while a resize is on, the captured element gets the floored, snapped sizes; otherwise the list is unchanged |
| Canvas.Canvas.ResizeEnd | src/components/home/Canvas.tsx:119-123 | the resize is switched off, so later resize moves change nothing |
| Canvas.Canvas.DeleteCard | src/components/home/Canvas.tsx:156 | every element with the id is removed; the selection is cleared only if it was that id |
| Canvas.Canvas.BackgroundClick | src/components/home/Canvas.tsx:126 | a click on the canvas clears the selection and changes nothing else |
| Canvas.Canvas.ElementClick | src/components/home/Canvas.tsx:147 | a click on an element selects it and changes nothing else |
| Canvas.MoveOnlyRelocates | src/components/home/Canvas.tsx:55-68 | a move sets x and y of the captured element only; ids, types, content, sizes, z-indices and order are kept |
| Canvas.ResizeOnlyResizes | src/components/home/Canvas.tsx:109-116 | a resize sets only the captured element's width and height, both numbers at least 20; x, y, z-index and the others are kept |
| Canvas.DropCard | src/components/layout/index.tsx:200-216 | a card dropped at (103, 207) on a fresh page lands at (100, 210), 300×200, as the last element |
| Canvas.DropAndDrag | src/components/home/Canvas.tsx:29-75 | dragging that card 23 right and 6 up puts it at (120, 200), and a move after release does nothing |
| Canvas.DropAndShrink | src/components/home/Canvas.tsx:86-123 | shrinking that card far past its size leaves it 20×20, and a move after release does nothing |
| Inspector.TextSideCollision | src/components/home/Inspector.tsx:49-66 | a side written as "100%" or "auto" counts as 0, so such an element collides only when its own x (or y) lies strictly inside the other element's span |
| Inspector.FindById | src/components/home/Inspector.tsx:46 | `find` gives nothing exactly when no element carries the id, and otherwise the first element carrying it |
| Inspector.FindDistinct | src/components/home/Inspector.tsx:46 | with distinct ids, `find` of an element's id is that element |
| Inspector.CheckCollision | src/components/home/Inspector.tsx:45-70 | false when no element has the id; otherwise true exactly when some element with another id overlaps the target |
| Inspector.CollisionIsMutual | src/components/home/Inspector.tsx:45-70 | with distinct ids, two overlapping elements both report a collision |
| Inspector.LoneElementNeverCollides | src/components/home/Inspector.tsx:56-57 | a page of one element never reports a collision |
| Inspector.RaisedOnTop | src/components/home/Inspector.tsx:72-81 | bring-to-front puts the target strictly above every element and changes nothing but the target's z-index |
| Inspector.LoweredAtBottom | src/components/home/Inspector.tsx:83-92 | send-to-back puts the target strictly below every element and changes nothing but the target's z-index |
| Inspector.RaisedZs | src/components/home/Inspector.tsx:72-81 | the target's new z-index is the old maximum plus one; other ids keep theirs |
| Inspector.LoweredZ | src/components/home/Inspector.tsx:83-92 | the target's new z-index is the old minimum minus one |
| Inspector.CleanStartsAtOne | src/utils/helpers.ts:53 | a list without z reports has minimum 1 |
| Inspector.BelowOneReported | src/utils/helpers.ts:53 | any z-index below 1 triggers "should start from 1" |
| Inspector.GapReported | src/utils/helpers.ts:55 | the least absent value below some z-index is reported missing |
| Inspector.RaiseLeavesGap | src/utils/helpers.ts:51-56 | moving a level's only holder from below the top to above it makes that level reported missing |
| Inspector.SendToBackUnsettlesZ | src/components/home/Inspector.tsx:83-92 | send-to-back on a page with clean z-indices always produces the "should start from 1" report |
| Inspector.BringToFrontUnsettlesZ | src/components/home/Inspector.tsx:72-81 | bring-to-front of a level's only holder below the top, on a clean page, produces a missing-level report |
| Inspector.CoerceShownDim | src/components/home/Inspector.tsx:106-107 | retyping what the field shows gives back the same number or non-numeric text |
| Inspector.CoerceExamples | src/components/home/Inspector.tsx:106-107 | "250" and "-40" become numbers, "100%" stays text, an empty field becomes 0 |
| Inspector.BringToFront | src/components/home/Inspector.tsx:72-81 | the list becomes the raised list; selection and canvas size are unchanged |
| Inspector.SendToBack | src/components/home/Inspector.tsx:83-92 | the list becomes the lowered list; selection and canvas size are unchanged |
| Inspector.EditX | src/components/home/Inspector.tsx:104 | only the target's x becomes the value |
| Inspector.EditY | src/components/home/Inspector.tsx:105 | only the target's y becomes the value |
| Inspector.EditWidth | src/components/home/Inspector.tsx:106 | only the target's width becomes the coerced input |
| Inspector.EditHeight | src/components/home/Inspector.tsx:107 | only the target's height becomes the coerced input |
| Inspector.Delete | src/components/home/Inspector.tsx:111 | the element is removed and the selection cleared |
| Inspector.EditCoordinateOnly | src/components/home/Inspector.tsx:104-105 | an x or y edit changes that one coordinate of the target and nothing else |
| Inspector.EditSideOnly | src/components/home/Inspector.tsx:106-107 | a width or height edit sets that one side of the target and nothing else |
| Inspector.DeleteRemovesAll | src/components/home/Inspector.tsx:111 | after a delete no element carries the id and every other element is still there |

## Left out

- Rendering, styling, the drop preview box and the inner HTML of text blocks are presentation only. So is the inspector's "Selected removed" and "No selection" text.
- `onCanvasDragOver` and the drag-start/drag-end handlers set only the preview position, the unused dragging-template state and the drag ghost image. The drop's reset of those is left out with them.
- The ghost element's timer, the Blob/URL file download, the clipboard write and `alert` are browser I/O.
- Adding and removing `window` listeners is modelled as the `active` flag of each gesture record. A listener left behind by an earlier gesture is not modelled.
- The sidebar's FileReader, `JSON.parse` and toast errors are I/O. `onLoadJSON` takes the parsed document as a `LoadRequest` value.
- The two `new Date().toISOString()` timestamps of `buildExport` are string parameters.
- `canvasRef.current` being null in `onCanvasDrop` is left out. The drop's pointer point is given relative to the canvas, already rounded.
- Coordinates, sizes and z-indices are integers. There is no floating point, no NaN stored in a position, and no missing z-index read as 0: every element has a z-index and a position.
- Inspector.EditX: the X and Y fields take an integer, not `Number` of arbitrary text.
- Strings.ParseNumber: `Number(s)` covers an optional sign followed by decimal digits, and the empty text as 0. Any other text, including white space, decimals and exponents, is NaN.
- Helpers.LookupTemplate: keys such as "constructor", which a plain object lookup would also find, are not modelled.
- Helpers.Snap: the grid's cell size must be positive when snapping is on, as the page's fixed grid is.
- The quick-add buttons and the grid toggle are not modelled. `Layout` passes neither `createElementFromTemplate` nor `setGrid` to those components, so the handlers cannot run.
- Validation.ZErrors: reads the smallest and largest z-index directly instead of sorting the list. Those are the only values the checks take from the sorted list.
- Helpers.IdCounters.UidFor: the module-level counters are an object passed to whoever issues ids; the `|| 1` fallback for an unset or zero counter is in the code, but the proofs keep every counter at least 1.
- Inspector.BringToFrontUnsettlesZ: states the broken z sequence for an element alone on its level and below the top. A raised element that shares its level, or is already on top, leaves no gap.
- Inspector.BringToFront, Inspector.SendToBack, Inspector.EditX, Inspector.EditY, Inspector.EditWidth, Inspector.EditHeight, Inspector.Delete: these act on the id they are given. The selected element is the one the inspector found, which is not re-checked.
