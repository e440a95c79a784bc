# Virtual trackpad: nested pointer indirection

A model of the pointer-indirection engine of the virtual-trackpad page
(`ver2.5.2/script.js`). The real pointer drives a virtual cursor inside a
bounded virtual screen through the outermost trackpad. While that cursor lies
over a nested trackpad, the same pointer movement also drives the nested
level's cursor, and so on down the chain. A click on the outermost trackpad is
dispatched at the page point under the cursor of the deepest level that the
chain of overlap tests reaches.

The page hard-codes four levels (parent, child, grandchild,
great-grandchild). The model works for any chain of n >= 1 levels, parent
first. It also proves that the general definitions agree with the
four-level code as written (`Propagation.FourLevelsAgree`,
`Click.FourLevelClickAgrees`).

Modules:

- `Geometry` covers rectangles, the strict overlap test `isOver` and the
  saturating clamp of `moveBy`.
- `Trackpad` covers one level:
  - `Layout` holds its measured geometry, supplied as input.
  - `Level` is its value: geometry, sensitivity and cursor position.
  - Construction and `moveBy` are modelled as functions on values.
  - The class `TrackpadSystem` holds the mutable fields `cursorX`,
    `cursorY`, `sensitivityX`, `sensitivityY` and the cursor's visibility.
    Its `MoveBy` is the source's step-by-step update, proved equal to the
    function `Moved`.
- `Sensitivity` defines the composed sensitivity of level i as the product
  of the screen/trackpad ratios of levels 0..i, with the lemmas behind
  composition in place.
- `Propagation` is the mouse-move pass as a function of the chain before
  the move:
  - `Depth` is the number of levels that move.
  - `Pass` is the chain after the move.
  - The lemmas state prefix activation, in-bounds preservation and
    zero-move behaviour.
- `Click` is target selection: the deepest level whose chain of overlap
  tests holds.
- `Engine` is the class `Indirection`. It holds the chain of
  `TrackpadSystem` objects, the gate set by entering and leaving the
  outermost trackpad, and the record of clicks dispatched. Its methods
  update the level objects in place and are proved against `Propagation`
  and `Click`.

Three points of the code's behaviour that the model keeps as they are:

- `isOver` is strict on all four sides (script.js:48), so rectangles that
  only touch along an edge are not over each other (`IsOver`).
- The constructor divides by the trackpad's size with no guard
  (script.js:9-10), so `WellFormed` requires positive trackpad extents.
- In one pass, the test of level i reads level i's position after its own
  move in that same pass (script.js:95-107).

Numbers are `real`. The page's offsets and bounding rectangles become
`Layout` inputs. The page's point hit-test (`elementFromPoint`) becomes a
function parameter `HitTest`. It receives the click point and the visibility
of every cursor, so the contract can state that every cursor was hidden when
the page was hit-tested.

## Model

| member | source | states |
|---|---|---|
| Geometry.IsOver | ver2.5.2/script.js:45-49 | the strict four-sided test; for rectangles of positive size it holds exactly when their intersection (larger left and top edges, smaller right and bottom edges) has positive width and height |
| Geometry.IsOverSymmetric | ver2.5.2/script.js:45-49 | the overlap test gives the same answer with its two rectangles swapped |
| Geometry.SharedEdgeIsNotOver | ver2.5.2/script.js:48 | two rectangles that only share an edge are not over each other (strict inequalities) |
| Geometry.IsOverIffCommonInteriorPoint | ver2.5.2/script.js:48 | for rectangles of positive area, the test holds exactly when some point lies strictly inside both |
| Geometry.Clamp | ver2.5.2/script.js:16-19 | the clamped value lies in [lo, hi], and a value already in range is returned unchanged |
| Geometry.ClampIsNearest | ver2.5.2/script.js:16-19 | the clamp returns the point of [lo, hi] nearest to the unclamped value |
| Geometry.ClampIdempotent | ver2.5.2/script.js:16-19 | clamping twice is clamping once |
| Trackpad.Initial | ver2.5.2/script.js:7-10 | a new level starts at the centre of its screen (2x = width, 2y = height), in bounds, with sensitivity × trackpad size = screen size per axis |
| Trackpad.Moved | ver2.5.2/script.js:13-19 | after any move the cursor is inside its screen on both axes; geometry and sensitivity are unchanged |
| Trackpad.MovedExactlyWhenInside | ver2.5.2/script.js:14-19 | if old position + delta × sensitivity lies in [0, size], the new position is exactly that; below 0 it is 0, beyond the size it is the size; per axis |
| Trackpad.CursorRect | ver2.5.2/script.js:46 | the cursor's bounding box in page coordinates keeps the size of the cursor element and sits at the click point offset by the element's box |
| Trackpad.ClickX | ver2.5.2/script.js:52-53 | `absoluteX`, the screen's left edge plus cursorX, lies on the screen whenever the cursor is in bounds |
| Trackpad.ClickY | ver2.5.2/script.js:52-54 | `absoluteY`, the screen's top edge plus cursorY, lies on the screen whenever the cursor is in bounds |
| Trackpad.AxesAreIndependent | ver2.5.2/script.js:14-19 | the new x does not depend on dy, and the new y does not depend on dx |
| Trackpad.ZeroMoveIsIdentity | ver2.5.2/script.js:13-19 | a zero move leaves an in-bounds level unchanged |
| Trackpad.CenterFixedByZeroMove | ver2.5.2/script.js:7-8 | a zero move from the initial centre position changes nothing |
| Trackpad.ZeroMoveAfterMove | ver2.5.2/script.js:13-19 | a zero move after any move changes nothing |
| Trackpad.FullSweepCrossesScreen | ver2.5.2/script.js:9-10 | with the level's own ratio, a sweep across the full trackpad from the origin carries the cursor exactly to the far corner of the screen |
| Trackpad.TrackpadSystem.constructor | ver2.5.2/script.js:2-12 | the new object's state is `Initial(layout)`, valid, with its cursor visible |
| Trackpad.TrackpadSystem.ScaleSensitivity | ver2.5.2/script.js:34-35 | each sensitivity is multiplied in place by the given parent value |
| Trackpad.TrackpadSystem.MoveBy | ver2.5.2/script.js:13-21 | the object's new state is `Moved(old state, dx, dy)`, so it stays in bounds; only the cursor fields change |
| Sensitivity.ComposeStep | ver2.5.2/script.js:34-39 | level i's composed sensitivity is its own ratio times its parent's composed sensitivity |
| Sensitivity.ComposedRoot | ver2.5.2/script.js:9-10 | the root's composed sensitivity is its own screen/trackpad ratio |
| Sensitivity.ProductSplit | ver2.5.2/script.js:34-39 | the product over a chain stacked under another is the product of the two products |
| Sensitivity.ProductPositive | ver2.5.2/script.js:34-39 | a product of positive ratios is positive |
| Sensitivity.ComposedPositive | ver2.5.2/script.js:9-10 | with screens of positive size, every composed sensitivity is positive |
| Propagation.DepthFrom | ver2.5.2/script.js:97-110 | starting from active level i, the number of levels moved lies in (i, n] (the recursion stops at the first failing test on moved positions) |
| Propagation.Depth | ver2.5.2/script.js:95-110 | at least the parent and at most every level moves |
| Propagation.DepthFromFacts | ver2.5.2/script.js:97-110 | every test below the depth holds on moved positions, and the test at the depth (if there is a deeper level) fails |
| Propagation.Pass | ver2.5.2/script.js:95-110 | the parent always moves; every other level is either moved by the same raw (dx, dy) or untouched |
| Propagation.PassByDepth | ver2.5.2/script.js:95-110 | a chain moved below the depth and untouched from it on is exactly the pass |
| Propagation.OnMouseMove | ver2.5.2/script.js:91 | when the pointer is not over the outermost trackpad, a move changes nothing; otherwise the parent moves |
| Propagation.PassTestIsMovedTest | ver2.5.2/script.js:97-107 | for an active level, the overlap test on the chain after the pass is the test the pass made |
| Propagation.ActivationCondition | ver2.5.2/script.js:97-110 | level i+1 moves if and only if every overlap test of levels 0..i holds, each read after that level's own move |
| Propagation.StopsAtFirstMiss | ver2.5.2/script.js:103-110 | once a test fails, no deeper level moves (no skipped level) |
| Propagation.PassKeepsInBounds | ver2.5.2/script.js:95-110 | the pass keeps every cursor inside its screen |
| Propagation.ZeroMoveFixesChain | ver2.5.2/script.js:95-110 | a zero move leaves an in-bounds chain exactly as it is |
| Propagation.ZeroMoveAfterPass | ver2.5.2/script.js:95-110 | a zero move after any pass changes nothing |
| Propagation.RawDeltaMatchesParentCursor | ver2.5.2/script.js:34-39 | with composed sensitivities and no clamping, a level's displacement under the raw delta equals its parent's on-screen displacement times the level's own ratio |
| Propagation.MouseMoveFourLevels | ver2.5.2/script.js:95-110 | the handler as written for four levels, statement by statement: the parent always moves, and every other level is moved by the raw delta or left as it was |
| Propagation.FourLevelsAgree | ver2.5.2/script.js:95-110 | the four-level handler as written produces exactly `Pass` |
| Click.TargetFrom | ver2.5.2/script.js:75-87 | from level i, the selected level has every test before it holding and its own test (if it has a child) failing |
| Click.ClickTarget | ver2.5.2/script.js:74-88 | the target is a level whose tests above all hold and whose own test fails when there is a deeper level |
| Click.ClickTargetIsDeepest | ver2.5.2/script.js:79-87 | every level whose chain of tests holds is at or above the target |
| Click.ClickTargetIsUnique | ver2.5.2/script.js:79-87 | exactly one level meets the description of the target |
| Click.ClickTargetFourLevels | ver2.5.2/script.js:79-87 | the if/else chain as written: the chosen level is at least 1 exactly when the parent is over the child, at least 2 exactly when the first two tests hold, and 3 exactly when all three hold |
| Click.FourLevelClickAgrees | ver2.5.2/script.js:75-87 | on four levels, the target is the one the if/else chain picks |
| Click.ClickAfterMoveHitsDeepestMoved | ver2.5.2/script.js:74-111 | a click right after a move goes to the deepest level that move reached |
| Click.ZeroMoveDepthIsClickTarget | ver2.5.2/script.js:74-111 | under a zero move, the pass reaches exactly down to the level a click would go to |
| Click.ZeroMoveKeepsDepth | ver2.5.2/script.js:95-110 | a zero move after any move reaches exactly as deep as that move did |
| Engine.ComposeLevel | ver2.5.2/script.js:34-39 | one `*=` step, with the parent already composed, leaves the child at its composed sensitivity |
| Engine.Indirection.constructor | ver2.5.2/script.js:29-41 | one fresh level per layout, each cursor at its screen's centre and visible; the sensitivities are composed; the gate is off |
| Engine.Indirection.NewLevels | ver2.5.2/script.js:29-32 | distinct fresh level objects, one per layout, each in its initial state |
| Engine.Indirection.ComposeSensitivities | ver2.5.2/script.js:34-39 | after the parent-to-child loop every level holds the product of the ratios of levels 0..i; cursor positions and visibility are unchanged |
| Engine.Indirection.OnMouseEnter | ver2.5.2/script.js:42 | entering the outermost trackpad opens the gate |
| Engine.Indirection.OnMouseLeave | ver2.5.2/script.js:43 | leaving the outermost trackpad closes the gate |
| Engine.Indirection.OnMouseMove | ver2.5.2/script.js:90-111 | the chain's new state is the pure handler's result on the old state, the object invariant is kept, and only cursor positions may change |
| Engine.Indirection.Propagate | ver2.5.2/script.js:95-110 | the first `Depth` levels are each moved by the same raw (dx, dy), every deeper level is untouched, and only cursor positions may change |
| Engine.Indirection.SetAllVisible | ver2.5.2/script.js:56-59 | every cursor's visibility is set, and no cursor position or sensitivity changes |
| Engine.Indirection.ExecuteVirtualClick | ver2.5.2/script.js:51-72 | the page is hit-tested at the level's screen origin plus cursor position, with every cursor hidden; afterwards every cursor is visible and nothing else changes; a click is recorded if and only if something was hit |
| Engine.Indirection.OnClick | ver2.5.2/script.js:74-88 | the click goes to `ClickTarget` of the current chain, with the guarantees of `ExecuteVirtualClick` |

## Left out

- Looking up the page elements by id, and the error thrown when one is
  missing (ver2.5.2/script.js:3-6). The model's constructors take the
  geometry of the elements directly.
- Writing the cursor's position into its style (`updateCursorPosition`)
  and the visibility style itself. The model keeps the position and a
  visibility flag per cursor.
- Measurement from the page (`offsetWidth`, `offsetHeight`,
  `getBoundingClientRect`). Geometry is given as `Layout` inputs and does
  not change.
- The page's `elementFromPoint` and the element's `click()`. They are the
  `HitTest` parameter and the `clicks` record.
- Listener registration, `DOMContentLoaded` and `console.log`. The
  handlers are methods of `Indirection`, and the event's movement is the
  `(dx, dy)` argument.
- Trackpad.TrackpadSystem.constructor: sets the cursor visible, while the
  code never writes the visibility when it builds a level
  (script.js:2-12). On the page the initial value is the stylesheet's
  default, which is not part of this model.
- Floating-point rounding. Positions, sizes and ratios are exact reals.
- The tutorial and memory-game pages (`Ver.3.0_with tutorial&games`) are
  not part of this model.
