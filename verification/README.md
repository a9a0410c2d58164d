# Multiple bottom sheets: stack geometry and drag cascade

This project models the core of `MultipleSheetsContainer`, an Android layout
that stacks a fixed number of bottom sheets on the bottom edge of a container.
Each sheet can be resized by dragging a handle strip at its top. Resizing one
sheet pushes the same height change into the sheets on one side of it.

The model has five modules:

- `Sheets` (`sheets.dfy`): a sheet is `(minHeight, maxHeight, height)` in
  whole pixels. The module defines the clamp for the dragged sheet, with the
  lower bound tested first. It defines the raise and lower rules for
  neighbours. It also defines the stack predicates `AllInBounds`, `Spaced`,
  `Gapped` and `Stacked`.
- `Stack` (`stack.dfy`): `addSheets`. The loop `count downTo 1` is written
  as a tail-recursive function. It is proved equal to a closed form: sheet
  `k` has minimum `spacing*(count-k)`, maximum `H - k*spacing`, and starts at
  its minimum.
- `Cascade` (`cascade.dfy`): one move event. `Move` defines the result index
  by index. `ApplyMove` follows the listener's own steps: compute, re-check
  the clamp, then run the loop over the sheets above or the loop over the
  sheets below. It is proved equal to `Move`.
- `Gesture` (`gesture.dfy`): the per-sheet touch listener. It is a state
  machine over the captured `dy` and `shouldDrag`, with `ACTION_DOWN`,
  `ACTION_MOVE` and every other action.
- `Container` (`container.dfy`): the `onSizeChanged` once-guard
  (`areSheetsAdded`), the routing of touches to each sheet's listener, and
  runs of host events.

Modelling assumptions:

- A sheet's rendered height equals its layout height between move events.
  The listener reads the first and writes the second.
- `rawY` and the sheet's on-screen top are whole pixels. The float
  subtraction followed by `toInt()` is therefore plain integer subtraction.
- The drag formula uses the display height (`screenMaxHeight`, kept in
  `Config.screenHeight`). The first sheet's maximum uses the container's own
  height, which is the `height` passed to `OnSizeChanged`. These are two
  separate inputs.
- Sheet `k` in the model is the `k`-th sheet added. `sheets.indexOf` of a
  sheet is therefore its own index.

Behaviour of the code worth noting:

- A release or cancel does not reset `dy` or `shouldDrag`. These keep their
  values until the next press.
- A press above the sheet's top edge has a negative distance. It still arms
  the drag, because the test is only `rawY - top > spacing`.
- There is no validation of the configuration. A non-positive count builds an
  empty stack. A container shorter than `count*spacing` builds sheets whose
  bounds are inverted. For such a sheet the clamp gives its minimum for a
  proposal below the minimum, and its maximum for any other proposal. On such
  a stack an upward cascade can even shrink a neighbour, because its cap at
  the maximum lies below its current height (`Sheets.RaiseInvertedShrinks`).
  The one-sidedness of the cascade holds regardless (`Cascade.OneSided`).
  Also, on such a stack a move whose clamped height equals the old height
  still changes neighbours: with a distance of zero, a neighbour whose height
  lies below its minimum is still set to that minimum (:237-239). For example,
  moving sheet 0 of `[Sheet(60, 50, 50), Sheet(30, 20, 20)]` towards 100
  leaves sheet 0 at 50 and sets sheet 1 to 30 (`Cascade.ZeroDeltaStillLifts`). This is why
  `Cascade.NoChangeIff` assumes every height is within its bounds.

## Model

| member | source | states |
|---|---|---|
| Sheets.Abs | multiplebottomsheets/src/main/java/com/roshaan/multiplebottomsheets/MultipleSheetsContainer.kt:179 | `Math.abs` as used for the dragged distance: the result is non-negative and is either the argument or its negation. |
| Sheets.Clamp | multiplebottomsheets/src/main/java/com/roshaan/multiplebottomsheets/MultipleSheetsContainer.kt:183-197 | With ordered bounds the new height lies within them, and equals the proposal when the proposal already does. The result is always the proposal, the minimum or the maximum. The minimum wins when the proposal is below it, even with inverted bounds; otherwise a proposal above the maximum gives the maximum. |
| Sheets.ClampIsNearest | multiplebottomsheets/src/main/java/com/roshaan/multiplebottomsheets/MultipleSheetsContainer.kt:183-197 | With ordered bounds the clamped height is the point of `[min, max]` nearest the proposal. |
| Sheets.Raise | multiplebottomsheets/src/main/java/com/roshaan/multiplebottomsheets/MultipleSheetsContainer.kt:208-225 | A sheet above an upward drag keeps its bounds and stays within them. It grows by at most `delta`, and by exactly `delta` unless it stops at its maximum. |
| Sheets.RaiseInvertedShrinks | multiplebottomsheets/src/main/java/com/roshaan/multiplebottomsheets/MultipleSheetsContainer.kt:211-223 | On a sheet with inverted bounds (min 90, max 50, height 90), raising by 10 gives height 50, a decrease. |
| Sheets.Lower | multiplebottomsheets/src/main/java/com/roshaan/multiplebottomsheets/MultipleSheetsContainer.kt:231-246 | A sheet below a downward drag keeps its bounds and stays within them. It shrinks by at most `delta`, and by exactly `delta` unless it stops at its minimum. |
| Stack.AddSheetsFrom | multiplebottomsheets/src/main/java/com/roshaan/multiplebottomsheets/MultipleSheetsContainer.kt:94-128 | Continuing the construction loop from a correct prefix gives exactly one sheet per pass. Each sheet is in closed form. |
| Stack.AddSheets | multiplebottomsheets/src/main/java/com/roshaan/multiplebottomsheets/MultipleSheetsContainer.kt:91-129 | There are `count` sheets, or none when `count < 1`. Sheet `k` has minimum `spacing*(count-k)` and maximum `H - k*spacing`. The first maximum is `H` and the last minimum is `spacing`. Adjacent bounds differ by exactly `spacing`. Each sheet starts at its minimum, so adjacent heights differ by `spacing`. |
| Stack.ThreeSheetExample | multiplebottomsheets/src/main/java/com/roshaan/multiplebottomsheets/MultipleSheetsContainer.kt:94-117 | With three sheets 30 apart in a 900-pixel container, the bounds are (90, 900), (60, 870) and (30, 840). |
| Stack.BoundsDecrease | multiplebottomsheets/src/main/java/com/roshaan/multiplebottomsheets/MultipleSheetsContainer.kt:97-103 | With a positive spacing, both bounds strictly decrease with the index, for any two indices. |
| Stack.BoundsOrderedIff | multiplebottomsheets/src/main/java/com/roshaan/multiplebottomsheets/MultipleSheetsContainer.kt:97-103 | For `count >= 1`, every built sheet has `min <= height <= max` if and only if the container height is at least `count*spacing`. |
| Stack.AddSheetsStacked | multiplebottomsheets/src/main/java/com/roshaan/multiplebottomsheets/MultipleSheetsContainer.kt:21 | A container at least `count*spacing` tall yields a stack that is spaced, within bounds and gapped, which is the ordering the class comment describes. A non-positive count gives the empty stack, which is trivially so. |
| Cascade.Move | multiplebottomsheets/src/main/java/com/roshaan/multiplebottomsheets/MultipleSheetsContainer.kt:177-247 | A move keeps the number of sheets and every sheet's bounds. If every height was within its bounds before the move, it still is afterwards. |
| Cascade.DraggedSheet | multiplebottomsheets/src/main/java/com/roshaan/multiplebottomsheets/MultipleSheetsContainer.kt:177-202 | The dragged sheet lands within its ordered bounds, and on the proposal itself when that is within them. Below the minimum it lands on the minimum. Above the maximum, and not below the minimum, it lands on the maximum. |
| Cascade.OneSided | multiplebottomsheets/src/main/java/com/roshaan/multiplebottomsheets/MultipleSheetsContainer.kt:205-247 | For any stack, bounds ordered or not: when the clamped height grows, no higher-index sheet changes; otherwise no lower-index sheet changes. |
| Cascade.Directionality | multiplebottomsheets/src/main/java/com/roshaan/multiplebottomsheets/MultipleSheetsContainer.kt:205-247 | With every height within its bounds: when the clamped height grows, every lower-index sheet grows by at most `delta`, and by exactly `delta` unless it is at its maximum; higher-index sheets are unchanged. Otherwise every higher-index sheet shrinks in the same way, down to its minimum, and lower-index sheets are unchanged. |
| Cascade.NoChangeIff | multiplebottomsheets/src/main/java/com/roshaan/multiplebottomsheets/MultipleSheetsContainer.kt:179-197 | With heights within bounds, a move leaves the stack unchanged if and only if the clamped height equals the old height. So a sheet pinned at a bound and pushed past it moves no neighbour. |
| Cascade.ZeroDeltaStillLifts | multiplebottomsheets/src/main/java/com/roshaan/multiplebottomsheets/MultipleSheetsContainer.kt:231-244 | On a stack that is not within bounds, a move with distance 0 still sets a neighbour below its minimum to that minimum: `[Sheet(60,50,50), Sheet(30,20,20)]` moved at sheet 0 towards 100 becomes `[Sheet(60,50,50), Sheet(30,20,30)]`. |
| Cascade.MoveKeepsStacked | multiplebottomsheets/src/main/java/com/roshaan/multiplebottomsheets/MultipleSheetsContainer.kt:183-247 | A move preserves spaced bounds, heights within bounds, and adjacent heights at least `spacing` apart. |
| Cascade.ApplyMove | multiplebottomsheets/src/main/java/com/roshaan/multiplebottomsheets/MultipleSheetsContainer.kt:177-251 | The listener's computation computes `delta` and direction first, and recomputes both in the clamp branches. It then runs one loop over the sheets above or one loop over the sheets below. The result equals the index-by-index cascade `Move`. |
| Gesture.OnTouch | multiplebottomsheets/src/main/java/com/roshaan/multiplebottomsheets/MultipleSheetsContainer.kt:137-258 | A press sets `dy = rawY - top` and arms the drag if and only if `rawY - top <= spacing`. An event is refused exactly when it is a move with the drag disarmed. An armed move runs the cascade from the proposal `screenHeight - rawY + dy`. No other event changes heights. Only a press changes the listener state. Bounds and in-bounds heights are preserved. |
| Gesture.Replay | multiplebottomsheets/src/main/java/com/roshaan/multiplebottomsheets/MultipleSheetsContainer.kt:137-258 | A sequence of events delivered to one listener keeps the number of sheets and their bounds. |
| Gesture.PressOutsideHandleMovesNothing | multiplebottomsheets/src/main/java/com/roshaan/multiplebottomsheets/MultipleSheetsContainer.kt:158-170 | A press more than `spacing` below the sheet's top, followed by any moves and other events without a new press, changes no height. The drag stays disarmed. |
| Gesture.PressThenMoveFollowsFinger | multiplebottomsheets/src/main/java/com/roshaan/multiplebottomsheets/MultipleSheetsContainer.kt:141-202 | After a press on the handle strip at `y0` and a move to `y1`, the cascade runs from the proposal `old height + (y0 - y1)`: the grab offset `dy` makes the sheet's top follow the finger's displacement. |
| Gesture.ArmedDragTracksFinger | multiplebottomsheets/src/main/java/com/roshaan/multiplebottomsheets/MultipleSheetsContainer.kt:166-202 | In an armed drag, after any run of moves and other events without a new press that ends in a move to `y`, the dragged sheet's height is the clamp of `screenHeight - y + dy` to its bounds, using the `dy` from the press. |
| Gesture.DisarmedMovesNothing | multiplebottomsheets/src/main/java/com/roshaan/multiplebottomsheets/MultipleSheetsContainer.kt:166-170 | While the drag is disarmed and no press arrives, no event changes a height or the state, and a final move is refused. |
| Gesture.OnTouchKeepsStacked | multiplebottomsheets/src/main/java/com/roshaan/multiplebottomsheets/MultipleSheetsContainer.kt:137-258 | One event preserves the stack's spaced, in-bounds and gapped shape. |
| Gesture.ReplayKeepsStacked | multiplebottomsheets/src/main/java/com/roshaan/multiplebottomsheets/MultipleSheetsContainer.kt:137-258 | Any sequence of events preserves that shape. |
| Container.Create | multiplebottomsheets/src/main/java/com/roshaan/multiplebottomsheets/MultipleSheetsContainer.kt:34-36 | A new container has no sheets and has not added them. |
| Container.OnSizeChanged | multiplebottomsheets/src/main/java/com/roshaan/multiplebottomsheets/MultipleSheetsContainer.kt:73-89 | The first call builds the stack from the given height, with every listener in its installed state, and marks the sheets as added. Any later call returns the container unchanged. |
| Container.SizeChangedOnce | multiplebottomsheets/src/main/java/com/roshaan/multiplebottomsheets/MultipleSheetsContainer.kt:76-88 | A second size change, with any height, leaves the result of the first untouched. |
| Container.Step | multiplebottomsheets/src/main/java/com/roshaan/multiplebottomsheets/MultipleSheetsContainer.kt:124-137 | Routing: a touch on sheet `k` runs the listener installed on that sheet with that sheet's own `dy`/`shouldDrag`. The result takes the listener's heights, its new state for sheet `k` and its handled flag, and every other sheet's listener state is unchanged. Once sheets are added, a host event keeps their number and bounds. A size change is the once-guarded callback of :73-89. A touch with no sheet at that index changes nothing. |
| Container.Run | multiplebottomsheets/src/main/java/com/roshaan/multiplebottomsheets/MultipleSheetsContainer.kt:73-89 | A run of host events keeps the configuration and the one-listener-state-per-sheet pairing. |
| Container.RunKeepsStack | multiplebottomsheets/src/main/java/com/roshaan/multiplebottomsheets/MultipleSheetsContainer.kt:77-88 | After the sheets are added, no run of events changes their number or bounds, and the stacked shape survives every run. |
| Container.FirstLayoutFixesBounds | multiplebottomsheets/src/main/java/com/roshaan/multiplebottomsheets/MultipleSheetsContainer.kt:77-103 | After the first size change, whatever follows, there are `count` sheets. Sheet `k` keeps the bounds computed from the first height. |
| Container.FirstLayoutKeepsBounds | multiplebottomsheets/src/main/java/com/roshaan/multiplebottomsheets/MultipleSheetsContainer.kt:77-247 | If the first height is at least `count*spacing`, every sheet stays within its bounds, and adjacent sheets stay at least `spacing` apart, through any later events. |

## Left out

- View plumbing is not modelled: `RelativeLayout`/`FrameLayout`, `LayoutParams`, `addView`, `requestLayout`, `post` and `View.generateViewId`. The stack is an immutable sequence, and one move's writes all become visible together.
- `getLocationOnScreen` is replaced by the sheet's on-screen top, which is an integer field of the press event.
- Reading the styled attributes and the dp-to-pixel conversion (`util.kt`) are left out. They are float density arithmetic. The count, spacing and display height are inputs.
- The top corner radius and `CustomSheet.dispatchDraw` are left out. The rounded-corner clip is float rendering and holds no state.
- `addFragment` and `addFragments` are left out. They depend on the fragment manager and a 100 ms delay. They index the sheet list with no bounds check, so the index must be less than the count.
- Stack.AddSheets: does not model 32-bit `Int` overflow of `spacing * i` or of the maximum subtraction, because real pixel dimensions are far from the limit.
- Cascade.Move: does not model 32-bit overflow in `Math.abs` or in the height sums, for the same reason.
- `Math.abs` is modelled as the mathematical absolute value.
