/** The per-sheet touch listener: a small state machine over the grab
    offset and the "press landed on the handle" flag. Screen coordinates are
    whole pixels. */
module Gesture {
  import opened Sheets
  import Cascade

  /** The listener's two captured variables. */
  datatype DragState = DragState(dy: int, shouldDrag: bool)

  /** Their values when the listener is installed. */
  const Installed := DragState(0, false)

  /** The events the listener distinguishes. `sheetTop` is the sheet's top
      edge in screen coordinates at the time of the press; every action
      other than a press or a move (release, cancel, ...) is `OtherAction`. */
  datatype MotionEvent =
    | ActionDown(rawY: int, sheetTop: int)
    | ActionMove(rawY: int)
    | OtherAction

  /** What one event does: the listener's new state, the stack's new
      heights, and whether the event was consumed. */
  datatype Outcome = Outcome(state: DragState, sheets: seq<Sheet>, handled: bool)

  /** The listener of sheet `k`. A press records the grab offset and arms
      the drag only within `spacing` pixels below the sheet's top edge. A
      move is refused when the drag is not armed; otherwise it proposes
      `screenHeight - rawY + dy` as the sheet's height and runs the cascade.
      Every other event is consumed and changes nothing. */
  function OnTouch(sheets: seq<Sheet>, k: int, st: DragState, ev: MotionEvent, screenHeight: int, spacing: int): (o: Outcome)
    requires 0 <= k < |sheets|
    ensures SameShape(o.sheets, sheets)
    ensures AllInBounds(sheets) ==> AllInBounds(o.sheets)
    ensures !o.handled <==> ev.ActionMove? && !st.shouldDrag
    ensures o.sheets != sheets ==> ev.ActionMove? && st.shouldDrag
    ensures !ev.ActionDown? ==> o.state == st
    ensures ev.ActionMove? && st.shouldDrag ==>
      o.sheets == Cascade.Move(sheets, k, screenHeight - ev.rawY + st.dy)
    ensures ev.ActionDown? ==>
      o.state.dy == ev.rawY - ev.sheetTop &&
      (o.state.shouldDrag <==> ev.rawY - ev.sheetTop <= spacing)
  {
    match ev
    case ActionDown(rawY, sheetTop) =>
      var shouldDrag := if rawY - sheetTop > spacing then false else true;
      Outcome(DragState(rawY - sheetTop, shouldDrag), sheets, true)
    case ActionMove(rawY) =>
      if !st.shouldDrag then Outcome(st, sheets, false)
      else Outcome(st, Cascade.Move(sheets, k, screenHeight - rawY + st.dy), true)
    case OtherAction =>
      Outcome(st, sheets, true)
  }

  /** A sequence of events delivered to the listener of sheet `k`; the
      outcome's `handled` is that of the last event (true for none). */
  function Replay(sheets: seq<Sheet>, k: int, st: DragState, evs: seq<MotionEvent>, screenHeight: int, spacing: int): (o: Outcome)
    requires 0 <= k < |sheets|
    ensures SameShape(o.sheets, sheets)
    decreases |evs|
  {
    if |evs| == 0 then Outcome(st, sheets, true)
    else
      var first := OnTouch(sheets, k, st, evs[0], screenHeight, spacing);
      if |evs| == 1 then first
      else Replay(first.sheets, k, first.state, evs[1..], screenHeight, spacing)
  }

  /** A gesture whose press lands more than `spacing` pixels below the
      sheet's top edge moves nothing: however many moves and other events
      follow it, every height stays as it was and the drag stays disarmed. */
  lemma {:induction false} PressOutsideHandleMovesNothing(
    sheets: seq<Sheet>, k: int, st: DragState, rawY: int, sheetTop: int,
    rest: seq<MotionEvent>, screenHeight: int, spacing: int)
    requires 0 <= k < |sheets|
    requires rawY - sheetTop > spacing
    requires forall i :: 0 <= i < |rest| ==> !rest[i].ActionDown?
    ensures var o := Replay(sheets, k, st, [ActionDown(rawY, sheetTop)] + rest, screenHeight, spacing);
      o.sheets == sheets && o.state == DragState(rawY - sheetTop, false)
  {
    var evs := [ActionDown(rawY, sheetTop)] + rest;
    var first := OnTouch(sheets, k, st, evs[0], screenHeight, spacing);
    assert evs[1..] == rest;
    DisarmedMovesNothing(sheets, k, first.state, rest, screenHeight, spacing);
  }

  /** The grab offset makes the sheet follow the finger: after a press on
      the handle strip of sheet `k` (whose top edge sits at
      `screenHeight - height` on a display `screenHeight` tall), a move to
      `y1` proposes the sheet's old height plus the finger's upward
      displacement `y0 - y1`, and the cascade runs from that proposal. */
  lemma {:induction false} PressThenMoveFollowsFinger(
    sheets: seq<Sheet>, k: int, st: DragState, y0: int, y1: int, screenHeight: int, spacing: int)
    requires 0 <= k < |sheets|
    requires y0 - (screenHeight - sheets[k].height) <= spacing
    ensures Replay(sheets, k, st, [ActionDown(y0, screenHeight - sheets[k].height), ActionMove(y1)], screenHeight, spacing).sheets
         == Cascade.Move(sheets, k, sheets[k].height + (y0 - y1))
  {
    var evs := [ActionDown(y0, screenHeight - sheets[k].height), ActionMove(y1)];
    assert evs[1..] == [ActionMove(y1)];
  }

  /** Throughout an armed drag the dragged sheet tracks the finger through
      the grab offset taken at the press: after any run of moves and other
      events without a new press, ending in a move to `y`, sheet `k` has
      the clamp of `screenHeight - y + dy` to its bounds, whatever the
      moves before it were. */
  lemma {:induction false} ArmedDragTracksFinger(
    sheets: seq<Sheet>, k: int, st: DragState, evs: seq<MotionEvent>, y: int, screenHeight: int, spacing: int)
    requires 0 <= k < |sheets|
    requires st.shouldDrag
    requires |evs| > 0 && evs[|evs| - 1] == ActionMove(y)
    requires forall i :: 0 <= i < |evs| ==> !evs[i].ActionDown?
    ensures Replay(sheets, k, st, evs, screenHeight, spacing).sheets[k].height
         == Clamp(screenHeight - y + st.dy, sheets[k].minHeight, sheets[k].maxHeight)
    decreases |evs|
  {
    if |evs| > 1 {
      var first := OnTouch(sheets, k, st, evs[0], screenHeight, spacing);
      assert evs[1..][|evs[1..]| - 1] == evs[|evs| - 1];
      ArmedDragTracksFinger(first.sheets, k, first.state, evs[1..], y, screenHeight, spacing);
    }
  }

  /** With the drag disarmed and no new press, no event changes a height,
      and every move is refused. */
  lemma {:induction false} DisarmedMovesNothing(
    sheets: seq<Sheet>, k: int, st: DragState, evs: seq<MotionEvent>, screenHeight: int, spacing: int)
    requires 0 <= k < |sheets|
    requires !st.shouldDrag
    requires forall i :: 0 <= i < |evs| ==> !evs[i].ActionDown?
    ensures var o := Replay(sheets, k, st, evs, screenHeight, spacing);
      o.sheets == sheets && o.state == st &&
      (|evs| > 0 && evs[|evs| - 1].ActionMove? ==> !o.handled)
    decreases |evs|
  {
    if |evs| > 1 {
      DisarmedMovesNothing(sheets, k, st, evs[1..], screenHeight, spacing);
      assert evs[1..][|evs[1..]| - 1] == evs[|evs| - 1];
    }
  }

  /** One event keeps the stack's shape. */
  lemma OnTouchKeepsStacked(sheets: seq<Sheet>, k: int, st: DragState, ev: MotionEvent, screenHeight: int, spacing: int)
    requires 0 <= k < |sheets|
    requires Stacked(sheets, spacing)
    ensures Stacked(OnTouch(sheets, k, st, ev, screenHeight, spacing).sheets, spacing)
  {
    if ev.ActionMove? && st.shouldDrag {
      Cascade.MoveKeepsStacked(sheets, spacing, k, screenHeight - ev.rawY + st.dy);
    }
  }

  /** Any sequence of events keeps the stack's shape: spaced bounds,
      heights within bounds and at least `spacing` apart. */
  lemma {:induction false} ReplayKeepsStacked(
    sheets: seq<Sheet>, k: int, st: DragState, evs: seq<MotionEvent>, screenHeight: int, spacing: int)
    requires 0 <= k < |sheets|
    requires Stacked(sheets, spacing)
    ensures Stacked(Replay(sheets, k, st, evs, screenHeight, spacing).sheets, spacing)
    decreases |evs|
  {
    if |evs| > 0 {
      var first := OnTouch(sheets, k, st, evs[0], screenHeight, spacing);
      OnTouchKeepsStacked(sheets, k, st, evs[0], screenHeight, spacing);
      if |evs| > 1 {
        ReplayKeepsStacked(first.sheets, k, first.state, evs[1..], screenHeight, spacing);
      }
    }
  }
}
