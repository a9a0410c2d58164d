/** The drag cascade: one move event applied to the dragged sheet and pushed
    into its neighbours on one side. */
module Cascade {
  import opened Sheets

  /** The dragged sheet's new height: the proposal clamped to its bounds. */
  function NewHeight(s: Sheet, proposed: int): int {
    Clamp(proposed, s.minHeight, s.maxHeight)
  }

  /** How far the dragged sheet actually moves, measured after clamping. */
  function Delta(s: Sheet, proposed: int): nat {
    Abs(s.height - NewHeight(s, proposed))
  }

  /** Whether the dragged sheet grows, judged after clamping. */
  predicate IsUpward(s: Sheet, proposed: int) {
    NewHeight(s, proposed) > s.height
  }

  /** One move of sheet `k` towards height `proposed`. The sheet takes the
      clamped height; on an upward move every sheet before it (larger,
      lower index) is raised by the distance it moved, otherwise every sheet
      after it (smaller, higher index) is lowered by that distance, each
      neighbour capped at its own bound. */
  function Move(sheets: seq<Sheet>, k: int, proposed: int): (r: seq<Sheet>)
    requires 0 <= k < |sheets|
    ensures SameShape(r, sheets)
    ensures AllInBounds(sheets) ==> AllInBounds(r)
  {
    var current := sheets[k];
    var delta := Delta(current, proposed);
    var upward := IsUpward(current, proposed);
    seq(|sheets|, j requires 0 <= j < |sheets| =>
      if j == k then current.(height := NewHeight(current, proposed))
      else if upward && j < k then Raise(sheets[j], delta)
      else if !upward && j > k then Lower(sheets[j], delta)
      else sheets[j])
  }

  /** The dragged sheet lands on the clamped proposal, so within its bounds
      whenever they are ordered, and on the proposal itself when that is
      already within them. */
  lemma DraggedSheet(sheets: seq<Sheet>, k: int, proposed: int)
    requires 0 <= k < |sheets|
    ensures var s := sheets[k]; var h := Move(sheets, k, proposed)[k].height;
      && (s.minHeight <= s.maxHeight ==> s.minHeight <= h <= s.maxHeight)
      && (s.minHeight <= proposed <= s.maxHeight ==> h == proposed)
      && (proposed < s.minHeight ==> h == s.minHeight)
      && (s.minHeight <= proposed && s.maxHeight < proposed ==> h == s.maxHeight)
  {
  }

  /** Propagation is one-sided whatever the heights and bounds: a growing
      sheet leaves the sheets after it untouched, and a sheet that does not
      grow leaves the sheets before it untouched. */
  lemma OneSided(sheets: seq<Sheet>, k: int, proposed: int)
    requires 0 <= k < |sheets|
    ensures var r := Move(sheets, k, proposed);
      IsUpward(sheets[k], proposed) ==> forall j :: k < j < |sheets| ==> r[j] == sheets[j]
    ensures var r := Move(sheets, k, proposed);
      !IsUpward(sheets[k], proposed) ==> forall j :: 0 <= j < k ==> r[j] == sheets[j]
  {
  }

  /** Propagation is one-directional. A growing sheet raises the sheets
      before it, each by at most the distance it moved and by exactly that
      distance unless the neighbour reaches its maximum, and leaves the
      sheets after it alone; a sheet that does not grow lowers the sheets
      after it in the same way and leaves the sheets before it alone. */
  lemma Directionality(sheets: seq<Sheet>, k: int, proposed: int)
    requires 0 <= k < |sheets|
    requires AllInBounds(sheets)
    ensures var r := Move(sheets, k, proposed); var d := Delta(sheets[k], proposed);
      IsUpward(sheets[k], proposed) ==>
        && (forall j :: 0 <= j < k ==>
              sheets[j].height <= r[j].height <= sheets[j].height + d &&
              (r[j].height == sheets[j].height + d || r[j].height == sheets[j].maxHeight))
        && (forall j :: k < j < |sheets| ==> r[j] == sheets[j])
    ensures var r := Move(sheets, k, proposed); var d := Delta(sheets[k], proposed);
      !IsUpward(sheets[k], proposed) ==>
        && (forall j :: k < j < |sheets| ==>
              sheets[j].height - d <= r[j].height <= sheets[j].height &&
              (r[j].height == sheets[j].height - d || r[j].height == sheets[j].minHeight))
        && (forall j :: 0 <= j < k ==> r[j] == sheets[j])
  {
  }

  /** A move changes nothing exactly when the dragged sheet is already at
      the clamped proposal, for instance when it is pinned at a bound and
      pushed further past it: the distance is then zero and no neighbour
      moves. */
  lemma NoChangeIff(sheets: seq<Sheet>, k: int, proposed: int)
    requires 0 <= k < |sheets|
    requires AllInBounds(sheets)
    ensures Move(sheets, k, proposed) == sheets <==> NewHeight(sheets[k], proposed) == sheets[k].height
  {
  }

  /** Without heights in bounds a zero-distance move can still change a
      neighbour: the lowering rule lifts any height below its minimum. */
  lemma ZeroDeltaStillLifts()
    ensures Delta(Sheet(60, 50, 50), 100) == 0
    ensures Move([Sheet(60, 50, 50), Sheet(30, 20, 20)], 0, 100) == [Sheet(60, 50, 50), Sheet(30, 20, 30)]
  {
  }

  /** A move keeps the shape the construction establishes: bounds spaced by
      `spacing`, heights within bounds and at least `spacing` apart. */
  lemma {:induction false} MoveKeepsStacked(sheets: seq<Sheet>, spacing: int, k: int, proposed: int)
    requires 0 <= k < |sheets|
    requires Stacked(sheets, spacing)
    ensures Stacked(Move(sheets, k, proposed), spacing)
  {
    var r := Move(sheets, k, proposed);
    forall j | 0 <= j < |r| - 1
      ensures r[j].height >= r[j + 1].height + spacing
    {
      assert sheets[j].height >= sheets[j + 1].height + spacing;
    }
  }

  /** The touch handler's arithmetic as written: the proposal, distance and
      direction are computed first, then recomputed if the proposal is
      clamped (lower bound first); the dragged sheet is written, and one of
      two loops walks the sheets before or after it. The result is the
      cascade `Move` describes. */
  method ApplyMove(sheets: seq<Sheet>, k: int, proposed: int) returns (r: seq<Sheet>)
    requires 0 <= k < |sheets|
    ensures r == Move(sheets, k, proposed)
  {
    var current := sheets[k];
    var newHeight := proposed;
    var draggedPixels := Abs(current.height - newHeight);
    var isUpwardMotion := newHeight > current.height;
    if newHeight < current.minHeight {
      newHeight := current.minHeight;
      draggedPixels := Abs(current.height - newHeight);
      isUpwardMotion := newHeight > current.height;
    } else if newHeight > current.maxHeight {
      newHeight := current.maxHeight;
      draggedPixels := Abs(current.height - newHeight);
      isUpwardMotion := newHeight > current.height;
    }
    assert newHeight == NewHeight(current, proposed);
    assert draggedPixels == Delta(current, proposed);
    ghost var target := Move(sheets, k, proposed);
    r := sheets[k := current.(height := newHeight)];
    if isUpwardMotion {
      var j := 0;
      while j < k
        invariant 0 <= j <= k
        invariant |r| == |sheets|
        invariant forall i :: 0 <= i < j ==> r[i] == target[i]
        invariant forall i :: j <= i < k ==> r[i] == sheets[i]
        invariant forall i :: k <= i < |r| ==> r[i] == target[i]
      {
        var above := r[j];
        var height := above.height + draggedPixels;
        if height > above.maxHeight {
          r := r[j := above.(height := above.maxHeight)];
        } else {
          r := r[j := above.(height := height)];
        }
        j := j + 1;
      }
    } else {
      var j := k + 1;
      while j < |sheets|
        invariant k + 1 <= j <= |sheets|
        invariant |r| == |sheets|
        invariant forall i :: 0 <= i < j ==> r[i] == target[i]
        invariant forall i :: j <= i < |r| ==> r[i] == sheets[i]
      {
        var below := r[j];
        var height := below.height - draggedPixels;
        if height < below.minHeight {
          r := r[j := below.(height := below.minHeight)];
        } else {
          r := r[j := below.(height := height)];
        }
        j := j + 1;
      }
    }
  }
}
