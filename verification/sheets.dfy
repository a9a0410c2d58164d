/** A sheet of the stack and the per-sheet height rules shared by the
    construction and the drag cascade. All quantities are whole pixels. */
module Sheets {

  /** One sheet: its fixed bounds and its current height. The height is the
      one the sheet was last laid out with; the model identifies the rendered
      height (which the touch handler reads) with the layout height (which it
      writes). */
  datatype Sheet = Sheet(minHeight: int, maxHeight: int, height: int)
  {
    predicate InBounds() {
      minHeight <= height <= maxHeight
    }

    predicate SameBounds(other: Sheet) {
      minHeight == other.minHeight && maxHeight == other.maxHeight
    }
  }

  function Abs(x: int): (r: nat)
    ensures r == x || r == -x
  {
    if x < 0 then -x else x
  }

  /** The dragged sheet's height rule. The lower bound is tested first, so a
      sheet whose bounds are inverted (lo > hi) gets `lo` for a proposal
      below `lo` and `hi` for every other proposal above `hi`. */
  function Clamp(p: int, lo: int, hi: int): (r: int)
    ensures lo <= hi ==> lo <= r <= hi
    ensures lo <= p <= hi ==> r == p
    ensures r == p || r == lo || r == hi
    ensures p < lo ==> r == lo
    ensures lo <= p && hi < p ==> r == hi
  {
    if p < lo then lo
    else if p > hi then hi
    else p
  }

  /** With ordered bounds the clamped value is the point of [lo, hi] nearest
      to the proposal. */
  lemma ClampIsNearest(p: int, lo: int, hi: int, x: int)
    requires lo <= hi
    requires lo <= x <= hi
    ensures Abs(Clamp(p, lo, hi) - p) <= Abs(x - p)
  {
  }

  /** Neighbour rule of an upward drag: grow by `delta`, capped at the
      sheet's maximum. */
  function Raise(s: Sheet, delta: nat): (r: Sheet)
    ensures r.SameBounds(s)
    ensures s.InBounds() ==> r.InBounds()
    ensures s.InBounds() ==> s.height <= r.height <= s.height + delta
    ensures s.InBounds() ==> r.height == s.height + delta || r.height == s.maxHeight
  {
    if s.height + delta > s.maxHeight then s.(height := s.maxHeight)
    else s.(height := s.height + delta)
  }

  /** On a sheet whose bounds are inverted, raising can shrink it: the cap
      at the maximum lies below the current height. */
  lemma RaiseInvertedShrinks()
    ensures Raise(Sheet(90, 50, 90), 10).height == 50
  {
  }

  /** Neighbour rule of a downward drag: shrink by `delta`, capped at the
      sheet's minimum. */
  function Lower(s: Sheet, delta: nat): (r: Sheet)
    ensures r.SameBounds(s)
    ensures s.InBounds() ==> r.InBounds()
    ensures s.InBounds() ==> s.height - delta <= r.height <= s.height
    ensures s.InBounds() ==> r.height == s.height - delta || r.height == s.minHeight
  {
    if s.height - delta < s.minHeight then s.(height := s.minHeight)
    else s.(height := s.height - delta)
  }

  /** Every sheet's height lies within its own bounds. */
  predicate AllInBounds(s: seq<Sheet>) {
    forall j :: 0 <= j < |s| ==> s[j].InBounds()
  }

  /** Adjacent sheets' bounds differ by exactly `spacing`, the lower index
      having the larger bounds. */
  predicate Spaced(s: seq<Sheet>, spacing: int) {
    forall j :: 0 <= j < |s| - 1 ==>
      s[j].minHeight == s[j + 1].minHeight + spacing &&
      s[j].maxHeight == s[j + 1].maxHeight + spacing
  }

  /** Adjacent sheets' heights differ by at least `spacing`. */
  predicate Gapped(s: seq<Sheet>, spacing: int) {
    forall j :: 0 <= j < |s| - 1 ==> s[j].height >= s[j + 1].height + spacing
  }

  /** The shape of a stack as it is built: spaced bounds, heights within
      bounds, and heights at least `spacing` apart. */
  predicate Stacked(s: seq<Sheet>, spacing: int) {
    AllInBounds(s) && Spaced(s, spacing) && Gapped(s, spacing)
  }

  /** Two stacks have the same number of sheets with the same bounds. */
  predicate SameShape(a: seq<Sheet>, b: seq<Sheet>) {
    |a| == |b| && forall j :: 0 <= j < |a| ==> a[j].SameBounds(b[j])
  }
}
