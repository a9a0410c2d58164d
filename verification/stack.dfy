/** Construction of the stack when the container first receives its size. */
module Stack {
  import opened Sheets

  /** Number of passes of the construction loop, which counts from `count`
      down to 1 and so runs zero times for a non-positive count. */
  function Iterations(count: int): nat {
    if count < 1 then 0 else count
  }

  /** Closed form of sheet `k` in a stack of `count` sheets, `spacing`
      apart, in a container `containerHeight` tall: the minimum is
      `spacing * (count - k)`, the maximum is the container height less `k`
      spacings, and the sheet starts at its minimum. */
  function Expected(containerHeight: int, count: int, spacing: int, k: int): Sheet {
    Sheet(spacing * (count - k), containerHeight - k * spacing, spacing * (count - k))
  }

  /** The construction loop, from the point where the sheets in `built`
      already exist. Pass `i` (from `count` down to 1) adds a sheet with
      minimum `spacing * i` and, as maximum, the container height for the
      first sheet and the previous sheet's maximum less `spacing` otherwise;
      the new sheet is laid out at its minimum. */
  function AddSheetsFrom(containerHeight: int, count: int, spacing: int, built: seq<Sheet>): (r: seq<Sheet>)
    requires |built| <= Iterations(count)
    requires forall k :: 0 <= k < |built| ==> built[k] == Expected(containerHeight, count, spacing, k)
    ensures |r| == Iterations(count)
    ensures forall k :: 0 <= k < |r| ==> r[k] == Expected(containerHeight, count, spacing, k)
    decreases count - |built|
  {
    var i := count - |built|;
    if i < 1 then built
    else
      var maximumHeight :=
        if |built| == 0 then containerHeight
        else built[|built| - 1].maxHeight - spacing;
      AddSheetsFrom(containerHeight, count, spacing, built + [Sheet(spacing * i, maximumHeight, spacing * i)])
  }

  /** Adjacent closed-form sheets are one spacing apart in both bounds. */
  lemma ExpectedSteps(containerHeight: int, count: int, spacing: int)
    ensures forall k {:trigger Expected(containerHeight, count, spacing, k)} ::
      Expected(containerHeight, count, spacing, k).minHeight == Expected(containerHeight, count, spacing, k + 1).minHeight + spacing &&
      Expected(containerHeight, count, spacing, k).maxHeight == Expected(containerHeight, count, spacing, k + 1).maxHeight + spacing
  {
  }

  /** The whole construction: exactly as many sheets as the loop runs,
      each in its closed form, with spaced bounds, the first maximum equal
      to the container height, and every sheet at its minimum height. */
  function AddSheets(containerHeight: int, count: int, spacing: int): (r: seq<Sheet>)
    ensures |r| == Iterations(count)
    ensures forall k :: 0 <= k < |r| ==> r[k] == Expected(containerHeight, count, spacing, k)
    ensures |r| > 0 ==> r[0].maxHeight == containerHeight && r[|r| - 1].minHeight == spacing
    ensures Spaced(r, spacing)
    ensures Gapped(r, spacing)
    ensures forall k :: 0 <= k < |r| ==> r[k].height == r[k].minHeight
  {
    ExpectedSteps(containerHeight, count, spacing);
    AddSheetsFrom(containerHeight, count, spacing, [])
  }

  /** Three sheets, 30 pixels apart, in a 900-pixel container. */
  lemma ThreeSheetExample()
    ensures AddSheets(900, 3, 30) == [Sheet(90, 900, 90), Sheet(60, 870, 60), Sheet(30, 840, 30)]
  {
  }

  lemma MulMonotone(spacing: int, a: int, b: int)
    requires spacing > 0 && a < b
    ensures spacing * a < spacing * b
  {
  }

  /** With a positive spacing both bounds strictly decrease with the index. */
  lemma {:induction false} BoundsDecrease(containerHeight: int, count: int, spacing: int, i: int, j: int)
    requires spacing > 0
    requires 0 <= i < j < Iterations(count)
    ensures AddSheets(containerHeight, count, spacing)[i].minHeight > AddSheets(containerHeight, count, spacing)[j].minHeight
    ensures AddSheets(containerHeight, count, spacing)[i].maxHeight > AddSheets(containerHeight, count, spacing)[j].maxHeight
  {
    MulMonotone(spacing, count - j, count - i);
    MulMonotone(spacing, i, j);
  }

  /** Every built sheet has ordered bounds exactly when the container is at
      least `count * spacing` tall: the gap between a sheet's maximum and its
      minimum is the same, `containerHeight - count * spacing`, for all of
      them. */
  lemma BoundsOrderedIff(containerHeight: int, count: int, spacing: int)
    requires count >= 1
    ensures AllInBounds(AddSheets(containerHeight, count, spacing)) <==> containerHeight >= count * spacing
  {
  }

  /** A container tall enough for the minimums yields a stack in the shape
      every later drag preserves (for a non-positive count the stack is
      empty). */
  lemma AddSheetsStacked(containerHeight: int, count: int, spacing: int)
    requires containerHeight >= count * spacing
    ensures Stacked(AddSheets(containerHeight, count, spacing), spacing)
  {
    if count >= 1 {
      BoundsOrderedIff(containerHeight, count, spacing);
    }
  }
}
