/** Circle selection over the candidates `cv2.HoughCircles` returns, in ROI
    coordinates, and the sentinel written when there are none. */
module Circles {
  import opened Common
  import opened Profile

  /** A rounded Hough candidate: centre and radius in pixels. */
  datatype Circle = Circle(x: int, y: int, r: int)

  /** The radius of each candidate, as the key `max(..., key=lambda c: c[2])`
      compares. */
  function Radii(cands: seq<Circle>): (rs: seq<real>)
    ensures |rs| == |cands|
    ensures forall k :: 0 <= k < |rs| ==> rs[k] == cands[k].r as real
  {
    seq(|cands|, k requires 0 <= k < |cands| => cands[k].r as real)
  }

  /** Index of the candidate Python's `max(key=radius)` picks: a largest
      radius, the first one among equals. */
  function LargestIndex(cands: seq<Circle>): (k: nat)
    requires |cands| > 0
    ensures k < |cands|
    ensures forall j :: 0 <= j < |cands| ==> cands[j].r <= cands[k].r
    ensures forall j :: 0 <= j < k ==> cands[j].r < cands[k].r
  {
    var rs := Radii(cands);
    var k := ArgMax(rs);
    assert forall j :: 0 <= j < |cands| ==> rs[j] <= rs[k];
    k
  }

  /** From ROI-local to full-image coordinates; the radius is unchanged. */
  function Offset(c: Circle, left: int, top: int): (d: Circle)
    ensures d.r == c.r && d.x - c.x == left && d.y - c.y == top
  {
    Circle(c.x + left, c.y + top, c.r)
  }

  /** Largest-radius selection (chamber and coin in the coin, laminate and
      wax analyses), offset into the full image; `None` when the detector
      returned nothing. */
  function SelectLargest(cands: seq<Circle>, left: int, top: int): (d: Option<Circle>)
    ensures d.None? <==> cands == []
    ensures d.Some? ==> forall j :: 0 <= j < |cands| ==> cands[j].r <= d.value.r
    ensures d.Some? ==> exists k :: 0 <= k < |cands| && d.value == Offset(cands[k], left, top)
                          && forall j :: 0 <= j < k ==> cands[j].r < d.value.r
  {
    if cands == [] then None else Some(Offset(cands[LargestIndex(cands)], left, top))
  }

  /** A detection moved from box to full-image coordinates. */
  function Shift(d: Option<Circle>, left: int, top: int): (e: Option<Circle>)
    ensures e.None? <==> d.None?
    ensures e.Some? ==> e.value == Offset(d.value, left, top)
  {
    if d.Some? then Some(Offset(d.value, left, top)) else None
  }

  /** Selecting in box coordinates and then shifting is selecting with the
      offset. */
  lemma SelectThenShift(cands: seq<Circle>, left: int, top: int)
    ensures SelectLargest(cands, left, top) == Shift(SelectLargest(cands, 0, 0), left, top)
  {
  }

  /** First-candidate selection (`circles[0, 0]` in the particulate
      analysis): the detector's own order decides, not the radius. */
  function SelectFirst(cands: seq<Circle>, left: int, top: int): (d: Option<Circle>)
    ensures d.None? <==> cands == []
    ensures d.Some? ==> d.value.r == cands[0].r
                        && d.value.x == cands[0].x + left && d.value.y == cands[0].y + top
  {
    if cands == [] then None else Some(Offset(cands[0], left, top))
  }

  /** The centre-x, centre-y and radius cells: the circle, or the sentinel
      (-1, -1, -1) when nothing was detected. */
  function CircleCells(d: Option<Circle>): (c: Circle)
    ensures d.Some? ==> c == d.value
    ensures d.None? ==> c.x == -1 && c.y == -1 && c.r == -1
  {
    if d.Some? then d.value else Circle(-1, -1, -1)
  }
}
