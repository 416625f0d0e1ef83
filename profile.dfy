/** Edge localisation on projection profiles: the integer layer between
    `cv2.Sobel` and a reported row. A profile is one value per row (or
    column) of a region of interest; an edge is the first index of its
    maximum, shifted back into full-image coordinates. */
module Profile {
  import opened Common

  /** A gradient crop as `cv2.Sobel` returns it for a region of interest,
      one sequence of samples per row; an empty crop makes OpenCV raise,
      so crops here have at least one row. */
  type Crop = g: seq<seq<int>> | |g| > 0 witness [[]]

  /** A smoothed projection profile as the laminate analysis computes it
      (a blurred column or row sum); it has one entry per row or column of
      a non-empty region. */
  type Projection = p: seq<real> | |p| > 0 witness [0.0]

  /** `cv2.convertScaleAbs` on one gradient sample: the magnitude,
      saturated to the 8-bit range. */
  function Saturate(v: int): (r: int)
    ensures 0 <= r <= 255
    ensures r <= Abs(v)
    ensures Abs(v) <= 255 ==> r == Abs(v)
  {
    if Abs(v) > 255 then 255 else Abs(v)
  }

  /** Sum of the saturated magnitudes of one row (`np.sum(..., axis=1)`). */
  function SumSaturated(row: seq<int>): (r: int)
    ensures 0 <= r <= 255 * |row|
  {
    if row == [] then 0 else Saturate(row[0]) + SumSaturated(row[1..])
  }

  /** The row-strength profile of a gradient crop, one entry per row. */
  function RowStrength(grad: seq<seq<int>>): (p: seq<real>)
    ensures |p| == |grad|
    ensures forall k :: 0 <= k < |p| ==> p[k] == SumSaturated(grad[k]) as real
  {
    seq(|grad|, k requires 0 <= k < |grad| => SumSaturated(grad[k]) as real)
  }

  /** Every entry of the row-strength profile of a crop `width` pixels wide
      lies between 0 and 255 * width. */
  lemma RowStrengthBounds(grad: seq<seq<int>>, width: nat, k: nat)
    requires forall i :: 0 <= i < |grad| ==> |grad[i]| == width
    requires k < |grad|
    ensures 0.0 <= RowStrength(grad)[k] <= (255 * width) as real
  {
    assert 0 <= SumSaturated(grad[k]) <= 255 * width;
  }

  /** `np.argmax`: the FIRST index at which the profile takes its maximum. */
  function ArgMax(p: seq<real>): (k: nat)
    requires |p| > 0
    ensures k < |p|
    ensures forall j :: 0 <= j < |p| ==> p[j] <= p[k]
    ensures forall j :: 0 <= j < k ==> p[j] < p[k]
  {
    if |p| == 1 then 0
    else
      var k := ArgMax(p[..|p| - 1]);
      if p[|p| - 1] > p[k] then |p| - 1 else k
  }

  /** Being a first maximum determines the index: any index with the two
      properties `ArgMax` promises is `ArgMax`. */
  lemma ArgMaxUnique(p: seq<real>, m: nat)
    requires m < |p|
    requires forall j :: 0 <= j < |p| ==> p[j] <= p[m]
    requires forall j :: 0 <= j < m ==> p[j] < p[m]
    ensures m == ArgMax(p)
  {
  }

  /** `detect_horizontal_line`: the ROI top plus the first row of maximal
      strength. */
  function DetectLine(grad: seq<seq<int>>, top: int): (y: int)
    requires |grad| > 0
    ensures top <= y < top + |grad|
    ensures forall j :: 0 <= j < |grad| ==> RowStrength(grad)[j] <= RowStrength(grad)[y - top]
    ensures forall j :: 0 <= j < y - top ==> RowStrength(grad)[j] < RowStrength(grad)[y - top]
  {
    top + ArgMax(RowStrength(grad))
  }

  // ---------------------------------------------------------------------
  // Peak suppression

  /** Half-width of the suppression window around the primary peak. */
  const Window: nat := 10

  predicate Within(lo: int, hi: int, j: int) {
    lo <= j < hi
  }

  /** `[max(t - 10, 0), min(t + 10, n))`: the slice that is zeroed around the
      primary peak `t` of a profile of length `n`. */
  function SuppressionWindow(t: nat, n: nat): (w: (nat, nat))
    requires t < n
    ensures w.0 <= t < w.1 <= n
    ensures forall j :: 0 <= j < n ==> (Within(w.0, w.1, j) <==> Within(t - Window, t + Window, j))
  {
    (if t < Window then 0 else t - Window, if t + Window > n then n else t + Window)
  }

  /** The profile after `row_strength[lo:hi] = 0`. */
  function Suppressed(p: seq<real>, lo: nat, hi: nat): (q: seq<real>)
    ensures |q| == |p|
    ensures forall j :: 0 <= j < |p| && lo <= j < hi ==> q[j] == 0.0
    ensures forall j :: 0 <= j < |p| && !(lo <= j < hi) ==> q[j] == p[j]
  {
    seq(|p|, j requires 0 <= j < |p| => if lo <= j < hi then 0.0 else p[j])
  }

  /** The slice assignment, in place. */
  method ZeroRange(a: array<real>, lo: nat, hi: nat)
    requires lo <= hi <= a.Length
    modifies a
    ensures a[..] == Suppressed(old(a[..]), lo, hi)
  {
    var i := lo;
    while i < hi
      invariant lo <= i <= hi
      invariant forall j :: 0 <= j < a.Length && lo <= j < i ==> a[j] == 0.0
      invariant forall j :: 0 <= j < a.Length && !(lo <= j < i) ==> a[j] == old(a[j])
    {
      a[i] := 0.0;
      i := i + 1;
    }
  }

  /** What `detect_feature_height` returns: height, top row, bottom row. */
  datatype FeatureSpan = FeatureSpan(heightPx: int, topY: int, bottomY: int)

  /** The two peaks of a profile: the primary one, and the first maximum
      once the window around the primary one is zeroed. */
  function Peaks(p: seq<real>): (t: (nat, nat))
    requires |p| > 0
    ensures t.0 < |p| && t.1 < |p|
    ensures t.0 == ArgMax(p)
    ensures var w := SuppressionWindow(t.0, |p|);
      var q := Suppressed(p, w.0, w.1);
      && (forall j :: 0 <= j < |p| ==> q[j] <= q[t.1])
      && (forall j :: 0 <= j < t.1 ==> q[j] < q[t.1])
  {
    var top := ArgMax(p);
    var w := SuppressionWindow(top, |p|);
    (top, ArgMax(Suppressed(p, w.0, w.1)))
  }

  /** `detect_feature_height` on a given profile whose ROI starts at row
      `y1`: both edges lie in the ROI, in order, one of them is the primary
      peak, and together they are the two peaks. */
  function FeatureHeight(p: seq<real>, y1: int): (f: FeatureSpan)
    requires |p| > 0
    ensures y1 <= f.topY <= f.bottomY < y1 + |p|
    ensures f.heightPx == f.bottomY - f.topY >= 0
    ensures f.topY == y1 + ArgMax(p) || f.bottomY == y1 + ArgMax(p)
    ensures f.heightPx == Abs(Peaks(p).0 - Peaks(p).1)
    ensures {f.topY, f.bottomY} == {y1 + Peaks(p).0, y1 + Peaks(p).1}
  {
    var (t, b) := Peaks(p);
    var topY := y1 + (if t <= b then t else b);
    var bottomY := y1 + (if t <= b then b else t);
    FeatureSpan(bottomY - topY, topY, bottomY)
  }

  /** When some entry outside the suppression window is strictly positive,
      the second peak is outside the window, so the two edges are at least
      the half-width apart. */
  lemma SecondPeakSeparated(p: seq<real>, y1: int, j: nat)
    requires j < |p|
    requires var w := SuppressionWindow(ArgMax(p), |p|); !(w.0 <= j < w.1) && p[j] > 0.0
    ensures FeatureHeight(p, y1).heightPx >= Window
  {
    var t := ArgMax(p);
    var w := SuppressionWindow(t, |p|);
    var q := Suppressed(p, w.0, w.1);
    var b := ArgMax(q);
    assert q[j] == p[j] > 0.0;
    assert q[b] >= q[j];
    assert !(w.0 <= b < w.1);
  }

  /** Two well-separated edges are both recovered: if `a` is the unique
      strongest row and `b`, outside its window, is strictly stronger than
      everything else outside that window, the feature spans exactly from
      the higher to the lower of the two. */
  lemma TwoEdgesRecovered(p: seq<real>, y1: int, a: nat, b: nat)
    requires a < |p| && b < |p| && a != b
    requires forall j :: 0 <= j < |p| && j != a ==> p[j] < p[a]
    requires var w := SuppressionWindow(a, |p|); !(w.0 <= b < w.1)
    requires p[b] > 0.0
    requires var w := SuppressionWindow(a, |p|);
      forall j :: 0 <= j < |p| && j != b && !(w.0 <= j < w.1) ==> p[j] < p[b]
    ensures var f := FeatureHeight(p, y1);
      f.topY == y1 + (if a < b then a else b) && f.bottomY == y1 + (if a < b then b else a)
      && f.heightPx == Abs(a - b)
  {
    ArgMaxUnique(p, a);
    var w := SuppressionWindow(a, |p|);
    var q := Suppressed(p, w.0, w.1);
    ArgMaxUnique(q, b);
  }

  /** `detect_feature_height`: builds the row-strength array, takes its
      argmax, zeroes the window around it in place, takes the argmax again
      and reports the two rows in order, in full-image coordinates. */
  method DetectFeatureHeight(grad: seq<seq<int>>, y1: int) returns (heightPx: int, topY: int, bottomY: int)
    requires |grad| > 0
    ensures FeatureSpan(heightPx, topY, bottomY) == FeatureHeight(RowStrength(grad), y1)
  {
    var p := RowStrength(grad);
    var rowStrength := new real[|p|](i requires 0 <= i < |p| => p[i]);
    assert rowStrength[..] == p;
    var topLocal := ArgMax(rowStrength[..]);
    var start := if topLocal < Window then 0 else topLocal - Window;
    var end := if topLocal + Window > rowStrength.Length then rowStrength.Length else topLocal + Window;
    assert (start, end) == SuppressionWindow(topLocal, |p|);
    ZeroRange(rowStrength, start, end);
    var bottomLocal := ArgMax(rowStrength[..]);
    assert (topLocal, bottomLocal) == Peaks(p);
    topY := y1 + (if topLocal <= bottomLocal then topLocal else bottomLocal);
    bottomY := y1 + (if topLocal <= bottomLocal then bottomLocal else topLocal);
    heightPx := bottomY - topY;
  }
}
