/** Pixels-per-millimetre scales and the conversions that use them. Each
    analysis guards its division differently; the three guards are kept
    apart because they disagree. Floating-point division is modelled by
    exact `real` division. */
module Calibration {
  import opened Common

  /** Known height of the white reference feature, in millimetres. */
  const FeatureHeightMm: real := 1.369

  /** Known radius of the chamber, in millimetres. */
  const ChamberRadiusMm: real := 3.0

  /** Buffer analyses: `h / 1.369 if h else None`. */
  function BufferScale(heightPx: int): (s: Option<real>)
    ensures s.None? <==> heightPx == 0
    ensures s.Some? ==> s.value * FeatureHeightMm == heightPx as real && s.value != 0.0
  {
    if heightPx != 0 then Some(heightPx as real / FeatureHeightMm) else None
  }

  /** Buffer analyses: `delta / ppm if ppm else "NA"`. The millimetre value is
      the pixel offset scaled by 1.369 / height, and "NA" exactly when the
      reference feature has no height. */
  function BufferDeltaMm(deltaPx: int, heightPx: int): (f: Field)
    ensures f == NA <==> heightPx == 0
    ensures heightPx != 0 ==> f == Real(deltaPx as real * FeatureHeightMm / heightPx as real)
  {
    match BufferScale(heightPx)
    case None => NA
    case Some(ppm) =>
      ScaleConsistent(deltaPx as real, heightPx as real, FeatureHeightMm);
      Real(deltaPx as real / ppm)
  }

  /** Dividing by a scale `span / mm` is multiplying by `mm / span`. */
  lemma ScaleConsistent(d: real, span: real, mm: real)
    requires span != 0.0 && mm != 0.0
    ensures d / (span / mm) == d * mm / span
  {
    var s := span / mm;
    assert s * mm == span;
    assert (d * mm / span) * s == d * mm * s / span;
    assert d * mm * s == d * span;
  }

  /** Laminate analysis: `cr / 3.0 if cr > 0 else -1`. */
  function LaminateScale(radiusPx: int): (s: real)
    ensures radiusPx > 0 <==> s > 0.0
    ensures radiusPx > 0 ==> s * ChamberRadiusMm == radiusPx as real
    ensures radiusPx <= 0 ==> s == -1.0
  {
    if radiusPx > 0 then radiusPx as real / ChamberRadiusMm else -1.0
  }

  /** Laminate analysis: `px / ppm if ppm > 0 else -1`. */
  function LaminateDistanceMm(px: int, ppm: real): (mm: real)
    ensures ppm > 0.0 ==> mm * ppm == px as real
    ensures ppm <= 0.0 ==> mm == -1.0
  {
    if ppm > 0.0 then px as real / ppm else -1.0
  }

  /** Coin analysis: `3.0 / cr`, with no guard. The sentinel radius -1 gives
      -3.0. A detected radius is a numpy integer, and dividing by a zero one
      gives an infinite scale with a warning rather than an exception; that
      value has no counterpart among the reals, and the chamber's 80-92
      radius band never yields a zero radius, so it is excluded. */
  function CoinMmPerPx(radiusPx: int): (m: real)
    requires radiusPx != 0
    ensures m * radiusPx as real == ChamberRadiusMm
    ensures radiusPx == -1 ==> m == -3.0
    ensures radiusPx > 0 <==> m > 0.0
  {
    ChamberRadiusMm / radiusPx as real
  }

  /** Wax analysis: `cr / 3.0`, unguarded; it is only reached with a
      detected chamber. */
  function WaxScale(radiusPx: int): (s: real)
    ensures s * ChamberRadiusMm == radiusPx as real
    ensures radiusPx >= 0 ==> s >= 0.0
  {
    radiusPx as real / ChamberRadiusMm
  }

  /** The worked example: a 100 px reference feature and a 50 px offset give
      about 73.05 px/mm and 0.6845 mm. */
  lemma WorkedExample()
    ensures BufferScale(100) == Some(100.0 / 1.369)
    ensures BufferDeltaMm(50, 100) == Real(0.6845)
  {
  }
}
