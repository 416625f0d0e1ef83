/** The wax-melt analysis: the chamber (largest Hough candidate) fixes a
    scale, two rectangles are laid out from its centre in chamber radii,
    and each rectangle's pixels are split into white (melted wax) and dark
    by a fixed grey threshold. */
module Wax {
  import opened Common
  import opened Circles
  import opened Calibration

  /** The chamber search box and the binary threshold. */
  datatype Config = Config(box: Roi, threshold: int)

  const DefaultConfig: Config := Config(Roi(550, 800, 1150, 1450), 127)

  /** What the analysis reads from one decoded image: the Hough candidates
      in box coordinates and the full image in grey levels. */
  datatype Frame = Frame(cands: seq<Circle>, gray: seq<seq<int>>)

  const Header: seq<string> :=
    ["filename", "rect1_white_percent", "rect1_dark_percent",
     "rect2_white_percent", "rect2_dark_percent", "total_white_percent", "total_dark_percent"]

  const HeaderCells: Row := HeaderRow(Header)

  // ---------------------------------------------------------------------
  // Rectangle geometry

  /** Python's `int()` on a real: truncation toward zero. */
  function Trunc(x: real): (n: int)
    ensures x >= 0.0 ==> n as real <= x < n as real + 1.0
    ensures x < 0.0 ==> n as real - 1.0 < x <= n as real
  {
    if x >= 0.0 then x.Floor else -((-x).Floor)
  }

  /** Rectangle 1 spans the corners `tl`..`br`, rectangle 2 the corners
      `bl`..`tr`. */
  datatype Rects = Rects(tl: (int, int), br: (int, int), bl: (int, int), tr: (int, int))

  /** The two rectangles for a chamber centred at (`cxFull`, `cyFull`) in the
      full image with radius `cr`: rectangle 1 ends 1.5 mm left of and
      3.15 mm above the centre and is 1.5 mm wide and 5 mm high; rectangle 2
      hangs off rectangle 1's top-left corner, 14.4 mm to the left and
      1.5 mm down. Rectangle 2's top-right corner is rectangle 1's top-left
      corner, and for a non-negative radius both are well ordered. */
  function Geometry(cxFull: int, cyFull: int, cr: int): (g: Rects)
    ensures g.tr == g.tl
    ensures cr >= 0 ==> g.tl.0 <= g.br.0 && g.tl.1 <= g.br.1 && g.bl.0 <= g.tr.0 && g.tr.1 <= g.bl.1
  {
    var pxPerMm := WaxScale(cr);
    var brX := Trunc(cxFull as real - 1.5 * pxPerMm);
    var brY := Trunc(cyFull as real - 3.15 * pxPerMm);
    var width1 := Trunc(1.5 * pxPerMm);
    var height1 := Trunc(5.0 * pxPerMm);
    var tl := (brX - width1, brY - height1);
    var width2 := Trunc(14.4 * pxPerMm);
    var height2 := Trunc(1.5 * pxPerMm);
    Rects(tl, (brX, brY), (tl.0 - width2, tl.1 + height2), tl)
  }

  /** Truncating an exact quotient of non-negative integers is integer
      division. */
  lemma TruncQuotient(a: int, b: int)
    requires a >= 0 && b > 0
    ensures Trunc(a as real / b as real) == a / b
  {
    var q := a / b;
    assert q * b <= a < (q + 1) * b;
    CastProduct(q, b);
    CastProduct(q + 1, b);
    BelowQuotient(q as real, a as real, b as real);
    AboveQuotient(a as real, (q + 1) as real, b as real);
  }

  /** Casting to `real` commutes with multiplication. */
  lemma CastProduct(x: int, y: int)
    ensures (x * y) as real == x as real * y as real
  {
  }

  lemma BelowQuotient(lo: real, a: real, b: real)
    requires b > 0.0 && lo * b <= a
    ensures lo <= a / b
  {
    var x := a / b;
    assert x * b == a;
    if x < lo {
      assert x * b < lo * b;
    }
  }

  lemma AboveQuotient(a: real, hi: real, b: real)
    requires b > 0.0 && a < hi * b
    ensures a / b < hi
  {
    var x := a / b;
    assert x * b == a;
    if x >= hi {
      assert x * b >= hi * b;
    }
  }

  /** The geometry in whole pixels: for a chamber far enough from the top
      and left edges, rectangle 1 is `cr / 2` wide and `5 cr / 3` high, and
      rectangle 2 is `24 cr / 5` wide and `cr / 2` high (integer division),
      with rectangle 1's bottom-right corner at
      ((2 cx - cr) / 2, (20 cy - 21 cr) / 20). */
  lemma GeometryInPixels(cxFull: int, cyFull: int, cr: int)
    requires cr >= 0 && 2 * cxFull >= cr && 20 * cyFull >= 21 * cr
    ensures var g := Geometry(cxFull, cyFull, cr);
      && g.br == ((2 * cxFull - cr) / 2, (20 * cyFull - 21 * cr) / 20)
      && g.br.0 - g.tl.0 == cr / 2 && g.br.1 - g.tl.1 == 5 * cr / 3
      && g.tr.0 - g.bl.0 == 24 * cr / 5 && g.bl.1 - g.tr.1 == cr / 2
  {
    var ppm := WaxScale(cr);
    assert cxFull as real - 1.5 * ppm == (2 * cxFull - cr) as real / 2.0;
    TruncQuotient(2 * cxFull - cr, 2);
    var brX := Trunc(cxFull as real - 1.5 * ppm);
    assert brX == (2 * cxFull - cr) / 2;
    assert cyFull as real - 3.15 * ppm == (20 * cyFull - 21 * cr) as real / 20.0;
    TruncQuotient(20 * cyFull - 21 * cr, 20);
    var brY := Trunc(cyFull as real - 3.15 * ppm);
    assert brY == (20 * cyFull - 21 * cr) / 20;
    assert 1.5 * ppm == cr as real / 2.0;
    TruncQuotient(cr, 2);
    assert Trunc(1.5 * ppm) == cr / 2;
    assert 5.0 * ppm == (5 * cr) as real / 3.0;
    TruncQuotient(5 * cr, 3);
    assert Trunc(5.0 * ppm) == 5 * cr / 3;
    assert 14.4 * ppm == (24 * cr) as real / 5.0;
    TruncQuotient(24 * cr, 5);
    assert Trunc(14.4 * ppm) == 24 * cr / 5;
    GeometryCorners(cxFull, cyFull, cr);
  }

  /** The corners in terms of the truncated distances. */
  lemma GeometryCorners(cxFull: int, cyFull: int, cr: int)
    ensures var ppm := WaxScale(cr);
      var g := Geometry(cxFull, cyFull, cr);
      && g.br == (Trunc(cxFull as real - 1.5 * ppm), Trunc(cyFull as real - 3.15 * ppm))
      && g.tl == (g.br.0 - Trunc(1.5 * ppm), g.br.1 - Trunc(5.0 * ppm))
      && g.bl == (g.tl.0 - Trunc(14.4 * ppm), g.tl.1 + Trunc(1.5 * ppm))
  {
  }

  // ---------------------------------------------------------------------
  // `analyze_roi`

  function Min(a: int, b: int): int { if a <= b then a else b }

  function Max(a: int, b: int): int { if a <= b then b else a }

  /** `gray_full[min(y1, y2):max(y1, y2), min(x1, x2):max(x1, x2)]`, with
      Python's slice normalisation on both axes. */
  function Region(gray: seq<seq<int>>, x1: int, y1: int, x2: int, y2: int): (region: seq<seq<int>>)
    ensures |region| <= |gray|
  {
    var r := SliceRange(Min(y1, y2), Max(y1, y2), |gray|);
    Columns(gray[r.0..r.1], Min(x1, x2), Max(x1, x2))
  }

  /** Each row cut to `row[lo:hi]`. */
  function Columns(rows: seq<seq<int>>, lo: int, hi: int): (cut: seq<seq<int>>)
    ensures |cut| == |rows|
    ensures forall k :: 0 <= k < |rows| ==> |cut[k]| <= |rows[k]|
  {
    seq(|rows|, k requires 0 <= k < |rows| =>
      var c := SliceRange(lo, hi, |rows[k]|); rows[k][c.0..c.1])
  }

  /** Pixels of one row above the threshold (`cv2.THRESH_BINARY` makes
      exactly those 255). */
  function RowWhite(threshold: int, row: seq<int>): (n: nat)
    ensures n <= |row|
  {
    if row == [] then 0 else (if row[0] > threshold then 1 else 0) + RowWhite(threshold, row[1..])
  }

  /** `binary.size`. */
  function Size(region: seq<seq<int>>): (n: nat)
  {
    if region == [] then 0 else |region[0]| + Size(region[1..])
  }

  /** `cv2.countNonZero(binary)`: never more than the region's size. */
  function White(threshold: int, region: seq<seq<int>>): (n: nat)
    ensures n <= Size(region)
  {
    if region == [] then 0 else RowWhite(threshold, region[0]) + White(threshold, region[1..])
  }

  /** `part / total * 100`: the share of `part` in `total`, as a
      percentage. */
  function Percent(part: nat, total: nat): (p: real)
    requires 0 < total && part <= total
    ensures 0.0 <= p <= 100.0
  {
    PercentOfTotal(part, total);
    part as real / total as real * 100.0
  }

  /** The percentage scaled back by the total is 100 times the part. */
  lemma PercentOfTotal(part: nat, total: nat)
    requires 0 < total && part <= total
    ensures var p := part as real / total as real * 100.0;
      p * total as real == part as real * 100.0 && p <= 100.0
  {
    var p := part as real / total as real * 100.0;
    assert p * total as real == part as real * 100.0;
    assert p * total as real <= 100.0 * total as real;
  }

  /** Fractions over the same positive denominator add. */
  lemma AddFractions(a: real, b: real, t: real)
    requires t > 0.0
    ensures a / t + b / t == (a + b) / t
  {
    var x := a / t;
    var y := b / t;
    var z := (a + b) / t;
    assert x * t == a && y * t == b && z * t == a + b;
    assert (x + y) * t == x * t + y * t;
    assert (x + y - z) * t == 0.0;
  }

  /** The white and dark shares of the same region add up to 100. */
  lemma PercentComplement(part: nat, total: nat)
    requires 0 < total && part <= total
    ensures Percent(part, total) + Percent(total - part, total) == 100.0
  {
    var t := total as real;
    var a := part as real;
    assert (total - part) as real == t - a;
    AddFractions(a, t - a, t);
    assert a / t + (t - a) / t == 1.0;
  }

  /** A white and a dark percentage that split a region between them. */
  predicate Split(p: (real, real)) {
    p.0 + p.1 == 100.0 && 0.0 <= p.0 <= 100.0 && 0.0 <= p.1 <= 100.0
  }

  /** `analyze_roi`: the white and dark percentages of the region between
      two corners. An empty region makes the percentage division raise
      `ZeroDivisionError`, modelled as `None`. Otherwise the white one is
      the share of pixels above the threshold, and the two split 100. */
  function AnalyzeRoi(threshold: int, gray: seq<seq<int>>, x1: int, y1: int, x2: int, y2: int): (r: Option<(real, real)>)
    ensures r.None? <==> Size(Region(gray, x1, y1, x2, y2)) == 0
    ensures r.Some? ==> Split(r.value)
  {
    var region := Region(gray, x1, y1, x2, y2);
    var total := Size(region);
    var white := White(threshold, region);
    var dark := total - white;
    if total == 0 then None
    else
      PercentComplement(white, total);
      Some((Percent(white, total), Percent(dark, total)))
  }

  /** A non-empty region's white percentage is its share of pixels above the
      threshold, and its dark percentage the share of the rest. */
  lemma AnalyzeRoiShares(threshold: int, gray: seq<seq<int>>, x1: int, y1: int, x2: int, y2: int)
    requires Size(Region(gray, x1, y1, x2, y2)) > 0
    ensures var region := Region(gray, x1, y1, x2, y2);
      var r := AnalyzeRoi(threshold, gray, x1, y1, x2, y2);
      && r.Some?
      && r.value.0 == Percent(White(threshold, region), Size(region))
      && r.value.1 == Percent(Size(region) - White(threshold, region), Size(region))
  {
  }

  /** The corners may be given in either order on either axis. */
  lemma AnalyzeRoiCornerOrder(threshold: int, gray: seq<seq<int>>, x1: int, y1: int, x2: int, y2: int)
    ensures AnalyzeRoi(threshold, gray, x1, y1, x2, y2) == AnalyzeRoi(threshold, gray, x2, y2, x1, y1)
    ensures AnalyzeRoi(threshold, gray, x1, y1, x2, y2) == AnalyzeRoi(threshold, gray, x2, y1, x1, y2)
  {
    assert Min(x1, x2) == Min(x2, x1) && Max(x1, x2) == Max(x2, x1);
    assert Min(y1, y2) == Min(y2, y1) && Max(y1, y2) == Max(y2, y1);
    assert Region(gray, x1, y1, x2, y2) == Region(gray, x2, y2, x1, y1) == Region(gray, x2, y1, x1, y2);
  }

  // ---------------------------------------------------------------------
  // One image

  /** What the loop does with one readable image: `continue` past it, write
      a row, or raise and stop the whole batch. */
  datatype Outcome = Skipped | Written(row: Row) | Raised

  /** The chamber and the rectangles laid out from it. */
  function Layout(cfg: Config, cands: seq<Circle>): (g: Rects)
    requires cands != []
  {
    var c := SelectLargest(cands, cfg.box.left, cfg.box.top).value;
    Geometry(c.x, c.y, c.r)
  }

  /** The row of an image whose two rectangles were analysed, or the
      exception if either was empty. */
  function Assemble(path: string, rect1: Option<(real, real)>, rect2: Option<(real, real)>): (o: Outcome)
    ensures o.Raised? <==> rect1.None? || rect2.None?
    ensures !o.Skipped?
  {
    if rect1.None? || rect2.None? then Raised
    else
      var (w1, d1) := rect1.value;
      var (w2, d2) := rect2.value;
      Written([Text(Basename(path)), Real(w1), Real(d1), Real(w2), Real(d2), Real(w1 + w2), Real(d1 + d2)])
  }

  /** A written row: the file name, then each rectangle's white and dark
      percentages, which split 100, then the totals, which add the two
      rectangles up; the white total lies in [0, 200] and the two totals
      sum to 200. */
  lemma AssembledRow(path: string, rect1: (real, real), rect2: (real, real))
    requires Split(rect1) && Split(rect2)
    ensures var o := Assemble(path, Some(rect1), Some(rect2));
      && o.Written? && |o.row| == |Header| && o.row[0] == Text(Basename(path))
      && (forall k :: 1 <= k < |o.row| ==> o.row[k].Real?)
      && (o.row[1].r, o.row[2].r) == rect1 && (o.row[3].r, o.row[4].r) == rect2
      && o.row[5].r == o.row[1].r + o.row[3].r && o.row[6].r == o.row[2].r + o.row[4].r
      && 0.0 <= o.row[5].r <= 200.0 && o.row[5].r + o.row[6].r == 200.0
  {
  }

  /** One readable image: skipped without a chamber, otherwise the two
      rectangles laid out from it, analysed in order. */
  function Step(cfg: Config, path: string, f: Frame): (o: Outcome)
    ensures o.Skipped? <==> f.cands == []
  {
    if f.cands == [] then Skipped
    else
      var g := Layout(cfg, f.cands);
      Assemble(path, AnalyzeRoi(cfg.threshold, f.gray, g.tl.0, g.tl.1, g.br.0, g.br.1),
                     AnalyzeRoi(cfg.threshold, f.gray, g.bl.0, g.bl.1, g.tr.0, g.tr.1))
  }

  /** An image with a chamber raises exactly when one of its two rectangles
      has no pixels. */
  lemma RaisesOnEmptyRectangle(cfg: Config, path: string, f: Frame)
    requires f.cands != []
    ensures var g := Layout(cfg, f.cands);
      (Step(cfg, path, f).Raised? <==>
         Size(Region(f.gray, g.tl.0, g.tl.1, g.br.0, g.br.1)) == 0
         || Size(Region(f.gray, g.bl.0, g.bl.1, g.tr.0, g.tr.1)) == 0)
  {
  }

  /** The row of an image, when it gets one. */
  function RowOf(cfg: Config, path: string, f: Frame): (row: Option<Row>)
    ensures row.Some? <==> Step(cfg, path, f).Written?
  {
    match Step(cfg, path, f)
    case Written(row) => Some(row)
    case _ => None
  }

  /** The body of the per-image loop, with its `continue`, the two
      `analyze_roi` calls in order (either may raise), and the row. */
  method MeasureImage(cfg: Config, path: string, f: Frame) returns (o: Outcome)
    ensures o == Step(cfg, path, f)
  {
    if f.cands == [] {
      return Skipped;
    }
    var circle := SelectLargest(f.cands, 0, 0).value;
    var cxFull, cyFull := circle.x + cfg.box.left, circle.y + cfg.box.top;
    var g := Geometry(cxFull, cyFull, circle.r);
    SelectThenShift(f.cands, cfg.box.left, cfg.box.top);
    assert g == Layout(cfg, f.cands);
    var rect1 := AnalyzeRoi(cfg.threshold, f.gray, g.tl.0, g.tl.1, g.br.0, g.br.1);
    if rect1.None? {
      return Raised;
    }
    var rect2 := AnalyzeRoi(cfg.threshold, f.gray, g.bl.0, g.bl.1, g.tr.0, g.tr.1);
    if rect2.None? {
      return Raised;
    }
    o := Assemble(path, rect1, rect2);
    assert Step(cfg, path, f) == Assemble(path, rect1, rect2);
  }

  /** `RowOf` is the row of a written outcome. */
  lemma RowOfFollowsStep(cfg: Config)
    ensures forall p, t :: RowOf(cfg, p, t) == if Step(cfg, p, t).Written? then Some(Step(cfg, p, t).row) else None
  {
  }

  // ---------------------------------------------------------------------
  // The batch: a per-image loop that an exception can end early

  /** What the loop leaves in the CSV after the header, and whether an
      exception ended it, for a loop body `step`. */
  function Run<C, T>(cfg: C, images: seq<Image<T>>, step: (C, string, T) -> Outcome): (r: (seq<Row>, bool))
    ensures |r.0| <= |images|
  {
    if images == [] then ([], false)
    else
      var prior := Run(cfg, images[..|images| - 1], step);
      var last := images[|images| - 1];
      if prior.1 || last.data.None? then prior
      else match step(cfg, last.path, last.data.value)
        case Skipped => prior
        case Written(row) => (prior.0 + [row], false)
        case Raised => (prior.0, true)
  }

  /** One pass of the loop on image `i`, whose body had outcome `o` (a
      `continue` for an unreadable image): the row it appends to the CSV so
      far, and whether it ends the loop. */
  lemma RunAppend<C, T>(cfg: C, images: seq<Image<T>>, i: nat, step: (C, string, T) -> Outcome,
                        header: Row, results: seq<Row>, o: Outcome)
    requires i < |images| && !Run(cfg, images[..i], step).1
    requires results == [header] + Run(cfg, images[..i], step).0
    requires o == if images[i].data.None? then Skipped else step(cfg, images[i].path, images[i].data.value)
    ensures results + (if o.Written? then [o.row] else []) == [header] + Run(cfg, images[..i + 1], step).0
    ensures Run(cfg, images[..i + 1], step).1 == o.Raised?
  {
    assert images[..i + 1][..i] == images[..i];
    var added := if o.Written? then [o.row] else [];
    assert Run(cfg, images[..i + 1], step).0 == Run(cfg, images[..i], step).0 + added;
    assert results + added == [header] + (Run(cfg, images[..i], step).0 + added);
  }

  /** Once an exception has ended the loop, later images change nothing. */
  lemma {:induction false} RunStopsAtRaise<C, T>(cfg: C, images: seq<Image<T>>, i: nat, step: (C, string, T) -> Outcome)
    requires i <= |images| && Run(cfg, images[..i], step).1
    ensures Run(cfg, images, step) == Run(cfg, images[..i], step)
  {
    if i < |images| {
      var p := images[..|images| - 1];
      assert p[..i] == images[..i];
      RunStopsAtRaise(cfg, p, i, step);
    } else {
      assert images[..i] == images;
    }
  }

  predicate Raises<C, T>(cfg: C, img: Image<T>, step: (C, string, T) -> Outcome) {
    img.data.Some? && step(cfg, img.path, img.data.value).Raised?
  }

  /** The index of the first image that raises, or the batch's length. */
  function FirstRaise<C, T>(cfg: C, images: seq<Image<T>>, step: (C, string, T) -> Outcome): (k: nat)
    ensures k <= |images|
    ensures forall j :: 0 <= j < k ==> !Raises(cfg, images[j], step)
    ensures k < |images| ==> Raises(cfg, images[k], step)
  {
    if images == [] then 0
    else
      var n := |images|;
      var k := FirstRaise(cfg, images[..n - 1], step);
      if k < n - 1 then k else if Raises(cfg, images[n - 1], step) then n - 1 else n
  }

  /** The loop writes the rows of the images before the first one that
      raises, exactly as if that one and everything after it were absent,
      and it reports an exception exactly when some image raises. */
  lemma {:induction false} RunCharacterised<C, T>(cfg: C, images: seq<Image<T>>,
                                                 step: (C, string, T) -> Outcome,
                                                 rowOf: (C, string, T) -> Option<Row>)
    requires forall p, t :: rowOf(cfg, p, t) == if step(cfg, p, t).Written? then Some(step(cfg, p, t).row) else None
    ensures var k := FirstRaise(cfg, images, step);
      Run(cfg, images, step) == (Emitted(cfg, images[..k], rowOf), k < |images|)
  {
    if images != [] {
      var n := |images|;
      var p := images[..n - 1];
      RunCharacterised(cfg, p, step, rowOf);
      var k := FirstRaise(cfg, images, step);
      if k < n - 1 {
        assert p[..k] == images[..k];
      } else if k == n - 1 {
        assert FirstRaise(cfg, p, step) == n - 1 && p[..n - 1] == p;
        assert Raises(cfg, images[n - 1], step);
        assert images[..k] == p;
      } else {
        assert FirstRaise(cfg, p, step) == n - 1 && p[..n - 1] == p;
        assert images[..k] == images;
        RunLastImage(cfg, images, step, rowOf);
      }
    }
  }

  /** The inductive step of `RunCharacterised` when the last image does not
      raise and nothing before it did. */
  lemma RunLastImage<C, T>(cfg: C, images: seq<Image<T>>,
                           step: (C, string, T) -> Outcome, rowOf: (C, string, T) -> Option<Row>)
    requires forall p, t :: rowOf(cfg, p, t) == if step(cfg, p, t).Written? then Some(step(cfg, p, t).row) else None
    requires images != [] && !Raises(cfg, images[|images| - 1], step)
    requires var p := images[..|images| - 1]; Run(cfg, p, step) == (Emitted(cfg, p, rowOf), false)
    ensures Run(cfg, images, step) == (Emitted(cfg, images, rowOf), false)
  {
    var p := images[..|images| - 1];
    var last := images[|images| - 1];
    if last.data.Some? {
      var o := step(cfg, last.path, last.data.value);
      assert rowOf(cfg, last.path, last.data.value) == if o.Written? then Some(o.row) else None;
      assert Emitted(cfg, images, rowOf) == Emitted(cfg, p, rowOf) + if o.Written? then [o.row] else [];
      assert Run(cfg, images, step) == if o.Written? then (Run(cfg, p, step).0 + [o.row], false) else Run(cfg, p, step);
      assert Emitted(cfg, p, rowOf) + [] == Emitted(cfg, p, rowOf);
    } else {
      assert Emitted(cfg, p, rowOf) + [] == Emitted(cfg, p, rowOf);
    }
  }

  /** For the wax analysis: the CSV holds the rows of the images before the
      first one with an empty rectangle, and an exception is reported
      exactly when there is one. */
  lemma WaxRunCharacterised(cfg: Config, images: seq<Image<Frame>>)
    ensures var k := FirstRaise(cfg, images, Step);
      Run(cfg, images, Step) == (Emitted(cfg, images[..k], RowOf), k < |images|)
  {
    RowOfFollowsStep(cfg);
    RunCharacterised(cfg, images, Step, RowOf);
  }

  /** One pass of the batch loop: the image's row, if any, is appended,
      and `stop` reports the exception that ends the loop. */
  method VisitImage(cfg: Config, images: seq<Image<Frame>>, i: nat, results: seq<Row>) returns (next: seq<Row>, stop: bool)
    requires i < |images| && !Run(cfg, images[..i], Step).1
    requires results == [HeaderCells] + Run(cfg, images[..i], Step).0
    ensures next == [HeaderCells] + Run(cfg, images[..i + 1], Step).0
    ensures stop == Run(cfg, images[..i + 1], Step).1
  {
    var img := images[i];
    var o := Skipped;
    if img.data.Some? {
      o := MeasureImage(cfg, img.path, img.data.value);
    }
    RunAppend(cfg, images, i, Step, HeaderCells, results, o);
    next, stop := results + (if o.Written? then [o.row] else []), o.Raised?;
  }

  /** `process_wax_melt_images`: nothing is written for an empty list;
      otherwise the header, then the rows the loop writes, and whether an
      exception ended it early. */
  method ProcessWaxMeltImages(cfg: Config, images: seq<Image<Frame>>) returns (csv: Option<seq<Row>>, raised: bool)
    ensures csv.None? <==> images == []
    ensures csv.Some? ==> csv.value == [HeaderCells] + Run(cfg, images, Step).0 && raised == Run(cfg, images, Step).1
  {
    if images == [] {
      return None, false;
    }
    var results := [HeaderCells];
    var i := 0;
    while i < |images|
      invariant 0 <= i <= |images|
      invariant results == [HeaderCells] + Run(cfg, images[..i], Step).0 && !Run(cfg, images[..i], Step).1
    {
      var stop;
      results, stop := VisitImage(cfg, images, i, results);
      if stop {
        RunStopsAtRaise(cfg, images, i + 1, Step);
        return Some(results), true;
      }
      i := i + 1;
    }
    assert images[..i] == images;
    csv, raised := Some(results), false;
  }
}
