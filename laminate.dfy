/** The laminate-position analysis: one seam per region of interest
    (horizontal seams give a row, vertical seams a column), the chamber as
    calibration reference, and the distances between the seams in pixels
    and millimetres. */
module Laminate {
  import opened Common
  import opened Profile
  import opened Circles
  import opened Calibration

  datatype Orientation = Horizontal | Vertical

  /** One seam region: its name (used in the header), its box and the
      direction of the seam it looks for. */
  datatype SeamRoi = SeamRoi(name: string, box: Roi, orientation: Orientation)

  datatype Config = Config(rois: seq<SeamRoi>, chamber: Roi)

  const DefaultConfig: Config := Config(
    [SeamRoi("ROI 1 - Horizontal", Roi(510, 560, 1300, 1375), Horizontal),
     SeamRoi("ROI 2 - Horizontal", Roi(950, 1010, 320, 450), Horizontal),
     SeamRoi("ROI 3 - Vertical", Roi(790, 870, 1100, 1170), Vertical),
     SeamRoi("ROI 4 - Vertical", Roi(790, 870, 750, 810), Vertical)],
    Roi(550, 800, 1150, 1450))

  /** What the analysis reads from one decoded image: the smoothed
      projection of each seam region, in configuration order, and the Hough
      candidates of the chamber region. */
  datatype Frame = Frame(profiles: seq<Projection>, chamberCands: seq<Circle>)

  /** The frame carries one profile per configured region. */
  predicate Fits(cfg: Config, f: Frame) {
    |f.profiles| == |cfg.rois|
  }

  /** The header: the file name, an x and a y column per region, then the
      chamber, the scale and the two distances. */
  function Header(cfg: Config): (h: seq<string>)
    ensures |h| == 1 + 2 * |cfg.rois| + 8
  {
    ["filename"] + RoiNames(cfg.rois)
      + ["chamber_center_x", "chamber_center_y", "chamber_radius", "pixels_per_mm",
         "vertical_distance_px", "vertical_distance_mm",
         "horizontal_distance_px", "horizontal_distance_mm"]
  }

  function RoiNames(rois: seq<SeamRoi>): (names: seq<string>)
    ensures |names| == 2 * |rois|
  {
    if rois == [] then []
    else RoiNames(rois[..|rois| - 1]) + [rois[|rois| - 1].name + " x", rois[|rois| - 1].name + " y"]
  }

  /** The point one region reports: on a horizontal seam the box's middle
      column and the first row of maximal smoothed strength; on a vertical
      seam the first such column and the box's middle row. */
  function SeamPoint(roi: SeamRoi, p: Projection): (c: (int, int))
    ensures roi.orientation == Horizontal ==>
              c.0 == FloorDiv(roi.box.left + roi.box.right, 2)
              && roi.box.top <= c.1 < roi.box.top + |p|
              && (|p| == roi.box.bottom - roi.box.top ==> c.1 < roi.box.bottom)
              && (forall j :: 0 <= j < |p| ==> p[j] <= p[c.1 - roi.box.top])
              && forall j :: 0 <= j < c.1 - roi.box.top ==> p[j] < p[c.1 - roi.box.top]
    ensures roi.orientation == Vertical ==>
              c.1 == FloorDiv(roi.box.top + roi.box.bottom, 2)
              && roi.box.left <= c.0 < roi.box.left + |p|
              && (|p| == roi.box.right - roi.box.left ==> c.0 < roi.box.right)
              && (forall j :: 0 <= j < |p| ==> p[j] <= p[c.0 - roi.box.left])
              && forall j :: 0 <= j < c.0 - roi.box.left ==> p[j] < p[c.0 - roi.box.left]
  {
    match roi.orientation
    case Horizontal => (FloorDiv(roi.box.left + roi.box.right, 2), roi.box.top + ArgMax(p))
    case Vertical => (roi.box.left + ArgMax(p), FloorDiv(roi.box.top + roi.box.bottom, 2))
  }

  /** The cells the region loop appends: x then y of each region, in order. */
  function SeamCells(rois: seq<SeamRoi>, profiles: seq<Projection>): (cells: seq<Field>)
    requires |rois| == |profiles|
    ensures |cells| == 2 * |rois|
    ensures forall k :: 0 <= k < |cells| ==> cells[k].Int?
  {
    if rois == [] then []
    else
      var n := |rois| - 1;
      var c := SeamPoint(rois[n], profiles[n]);
      SeamCells(rois[..n], profiles[..n]) + [Int(c.0), Int(c.1)]
  }

  /** Cells 2k and 2k+1 of the region loop's output are region k's point. */
  lemma {:induction false} SeamCellsAt(rois: seq<SeamRoi>, profiles: seq<Projection>, k: nat)
    requires |rois| == |profiles| && k < |rois|
    ensures SeamCells(rois, profiles)[2 * k] == Int(SeamPoint(rois[k], profiles[k]).0)
    ensures SeamCells(rois, profiles)[2 * k + 1] == Int(SeamPoint(rois[k], profiles[k]).1)
  {
    var n := |rois| - 1;
    if k < n {
      SeamCellsAt(rois[..n], profiles[..n], k);
    }
  }

  /** With a detected chamber, a distance in millimetres is the pixel
      distance times 3 mm over the radius. */
  lemma LaminateMm(px: int, radius: int)
    ensures radius > 0 ==>
      LaminateDistanceMm(px, LaminateScale(radius)) == px as real * ChamberRadiusMm / radius as real
  {
    if radius > 0 {
      ScaleConsistent(px as real, radius as real, ChamberRadiusMm);
    }
  }

  /** The distance step, from the four region readings and the chamber
      radius: scale, vertical distance (rows of regions 1 and 2) and
      horizontal distance (columns of regions 3 and 4). */
  function DistanceCells(roi1Y: int, roi2Y: int, roi3X: int, roi4X: int, radius: int): (cells: seq<Field>)
    ensures |cells| == 5
    ensures cells[1] == Int(Abs(roi1Y - roi2Y)) && cells[3] == Int(Abs(roi3X - roi4X))
    ensures radius > 0 ==> cells[0] == Real(radius as real / ChamberRadiusMm)
                           && cells[2] == Real(Abs(roi1Y - roi2Y) as real * ChamberRadiusMm / radius as real)
                           && cells[4] == Real(Abs(roi3X - roi4X) as real * ChamberRadiusMm / radius as real)
    ensures radius <= 0 ==> cells[0] == Int(-1) && cells[2] == Int(-1) && cells[4] == Int(-1)
  {
    var ppm := LaminateScale(radius);
    var vPx := Abs(roi1Y - roi2Y);
    var hPx := Abs(roi3X - roi4X);
    LaminateMm(vPx, radius);
    LaminateMm(hPx, radius);
    [if radius > 0 then Real(ppm) else Int(-1), Int(vPx),
     if ppm > 0.0 then Real(LaminateDistanceMm(vPx, ppm)) else Int(-1), Int(hPx),
     if ppm > 0.0 then Real(LaminateDistanceMm(hPx, ppm)) else Int(-1)]
  }

  /** The pixel distances do not depend on the order of the two regions. */
  lemma DistanceSymmetric(y1: int, y2: int, x3: int, x4: int, radius: int)
    ensures DistanceCells(y1, y2, x3, x4, radius) == DistanceCells(y2, y1, x4, x3, radius)
  {
    assert Abs(y1 - y2) == Abs(y2 - y1) && Abs(x3 - x4) == Abs(x4 - x3);
  }

  /** The row as it stands before the distance step: file name, the
      region cells, then the chamber's centre and radius (or the sentinel). */
  function PointCells(cfg: Config, path: string, f: Frame): (pre: Row)
    requires Fits(cfg, f)
    ensures |pre| == 2 * |cfg.rois| + 4
    ensures pre[0] == Text(Basename(path))
    ensures forall k :: 1 <= k < |pre| ==> pre[k].Int?
    ensures var d := SelectLargest(f.chamberCands, cfg.chamber.left, cfg.chamber.top);
      && (d.Some? ==> pre[|pre| - 3] == Int(d.value.x) && pre[|pre| - 2] == Int(d.value.y)
                      && pre[|pre| - 1] == Int(d.value.r))
      && (d.None? ==> pre[|pre| - 3] == Int(-1) && pre[|pre| - 2] == Int(-1) && pre[|pre| - 1] == Int(-1))
  {
    var chamber := CircleCells(SelectLargest(f.chamberCands, cfg.chamber.left, cfg.chamber.top));
    [Text(Basename(path))] + SeamCells(cfg.rois, f.profiles) + [Int(chamber.x), Int(chamber.y), Int(chamber.r)]
  }

  /** The row of one readable image. The distance step reads cells 2, 4, 5
      and 7 back from the row built so far, as the source does; `None` marks
      the inputs on which that read would fail (a frame without one profile
      per region, or fewer than two regions), which the batch excludes. */
  function RowOf(cfg: Config, path: string, f: Frame): (row: Option<Row>)
    ensures row.Some? <==> Fits(cfg, f) && |cfg.rois| >= 2
    ensures row.Some? ==> |row.value| == |Header(cfg)|
  {
    if !Fits(cfg, f) || |cfg.rois| < 2 then None
    else
      var pre := PointCells(cfg, path, f);
      Some(pre + DistanceCells(pre[2].i, pre[4].i, pre[5].i, pre[7].i, pre[|pre| - 1].i))
  }

  /** With the four configured regions, the cells read back are region 1's
      row, region 2's row, region 3's column and region 4's column, and the
      radius cell is the selected chamber's radius or the sentinel. */
  lemma ReadBack(cfg: Config, path: string, f: Frame)
    requires Fits(cfg, f) && |cfg.rois| >= 4
    ensures var pre := PointCells(cfg, path, f);
      && pre[2] == Int(SeamPoint(cfg.rois[0], f.profiles[0]).1)
      && pre[4] == Int(SeamPoint(cfg.rois[1], f.profiles[1]).1)
      && pre[5] == Int(SeamPoint(cfg.rois[2], f.profiles[2]).0)
      && pre[7] == Int(SeamPoint(cfg.rois[3], f.profiles[3]).0)
      && pre[|pre| - 1] == Int(CircleCells(SelectLargest(f.chamberCands, cfg.chamber.left, cfg.chamber.top)).r)
  {
    SeamCellsAt(cfg.rois, f.profiles, 0);
    SeamCellsAt(cfg.rois, f.profiles, 1);
    SeamCellsAt(cfg.rois, f.profiles, 2);
    SeamCellsAt(cfg.rois, f.profiles, 3);
  }

  /** With the four configured regions, the row is the point cells followed
      by the distance step applied to region 1's row, region 2's row,
      region 3's column, region 4's column and the chamber's radius cell. */
  lemma RowCells(cfg: Config, path: string, f: Frame)
    requires Fits(cfg, f) && |cfg.rois| >= 4
    ensures var row := RowOf(cfg, path, f).value;
      var n := 2 * |cfg.rois| + 4;
      && row[..n] == PointCells(cfg, path, f)
      && row[n..] == DistanceCells(SeamPoint(cfg.rois[0], f.profiles[0]).1, SeamPoint(cfg.rois[1], f.profiles[1]).1,
                                   SeamPoint(cfg.rois[2], f.profiles[2]).0, SeamPoint(cfg.rois[3], f.profiles[3]).0,
                                   CircleCells(SelectLargest(f.chamberCands, cfg.chamber.left, cfg.chamber.top)).r)
  {
    ReadBack(cfg, path, f);
    var pre := PointCells(cfg, path, f);
    var rest := DistanceCells(pre[2].i, pre[4].i, pre[5].i, pre[7].i, pre[|pre| - 1].i);
    assert RowOf(cfg, path, f).value == pre + rest;
    assert (pre + rest)[..|pre|] == pre && (pre + rest)[|pre|..] == rest;
  }

  /** One more region appends its point. */
  lemma SeamCellsStep(rois: seq<SeamRoi>, profiles: seq<Projection>, k: nat)
    requires |rois| == |profiles| && k < |rois|
    ensures SeamCells(rois[..k + 1], profiles[..k + 1])
      == SeamCells(rois[..k], profiles[..k])
         + [Int(SeamPoint(rois[k], profiles[k]).0), Int(SeamPoint(rois[k], profiles[k]).1)]
  {
    assert rois[..k + 1][..k] == rois[..k];
    assert profiles[..k + 1][..k] == profiles[..k];
  }

  /** The body of the region loop: the argmax of the smoothed profile,
      placed on the row or the column the region's orientation says. */
  method LocateSeam(roi: SeamRoi, p: Projection) returns (center: (int, int))
    ensures center == SeamPoint(roi, p)
  {
    if roi.orientation == Horizontal {
      var y := ArgMax(p);
      center := (FloorDiv(roi.box.left + roi.box.right, 2), y + roi.box.top);
    } else {
      var x := ArgMax(p);
      center := (x + roi.box.left, FloorDiv(roi.box.top + roi.box.bottom, 2));
    }
  }

  /** The region loop: the point of each region, x then y, in
      configuration order. */
  method SeamRow(cfg: Config, f: Frame) returns (cells: seq<Field>)
    requires Fits(cfg, f)
    ensures cells == SeamCells(cfg.rois, f.profiles)
  {
    cells := [];
    var k := 0;
    while k < |cfg.rois|
      invariant 0 <= k <= |cfg.rois|
      invariant cells == SeamCells(cfg.rois[..k], f.profiles[..k])
    {
      var center := LocateSeam(cfg.rois[k], f.profiles[k]);
      SeamCellsStep(cfg.rois, f.profiles, k);
      cells := cells + [Int(center.0), Int(center.1)];
      k := k + 1;
    }
    assert cfg.rois[..k] == cfg.rois && f.profiles[..k] == f.profiles;
  }

  /** One image, step by step as the source builds it: the region loop, the
      chamber's three cells, then the distance step on the cells read back
      from the row by index. */
  method BuildRow(cfg: Config, path: string, f: Frame) returns (row: Row)
    requires Fits(cfg, f) && |cfg.rois| >= 2
    ensures Some(row) == RowOf(cfg, path, f)
  {
    var seams := SeamRow(cfg, f);
    row := [Text(Basename(path))] + seams;
    var chamber := SelectLargest(f.chamberCands, cfg.chamber.left, cfg.chamber.top);
    var cx, cy, cr;
    if chamber.Some? {
      cx, cy, cr := chamber.value.x, chamber.value.y, chamber.value.r;
    } else {
      cx, cy, cr := -1, -1, -1;
    }
    row := row + [Int(cx), Int(cy), Int(cr)];
    assert row == PointCells(cfg, path, f);
    var roi1Y, roi2Y := row[2].i, row[4].i;
    var roi3X, roi4X := row[5].i, row[7].i;
    row := row + DistanceCells(roi1Y, roi2Y, roi3X, roi4X, cr);
  }

  predicate FitsAll(cfg: Config, images: seq<Image<Frame>>) {
    forall k :: 0 <= k < |images| && images[k].data.Some? ==> Fits(cfg, images[k].data.value)
  }

  /** `process_laminate_images`: nothing is written for an empty list;
      otherwise the header, then one row per readable image in input order. */
  method ProcessLaminateImages(cfg: Config, images: seq<Image<Frame>>) returns (csv: Option<seq<Row>>)
    requires |cfg.rois| >= 2 && FitsAll(cfg, images)
    ensures csv.None? <==> images == []
    ensures csv.Some? ==> csv.value == [HeaderRow(Header(cfg))] + Emitted(cfg, images, RowOf)
  {
    if images == [] {
      return None;
    }
    ghost var header := HeaderRow(Header(cfg));
    var results := [HeaderRow(Header(cfg))];
    var i := 0;
    while i < |images|
      invariant 0 <= i <= |images|
      invariant results == [header] + Emitted(cfg, images[..i], RowOf)
    {
      var img := images[i];
      var row: Option<Row> := None;
      if img.data.Some? {
        assert Fits(cfg, img.data.value);
        var r := BuildRow(cfg, img.path, img.data.value);
        row := Some(r);
      }
      AppendRow(cfg, images, i, RowOf, header, results, row);
      results := results + (if row.Some? then [row.value] else []);
      i := i + 1;
    }
    assert images[..i] == images;
    csv := Some(results);
  }

  /** Every row the batch writes has one cell per header column. */
  lemma {:induction false} RowsMatchHeader(cfg: Config, images: seq<Image<Frame>>)
    ensures forall r :: r in Emitted(cfg, images, RowOf) ==> |r| == |Header(cfg)|
  {
    if images != [] {
      RowsMatchHeader(cfg, images[..|images| - 1]);
    }
  }
}
