/** The particulate (PMP) analysis: the chamber is the first Hough
    candidate in the search box, particulate pixels are those whose HSV
    value lies in a fixed band, and the analysis reports how many of them
    lie inside the chamber and in the whole box, as percentages of the
    chamber's area. */
module Pmps {
  import opened Common
  import opened Circles

  /** One HSV pixel as `cv2.cvtColor(..., COLOR_BGR2HSV)` gives it. */
  datatype Hsv = Hsv(h: int, s: int, v: int)

  /** The search box and the inclusive `cv2.inRange` bounds. */
  datatype Config = Config(box: Roi, lower: Hsv, upper: Hsv)

  const DefaultConfig: Config := Config(Roi(550, 850, 1150, 1450), Hsv(0, 79, 72), Hsv(255, 255, 142))

  /** One pixel of the full image: its HSV value and whether the filled
      chamber circle covers it (the chamber mask `cv2.circle` rasterises
      for the first candidate; meaningless when there is none). */
  datatype Pixel = Pixel(hsv: Hsv, inChamber: bool)

  /** What the analysis reads from one decoded image: the Hough candidates
      in box coordinates, in the detector's order, and the full image as
      HSV pixels with the chamber mask. */
  datatype Frame = Frame(cands: seq<Circle>, pixels: seq<seq<Pixel>>)

  const Header: seq<string> :=
    ["Filename", "Chamber center X", "Chamber center Y", "Chamber radius", "Chamber detected?",
     "Total chamber area (px)", "PMPs in chamber (px)",
     "Percent PMP in chamber area", "Percent total PMP area"]

  const HeaderCells: Row := HeaderRow(Header)

  /** `cv2.inRange`: every channel within its bounds, both ends included. */
  predicate InRange(cfg: Config, p: Hsv) {
    cfg.lower.h <= p.h <= cfg.upper.h
    && cfg.lower.s <= p.s <= cfg.upper.s
    && cfg.lower.v <= p.v <= cfg.upper.v
  }

  // ---------------------------------------------------------------------
  // Counting (`np.count_nonzero` over masks)

  /** Pixels of one row that the chamber mask covers. */
  function RowArea(row: seq<Pixel>): (n: nat)
    ensures n <= |row|
  {
    if row == [] then 0 else (if row[0].inChamber then 1 else 0) + RowArea(row[1..])
  }

  /** Pixels of one row in the threshold mask. */
  function RowThresholded(cfg: Config, row: seq<Pixel>): (n: nat)
    ensures n <= |row|
  {
    if row == [] then 0 else (if InRange(cfg, row[0].hsv) then 1 else 0) + RowThresholded(cfg, row[1..])
  }

  /** Pixels of one row in both masks (`cv2.bitwise_and` with the chamber
      mask): never more than the row's chamber pixels, nor than its
      threshold pixels. */
  function RowInChamber(cfg: Config, row: seq<Pixel>): (n: nat)
    ensures n <= RowArea(row)
    ensures n <= RowThresholded(cfg, row)
  {
    if row == [] then 0
    else (if row[0].inChamber && InRange(cfg, row[0].hsv) then 1 else 0) + RowInChamber(cfg, row[1..])
  }

  /** `chamber_area_px`: the chamber mask's non-zero pixels. */
  function ChamberArea(g: seq<seq<Pixel>>): (n: nat)
  {
    if g == [] then 0 else RowArea(g[0]) + ChamberArea(g[1..])
  }

  /** `thresholded_px`: threshold pixels inside the chamber, never more than
      the chamber's area. */
  function ThresholdedInChamber(cfg: Config, g: seq<seq<Pixel>>): (n: nat)
    ensures n <= ChamberArea(g)
  {
    if g == [] then 0 else RowInChamber(cfg, g[0]) + ThresholdedInChamber(cfg, g[1..])
  }

  /** Threshold pixels over a sequence of rows, each cut to the columns
      `row[left:right]` selects. */
  function ColumnsThresholded(cfg: Config, rows: seq<seq<Pixel>>, left: int, right: int): (n: nat)
  {
    if rows == [] then 0
    else
      var c := SliceRange(left, right, |rows[0]|);
      RowThresholded(cfg, rows[0][c.0..c.1]) + ColumnsThresholded(cfg, rows[1..], left, right)
  }

  /** `roi_threshold_px`: threshold pixels of `threshold_mask[TOP:BOTTOM,
      LEFT:RIGHT]`, with Python's slice normalisation. */
  function BoxThresholded(cfg: Config, g: seq<seq<Pixel>>): (n: nat)
  {
    var r := SliceRange(cfg.box.top, cfg.box.bottom, |g|);
    ColumnsThresholded(cfg, g[r.0..r.1], cfg.box.left, cfg.box.right)
  }

  /** `(part / whole) * 100 if whole > 0 else 0`: the integer 0 when the
      chamber has no area, otherwise a real percentage. */
  function Percent(part: nat, whole: nat): (f: Field)
    ensures whole == 0 <==> f == Int(0)
    ensures whole > 0 ==> f.Real? && f.r * whole as real == part as real * 100.0 && f.r >= 0.0
  {
    if whole > 0 then Real(part as real / whole as real * 100.0) else Int(0)
  }

  /** A part no larger than the whole is at most 100 percent. */
  lemma PercentAtMostHundred(part: nat, whole: nat)
    requires part <= whole
    ensures Percent(part, whole) == Int(0) || 0.0 <= Percent(part, whole).r <= 100.0
  {
    if whole > 0 {
      var f := Percent(part, whole);
      assert f.r * whole as real <= 100.0 * whole as real;
    }
  }

  // ---------------------------------------------------------------------
  // One image

  /** The measurements of one readable image. */
  datatype Record = Record(filename: string, chamber: Circle, detected: bool,
                           areaPx: nat, inChamberPx: nat, percentArea: Field, ratio: Field)

  /** The measurements: the first candidate (or the sentinel), and the four
      counts and percentages, all zero when no chamber was found. */
  function Measure(cfg: Config, path: string, f: Frame): (r: Record)
    ensures r.filename == Basename(path)
    ensures r.detected <==> f.cands != []
    ensures r.chamber == CircleCells(SelectFirst(f.cands, cfg.box.left, cfg.box.top))
    ensures !r.detected ==> r.areaPx == 0 && r.inChamberPx == 0
                            && r.percentArea == Int(0) && r.ratio == Int(0)
    ensures r.detected ==> r.areaPx == ChamberArea(f.pixels)
                           && r.inChamberPx == ThresholdedInChamber(cfg, f.pixels)
                           && r.percentArea == Percent(r.inChamberPx, r.areaPx)
                           && r.ratio == Percent(BoxThresholded(cfg, f.pixels), r.areaPx)
    ensures r.inChamberPx <= r.areaPx
    ensures r.percentArea == Int(0) || 0.0 <= r.percentArea.r <= 100.0
  {
    var chamber := SelectFirst(f.cands, cfg.box.left, cfg.box.top);
    if chamber.None? then
      Record(Basename(path), CircleCells(chamber), false, 0, 0, Int(0), Int(0))
    else
      var area := ChamberArea(f.pixels);
      var inside := ThresholdedInChamber(cfg, f.pixels);
      PercentAtMostHundred(inside, area);
      Record(Basename(path), CircleCells(chamber), true, area, inside,
             Percent(inside, area), Percent(BoxThresholded(cfg, f.pixels), area))
  }

  /** The CSV row of one readable image, in header order. */
  function RowOf(cfg: Config, path: string, f: Frame): (row: Option<Row>)
    ensures row.Some? && |row.value| == |Header|
  {
    var r := Measure(cfg, path, f);
    Some([Text(r.filename), Int(r.chamber.x), Int(r.chamber.y), Int(r.chamber.r), Flag(r.detected),
          Int(r.areaPx), Int(r.inChamberPx), r.percentArea, r.ratio])
  }

  /** The cells in header order: the first candidate's full-image centre
      and radius (or the -1 sentinels) and the detected flag, then the
      chamber area, the thresholded pixels inside it and the two
      percentages over that area, or four zeros without a chamber. */
  lemma RowCells(cfg: Config, path: string, f: Frame)
    ensures var row := RowOf(cfg, path, f).value;
      var d := SelectFirst(f.cands, cfg.box.left, cfg.box.top);
      && row[0] == Text(Basename(path))
      && row[1] == Int(CircleCells(d).x) && row[2] == Int(CircleCells(d).y) && row[3] == Int(CircleCells(d).r)
      && row[4] == Flag(d.Some?)
      && (d.Some? ==>
            && row[5] == Int(ChamberArea(f.pixels))
            && row[6] == Int(ThresholdedInChamber(cfg, f.pixels))
            && row[7] == Percent(ThresholdedInChamber(cfg, f.pixels), ChamberArea(f.pixels))
            && row[8] == Percent(BoxThresholded(cfg, f.pixels), ChamberArea(f.pixels)))
      && (d.None? ==> row[5] == Int(0) && row[6] == Int(0) && row[7] == Int(0) && row[8] == Int(0))
  {
  }

  /** The body of the per-image loop: flag and sentinels start undetected
      and are overwritten when the detector found a circle; the counts are
      taken only for a detected chamber. */
  method MeasureImage(cfg: Config, path: string, f: Frame) returns (row: Row)
    ensures Some(row) == RowOf(cfg, path, f)
  {
    var chamberDetected := false;
    var cxFull, cyFull, cr := -1, -1, -1;
    if f.cands != [] {
      chamberDetected := true;
      var c := f.cands[0];
      cxFull, cyFull, cr := c.x + cfg.box.left, c.y + cfg.box.top, c.r;
    }
    var chamberAreaPx, thresholdedPx, percentArea, ratio;
    if chamberDetected {
      chamberAreaPx := ChamberArea(f.pixels);
      thresholdedPx := ThresholdedInChamber(cfg, f.pixels);
      percentArea := Percent(thresholdedPx, chamberAreaPx);
      var roiThresholdPx := BoxThresholded(cfg, f.pixels);
      ratio := Percent(roiThresholdPx, chamberAreaPx);
    } else {
      chamberAreaPx, thresholdedPx, percentArea, ratio := 0, 0, Int(0), Int(0);
    }
    ghost var r := Measure(cfg, path, f);
    assert Circle(cxFull, cyFull, cr) == r.chamber && chamberDetected == r.detected;
    assert (chamberAreaPx, thresholdedPx, percentArea, ratio) == (r.areaPx, r.inChamberPx, r.percentArea, r.ratio);
    row := [Text(Basename(path)), Int(cxFull), Int(cyFull), Int(cr), Flag(chamberDetected),
            Int(chamberAreaPx), Int(thresholdedPx), percentArea, ratio];
  }

  /** `process_pmps_images`: nothing is written for an empty list; otherwise
      the header, then one row per readable image in input order. */
  method ProcessPmpsImages(cfg: Config, images: seq<Image<Frame>>) returns (csv: Option<seq<Row>>)
    ensures csv.None? <==> images == []
    ensures csv.Some? ==> csv.value == [HeaderCells] + Emitted(cfg, images, RowOf)
  {
    if images == [] {
      return None;
    }
    var results := [HeaderCells];
    var i := 0;
    while i < |images|
      invariant 0 <= i <= |images|
      invariant results == [HeaderCells] + Emitted(cfg, images[..i], RowOf)
    {
      var img := images[i];
      var row: Option<Row> := None;
      if img.data.Some? {
        var r := MeasureImage(cfg, img.path, img.data.value);
        row := Some(r);
      }
      AppendRow(cfg, images, i, RowOf, HeaderCells, results, row);
      results := results + (if row.Some? then [row.value] else []);
      i := i + 1;
    }
    assert images[..i] == images;
    csv := Some(results);
  }

  /** Every readable image gets a row, detected chamber or not, so the batch
      has one row per readable image. */
  lemma OneRowPerReadableImage(cfg: Config, images: seq<Image<Frame>>)
    ensures |Emitted(cfg, images, RowOf)| == CountReadable(images)
  {
    EmittedCount(cfg, images, RowOf);
  }

  /** The box ratio is not bounded by 100: a 1-pixel chamber with two
      in-band pixels in the box gives 200 percent. */
  lemma RatioCanExceedHundred()
    ensures var pmp := Hsv(100, 100, 100);
      var f := Frame([Circle(1, 0, 0)], [[Pixel(pmp, true), Pixel(pmp, false)]]);
      var cfg := Config(Roi(0, 1, 0, 2), Hsv(0, 79, 72), Hsv(255, 255, 142));
      RowOf(cfg, "a.png", f).value[7] == Real(100.0)
      && RowOf(cfg, "a.png", f).value[8] == Real(200.0)
  {
    var pmp := Hsv(100, 100, 100);
    var g := [[Pixel(pmp, true), Pixel(pmp, false)]];
    var cfg := Config(Roi(0, 1, 0, 2), Hsv(0, 79, 72), Hsv(255, 255, 142));
    var row := g[0];
    assert g[1..] == [] && row[1..] == [Pixel(pmp, false)] && row[1..][1..] == [];
    assert RowArea(row[1..]) == 0 && RowArea(row) == 1;
    assert RowInChamber(cfg, row[1..]) == 0 && RowInChamber(cfg, row) == 1;
    assert RowThresholded(cfg, row[1..]) == 1 && RowThresholded(cfg, row) == 2;
    assert ChamberArea(g) == 1;
    assert ThresholdedInChamber(cfg, g) == 1;
    assert g[0..1] == g && row[0..2] == row;
    assert ColumnsThresholded(cfg, g, 0, 2) == 2;
  }
}
