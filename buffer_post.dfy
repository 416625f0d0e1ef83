/** The post-buffer analysis: liquid lines in two chambers, both measured
    against the top edge of the same reference feature, and converted to
    millimetres through the feature's known height. */
module BufferPost {
  import opened Common
  import opened Profile
  import opened Calibration

  /** The three regions of interest: left chamber (C2), right chamber (C1)
      and the white reference feature. */
  datatype Config = Config(leftMid: Roi, rightMid: Roi, feature: Roi)

  const DefaultConfig: Config :=
    Config(Roi(450, 700, 630, 780), Roi(90, 280, 1250, 1460), Roi(950, 1070, 800, 1100))

  /** The vertical Sobel crops of the three regions of one decoded image. */
  datatype Frame = Frame(leftGrad: Crop, rightGrad: Crop, featureGrad: Crop)

  const Header: seq<string> :=
    ["filename", "C2_liquid_y", "C1_liquid_y", "feature_top_y", "feature_bottom_y",
     "feature_height_px", "C2_height", "C2_height_mm", "C1_height", "C1_height_mm"]

  const HeaderCells: Row := HeaderRow(Header)

  datatype Record = Record(filename: string, leftLiquidY: int, rightLiquidY: int,
                           featureTopY: int, featureBottomY: int, featureHeightPx: int,
                           leftDeltaY: int, leftDeltaMm: Field,
                           rightDeltaY: int, rightDeltaMm: Field)

  /** The measurements of one readable image. */
  function Measure(cfg: Config, path: string, f: Frame): (r: Record)
    ensures r.filename == Basename(path)
    ensures cfg.leftMid.top <= r.leftLiquidY < cfg.leftMid.top + |f.leftGrad|
    ensures cfg.rightMid.top <= r.rightLiquidY < cfg.rightMid.top + |f.rightGrad|
    ensures cfg.feature.top <= r.featureTopY <= r.featureBottomY < cfg.feature.top + |f.featureGrad|
    ensures r.featureHeightPx == r.featureBottomY - r.featureTopY
    ensures r.leftDeltaY == r.featureTopY - r.leftLiquidY
    ensures r.rightDeltaY == r.featureTopY - r.rightLiquidY
    ensures r.leftDeltaMm == NA <==> r.featureHeightPx == 0
    ensures r.rightDeltaMm == NA <==> r.featureHeightPx == 0
    ensures r.featureHeightPx != 0 ==>
              r.leftDeltaMm == Real(r.leftDeltaY as real * FeatureHeightMm / r.featureHeightPx as real)
              && r.rightDeltaMm == Real(r.rightDeltaY as real * FeatureHeightMm / r.featureHeightPx as real)
  {
    var leftY := DetectLine(f.leftGrad, cfg.leftMid.top);
    var rightY := DetectLine(f.rightGrad, cfg.rightMid.top);
    var span := FeatureHeight(RowStrength(f.featureGrad), cfg.feature.top);
    var leftDelta := span.topY - leftY;
    var rightDelta := span.topY - rightY;
    Record(Basename(path), leftY, rightY, span.topY, span.bottomY, span.heightPx,
           leftDelta, BufferDeltaMm(leftDelta, span.heightPx),
           rightDelta, BufferDeltaMm(rightDelta, span.heightPx))
  }

  /** The CSV row of one readable image: ten cells in header order. */
  function RowOf(cfg: Config, path: string, f: Frame): (row: Option<Row>)
    ensures row.Some? && |row.value| == |Header| == 10
  {
    Some(Cells(Measure(cfg, path, f)))
  }

  /** A record laid out in header order. */
  function Cells(r: Record): (row: Row)
    ensures |row| == 10
  {
    [Text(r.filename), Int(r.leftLiquidY), Int(r.rightLiquidY),
     Int(r.featureTopY), Int(r.featureBottomY), Int(r.featureHeightPx),
     Int(r.leftDeltaY), r.leftDeltaMm, Int(r.rightDeltaY), r.rightDeltaMm]
  }

  /** The cells of a record whose heights and conversions are consistent,
      named by position. */
  lemma CellsOfRecord(r: Record)
    requires r.featureHeightPx == r.featureBottomY - r.featureTopY
    requires r.leftDeltaY == r.featureTopY - r.leftLiquidY && r.rightDeltaY == r.featureTopY - r.rightLiquidY
    requires r.leftDeltaMm == BufferDeltaMm(r.leftDeltaY, r.featureHeightPx)
    requires r.rightDeltaMm == BufferDeltaMm(r.rightDeltaY, r.featureHeightPx)
    ensures var row := Cells(r);
      && row[0] == Text(r.filename) && row[1] == Int(r.leftLiquidY) && row[2] == Int(r.rightLiquidY)
      && row[3] == Int(r.featureTopY) && row[4] == Int(r.featureBottomY)
      && row[5] == Int(row[4].i - row[3].i)
      && row[6] == Int(row[3].i - row[1].i) && row[7] == BufferDeltaMm(row[6].i, row[5].i)
      && row[8] == Int(row[3].i - row[2].i) && row[9] == BufferDeltaMm(row[8].i, row[5].i)
  {
  }

  /** The cells in header order: the two liquid lines and the feature's
      edges as the detectors find them, the feature height, and each
      chamber's height below the feature top in pixels and millimetres. */
  lemma RowCells(cfg: Config, path: string, f: Frame)
    ensures var row := RowOf(cfg, path, f).value;
      var span := FeatureHeight(RowStrength(f.featureGrad), cfg.feature.top);
      && row[0] == Text(Basename(path))
      && row[1] == Int(DetectLine(f.leftGrad, cfg.leftMid.top))
      && row[2] == Int(DetectLine(f.rightGrad, cfg.rightMid.top))
      && row[3] == Int(span.topY) && row[4] == Int(span.bottomY)
      && row[5] == Int(row[4].i - row[3].i)
      && row[6] == Int(row[3].i - row[1].i) && row[7] == BufferDeltaMm(row[6].i, row[5].i)
      && row[8] == Int(row[3].i - row[2].i) && row[9] == BufferDeltaMm(row[8].i, row[5].i)
  {
    MeasureDetects(cfg, path, f);
    CellsOfRecord(Measure(cfg, path, f));
  }

  /** The measured lines and edges are the detectors' results, and the
      millimetre cells are the guarded conversions of the pixel heights. */
  lemma MeasureDetects(cfg: Config, path: string, f: Frame)
    ensures var r := Measure(cfg, path, f);
      var span := FeatureHeight(RowStrength(f.featureGrad), cfg.feature.top);
      && r.leftLiquidY == DetectLine(f.leftGrad, cfg.leftMid.top)
      && r.rightLiquidY == DetectLine(f.rightGrad, cfg.rightMid.top)
      && r.featureTopY == span.topY && r.featureBottomY == span.bottomY
      && r.leftDeltaMm == BufferDeltaMm(r.leftDeltaY, r.featureHeightPx)
      && r.rightDeltaMm == BufferDeltaMm(r.rightDeltaY, r.featureHeightPx)
  {
  }

  /** The body of the per-image loop for a readable image. */
  method MeasureImage(cfg: Config, path: string, f: Frame) returns (row: Row)
    ensures Some(row) == RowOf(cfg, path, f)
  {
    var leftY := DetectLine(f.leftGrad, cfg.leftMid.top);
    var rightY := DetectLine(f.rightGrad, cfg.rightMid.top);
    var heightPx, topY, bottomY := DetectFeatureHeight(f.featureGrad, cfg.feature.top);
    var leftDelta := topY - leftY;
    var rightDelta := topY - rightY;
    row := [Text(Basename(path)), Int(leftY), Int(rightY), Int(topY), Int(bottomY), Int(heightPx),
            Int(leftDelta), BufferDeltaMm(leftDelta, heightPx),
            Int(rightDelta), BufferDeltaMm(rightDelta, heightPx)];
  }

  /** `process_post_buffer_images`: nothing is written for an empty list;
      otherwise the header, then one row per readable image in input order. */
  method ProcessPostBufferImages(cfg: Config, images: seq<Image<Frame>>) returns (csv: Option<seq<Row>>)
    ensures csv.None? <==> images == []
    ensures csv.Some? ==> csv.value == [HeaderCells] + Emitted(cfg, images, RowOf)
  {
    if images == [] {
      return None;
    }
    var results := [HeaderCells];
    var i := 0;
    while i < |images|
      invariant 0 <= i <= |images|
      invariant results == [HeaderCells] + Emitted(cfg, images[..i], RowOf)
    {
      var img := images[i];
      var row: Option<Row> := None;
      if img.data.Some? {
        var r := MeasureImage(cfg, img.path, img.data.value);
        row := Some(r);
      }
      AppendRow(cfg, images, i, RowOf, HeaderCells, results, row);
      results := results + (if row.Some? then [row.value] else []);
      i := i + 1;
    }
    assert images[..i] == images;
    csv := Some(results);
  }

  /** Every readable image gets a row, so the file has one line per
      readable image after the header. */
  lemma OneRowPerReadableImage(cfg: Config, images: seq<Image<Frame>>)
    ensures |Emitted(cfg, images, RowOf)| == CountReadable(images)
  {
    EmittedCount(cfg, images, RowOf);
  }
}
