/** The pre-buffer analysis: one liquid line in the middle chamber, the
    reference feature's two edges, the signed offset between them and its
    conversion to millimetres through the feature's known height. */
module BufferPre {
  import opened Common
  import opened Profile
  import opened Calibration

  /** The two regions of interest: the middle chamber (liquid line) and the
      white reference feature. */
  datatype Config = Config(midChamber: Roi, feature: Roi)

  const DefaultConfig: Config := Config(Roi(200, 400, 630, 780), Roi(950, 1070, 800, 1100))

  /** What the analysis reads from one decoded image: the vertical Sobel
      crops of its two regions. */
  datatype Frame = Frame(liquidGrad: Crop, featureGrad: Crop)

  const Header: seq<string> :=
    ["filename", "liquid_y", "feature_top_y", "feature_bottom_y", "feature_height_px", "delta_y", "delta_mm"]

  const HeaderCells: Row := HeaderRow(Header)

  datatype Record = Record(filename: string, liquidY: int,
                           featureTopY: int, featureBottomY: int, featureHeightPx: int,
                           deltaY: int, deltaMm: Field)

  /** The measurements of one readable image. */
  function Measure(cfg: Config, path: string, f: Frame): (r: Record)
    ensures r.filename == Basename(path)
    ensures cfg.midChamber.top <= r.liquidY < cfg.midChamber.top + |f.liquidGrad|
    ensures |f.liquidGrad| == cfg.midChamber.bottom - cfg.midChamber.top ==> r.liquidY < cfg.midChamber.bottom
    ensures cfg.feature.top <= r.featureTopY <= r.featureBottomY < cfg.feature.top + |f.featureGrad|
    ensures r.featureHeightPx == r.featureBottomY - r.featureTopY
    ensures r.deltaY == r.featureTopY - r.liquidY
    ensures r.deltaMm == NA <==> r.featureHeightPx == 0
    ensures r.featureHeightPx != 0 ==>
              r.deltaMm == Real(r.deltaY as real * FeatureHeightMm / r.featureHeightPx as real)
  {
    var liquidY := DetectLine(f.liquidGrad, cfg.midChamber.top);
    var span := FeatureHeight(RowStrength(f.featureGrad), cfg.feature.top);
    var deltaY := span.topY - liquidY;
    Record(Basename(path), liquidY, span.topY, span.bottomY, span.heightPx,
           deltaY, BufferDeltaMm(deltaY, span.heightPx))
  }

  /** The CSV row of one readable image, one cell per header column. */
  function RowOf(cfg: Config, path: string, f: Frame): (row: Option<Row>)
    ensures row.Some? && |row.value| == |Header|
  {
    var r := Measure(cfg, path, f);
    Some([Text(r.filename), Int(r.liquidY), Int(r.featureTopY), Int(r.featureBottomY),
          Int(r.featureHeightPx), Int(r.deltaY), r.deltaMm])
  }

  /** The cells in header order: the detected liquid line, the feature's
      edges as the detector finds them, the feature height, the liquid's
      height below the feature top, and that height in millimetres. */
  lemma RowCells(cfg: Config, path: string, f: Frame)
    ensures var row := RowOf(cfg, path, f).value;
      var span := FeatureHeight(RowStrength(f.featureGrad), cfg.feature.top);
      && row[0] == Text(Basename(path))
      && row[1] == Int(DetectLine(f.liquidGrad, cfg.midChamber.top))
      && row[2] == Int(span.topY) && row[3] == Int(span.bottomY)
      && row[4] == Int(row[3].i - row[2].i)
      && row[5] == Int(row[2].i - row[1].i) && row[6] == BufferDeltaMm(row[5].i, row[4].i)
  {
  }

  /** The body of the per-image loop for a readable image: both detectors,
      the offset and its conversion, assembled in header order. */
  method MeasureImage(cfg: Config, path: string, f: Frame) returns (row: Row)
    ensures Some(row) == RowOf(cfg, path, f)
  {
    var liquidY := DetectLine(f.liquidGrad, cfg.midChamber.top);
    var heightPx, topY, bottomY := DetectFeatureHeight(f.featureGrad, cfg.feature.top);
    var deltaY := topY - liquidY;
    var deltaMm := BufferDeltaMm(deltaY, heightPx);
    row := [Text(Basename(path)), Int(liquidY), Int(topY), Int(bottomY),
            Int(heightPx), Int(deltaY), deltaMm];
  }

  /** `process_pre_buffer_images`: nothing is written for an empty list;
      otherwise the header, then one row per readable image in input order. */
  method ProcessPreBufferImages(cfg: Config, images: seq<Image<Frame>>) returns (csv: Option<seq<Row>>)
    ensures csv.None? <==> images == []
    ensures csv.Some? ==> csv.value == [HeaderCells] + Emitted(cfg, images, RowOf)
  {
    if images == [] {
      return None;
    }
    var results := [HeaderCells];
    var i := 0;
    while i < |images|
      invariant 0 <= i <= |images|
      invariant results == [HeaderCells] + Emitted(cfg, images[..i], RowOf)
    {
      var img := images[i];
      var row: Option<Row> := None;
      if img.data.Some? {
        var r := MeasureImage(cfg, img.path, img.data.value);
        row := Some(r);
      }
      AppendRow(cfg, images, i, RowOf, HeaderCells, results, row);
      results := results + (if row.Some? then [row.value] else []);
      i := i + 1;
    }
    assert images[..i] == images;
    csv := Some(results);
  }

  /** A batch with one readable image and one unreadable one writes the
      header and exactly the readable image's row. */
  lemma SkipsUnreadable(cfg: Config, good: string, bad: string, f: Frame)
    ensures Emitted(cfg, [Image(good, Some(f)), Image(bad, None)], RowOf) == [RowOf(cfg, good, f).value]
  {
    var imgs := [Image(good, Some(f)), Image(bad, None)];
    assert imgs == [Image(good, Some(f))] + [Image(bad, None)];
    EmittedAppend(cfg, [Image(good, Some(f))], [Image(bad, None)], RowOf);
    EmittedSingle(cfg, Image(good, Some(f)), RowOf);
    EmittedSingle(cfg, Image(bad, None), RowOf);
  }
}
