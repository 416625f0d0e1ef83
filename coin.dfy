/** The coin-position analysis: chamber and coin detected in the same box,
    each by largest radius within its own radius band, their centre offset
    in pixels and, through the chamber's known 3 mm radius, in millimetres. */
module Coin {
  import opened Common
  import opened Circles
  import opened Calibration

  /** The box both circles are searched in (LEFT, RIGHT, TOP, BOTTOM). */
  datatype Config = Config(box: Roi)

  const DefaultConfig: Config := Config(Roi(550, 800, 1150, 1450))

  /** The Hough candidates of one decoded image, in box coordinates: one
      list for the chamber's radius band, one for the coin's. */
  datatype Frame = Frame(chamberCands: seq<Circle>, coinCands: seq<Circle>)

  const Header: seq<string> :=
    ["filename", "chamber_center_x", "chamber_center_y", "chamber_radius", "chamber_detected",
     "coin_center_x", "coin_center_y", "coin_radius", "coin_detected",
     "X diff (px)", "Y diff (px)", "mm/px", "X diff (mm)", "Y diff (mm)"]

  const HeaderCells: Row := HeaderRow(Header)

  /** The four detection cells of one circle, in header order: centre x,
      centre y, radius (full-image, or the sentinel) and the detected flag. */
  function DetectionCells(d: Option<Circle>): (cells: seq<Field>)
    ensures |cells| == 4
    ensures cells[3] == Flag(d.Some?)
    ensures d.Some? ==> cells[0] == Int(d.value.x) && cells[1] == Int(d.value.y) && cells[2] == Int(d.value.r)
    ensures d.None? ==> cells[0] == Int(-1) && cells[1] == Int(-1) && cells[2] == Int(-1)
  {
    var c := CircleCells(d);
    [Int(c.x), Int(c.y), Int(c.r), Flag(d.Some?)]
  }

  /** The scale cell. Only a detected chamber calibrates; an undetected one
      gives "NA" instead of 3.0 / -1 (see the findings). */
  function ScaleCell(chamber: Option<Circle>): (f: Field)
    ensures f != NA <==> chamber.Some? && chamber.value.r > 0
    ensures f != NA ==> f.Real? && f.r > 0.0
  {
    if chamber.Some? && chamber.value.r > 0 then Real(CoinMmPerPx(chamber.value.r)) else NA
  }

  /** A present scale is millimetres per pixel of the chamber: times the
      chamber's radius it gives the chamber's known 3 mm. */
  lemma ScaleCalibrates(chamber: Option<Circle>)
    requires ScaleCell(chamber) != NA
    ensures ScaleCell(chamber).r * chamber.value.r as real == ChamberRadiusMm
  {
  }

  /** A pixel offset in millimetres: `x_diff_px * mm_px`. */
  function ToMm(px: int, mmPerPx: real): real {
    px as real * mmPerPx
  }

  /** The five offset cells: x and y offset (coin minus chamber, box
      coordinates), the scale, and the offsets in millimetres. Offsets are
      only computed when both circles were found in THIS image, and
      millimetre offsets also need the scale. */
  function OffsetCells(chamber: Option<Circle>, coin: Option<Circle>): (cells: seq<Field>)
    ensures |cells| == 5
    ensures cells[2] == ScaleCell(chamber)
    ensures cells[0] != NA <==> chamber.Some? && coin.Some?
    ensures chamber.Some? && coin.Some? ==>
              cells[0] == Int(coin.value.x - chamber.value.x) && cells[1] == Int(coin.value.y - chamber.value.y)
    ensures cells[3] != NA <==> chamber.Some? && coin.Some? && cells[2] != NA
    ensures chamber.Some? && coin.Some? && cells[2].Real? ==>
              cells[3] == Real(ToMm(coin.value.x - chamber.value.x, cells[2].r))
              && cells[4] == Real(ToMm(coin.value.y - chamber.value.y, cells[2].r))
  {
    var scale := ScaleCell(chamber);
    if chamber.Some? && coin.Some? then
      var dx := coin.value.x - chamber.value.x;
      var dy := coin.value.y - chamber.value.y;
      if scale.Real? then [Int(dx), Int(dy), scale, Real(ToMm(dx, scale.r)), Real(ToMm(dy, scale.r))]
      else [Int(dx), Int(dy), scale, NA, NA]
    else [NA, NA, scale, NA, NA]
  }

  /** The row of one readable image: file name, chamber cells, coin cells,
      offset cells. */
  function RowOf(cfg: Config, path: string, f: Frame): (row: Option<Row>)
    ensures row.Some? && |row.value| == |Header|
  {
    var chamber := SelectLargest(f.chamberCands, 0, 0);
    var coin := SelectLargest(f.coinCands, 0, 0);
    Some([Text(Basename(path))]
         + DetectionCells(Shift(chamber, cfg.box.left, cfg.box.top))
         + DetectionCells(Shift(coin, cfg.box.left, cfg.box.top))
         + OffsetCells(chamber, coin))
  }

  /** The cells in header order: the file name; the chamber's full-image
      centre, radius and flag; the same for the coin; then the offsets of
      the two circles selected in box coordinates. */
  lemma RowCells(cfg: Config, path: string, f: Frame)
    ensures var row := RowOf(cfg, path, f).value;
      var chamber := SelectLargest(f.chamberCands, cfg.box.left, cfg.box.top);
      var coin := SelectLargest(f.coinCands, cfg.box.left, cfg.box.top);
      && row[0] == Text(Basename(path))
      && row[1..5] == DetectionCells(chamber)
      && row[5..9] == DetectionCells(coin)
      && row[9..] == OffsetCells(SelectLargest(f.chamberCands, 0, 0), SelectLargest(f.coinCands, 0, 0))
  {
    SelectThenShift(f.chamberCands, cfg.box.left, cfg.box.top);
    SelectThenShift(f.coinCands, cfg.box.left, cfg.box.top);
  }

  /** The pixel offsets are measured in box coordinates but equal the
      offsets of the full-image centres written in the same row, since both
      centres carry the same box offset; they are present exactly when both
      circles were detected. */
  lemma OffsetsMatchFullImage(cfg: Config, path: string, f: Frame)
    ensures var row := RowOf(cfg, path, f).value;
      && (row[9] != NA <==> row[4] == Flag(true) && row[8] == Flag(true))
      && (row[9] != NA ==> row[9] == Int(row[5].i - row[1].i) && row[10] == Int(row[6].i - row[2].i))
  {
    OffsetsMatchShifted(Text(Basename(path)), SelectLargest(f.chamberCands, 0, 0), SelectLargest(f.coinCands, 0, 0),
                        cfg.box.left, cfg.box.top);
  }

  /** `OffsetsMatchFullImage` for any two detections and box offset. */
  lemma OffsetsMatchShifted(name: Field, chamber: Option<Circle>, coin: Option<Circle>, left: int, top: int)
    ensures var row := [name] + DetectionCells(Shift(chamber, left, top)) + DetectionCells(Shift(coin, left, top))
                       + OffsetCells(chamber, coin);
      && (row[9] != NA <==> row[4] == Flag(true) && row[8] == Flag(true))
      && (row[9] != NA ==> row[9] == Int(row[5].i - row[1].i) && row[10] == Int(row[6].i - row[2].i))
  {
    CellsAt(name, DetectionCells(Shift(chamber, left, top)), DetectionCells(Shift(coin, left, top)),
            OffsetCells(chamber, coin));
  }

  /** Where each part sits in a row: the name, the two four-cell
      detections, then the five offset cells. */
  lemma CellsAt(name: Field, a: seq<Field>, b: seq<Field>, o: seq<Field>)
    requires |a| == 4 && |b| == 4 && |o| == 5
    ensures var row := [name] + a + b + o;
      && row[1] == a[0] && row[2] == a[1] && row[4] == a[3]
      && row[5] == b[0] && row[6] == b[1] && row[8] == b[3]
      && row[9] == o[0] && row[10] == o[1]
  {
  }

  /** The body of the per-image loop: flags start false and are set, and
      sentinels written, in the detection branches; the offset arithmetic
      is the pure `OffsetCells`. */
  method MeasureImage(cfg: Config, path: string, f: Frame) returns (row: Row)
    ensures Some(row) == RowOf(cfg, path, f)
  {
    var chamber := SelectLargest(f.chamberCands, 0, 0);
    var chamberDetected := false;
    var cxFull, cyFull, crCell;
    if chamber.Some? {
      var c := chamber.value;
      cxFull, cyFull, crCell := c.x + cfg.box.left, c.y + cfg.box.top, c.r;
      chamberDetected := true;
    } else {
      cxFull, cyFull, crCell := -1, -1, -1;
    }
    var coin := SelectLargest(f.coinCands, 0, 0);
    var coinDetected := false;
    var x2Full, y2Full, r2Cell;
    if coin.Some? {
      var c := coin.value;
      x2Full, y2Full, r2Cell := c.x + cfg.box.left, c.y + cfg.box.top, c.r;
      coinDetected := true;
    } else {
      x2Full, y2Full, r2Cell := -1, -1, -1;
    }
    var chamberCells := [Int(cxFull), Int(cyFull), Int(crCell), Flag(chamberDetected)];
    var coinCells := [Int(x2Full), Int(y2Full), Int(r2Cell), Flag(coinDetected)];
    assert chamberCells == DetectionCells(Shift(chamber, cfg.box.left, cfg.box.top));
    assert coinCells == DetectionCells(Shift(coin, cfg.box.left, cfg.box.top));
    row := [Text(Basename(path))] + chamberCells + coinCells + OffsetCells(chamber, coin);
  }

  /** `process_coin_position_images`: nothing is written for an empty list;
      otherwise the header, then one row per readable image in input order. */
  method ProcessCoinImages(cfg: Config, images: seq<Image<Frame>>) returns (csv: Option<seq<Row>>)
    ensures csv.None? <==> images == []
    ensures csv.Some? ==> csv.value == [HeaderCells] + Emitted(cfg, images, RowOf)
  {
    if images == [] {
      return None;
    }
    var results := [HeaderCells];
    var i := 0;
    while i < |images|
      invariant 0 <= i <= |images|
      invariant results == [HeaderCells] + Emitted(cfg, images[..i], RowOf)
    {
      var img := images[i];
      var row: Option<Row> := None;
      if img.data.Some? {
        var r := MeasureImage(cfg, img.path, img.data.value);
        row := Some(r);
      }
      AppendRow(cfg, images, i, RowOf, HeaderCells, results, row);
      results := results + (if row.Some? then [row.value] else []);
      i := i + 1;
    }
    assert images[..i] == images;
    csv := Some(results);
  }
}

/** The coin analysis's per-image loop exactly as written, where the
    box-local centres `cx, cy` and `x2, y2` are assigned only when a circle
    is found but read for every image. In Python they are function locals
    that keep their values across loop iterations, and reading one never
    assigned raises and ends the whole batch. */
module CoinAsWritten {
  import opened Common
  import opened Circles
  import opened Calibration
  import Coin

  /** The locals that survive from one iteration to the next: the last
      box-local chamber centre and coin centre, if any was ever assigned. */
  datatype Locals = Locals(chamber: Option<(int, int)>, coin: Option<(int, int)>)

  /** What the loop leaves behind: the rows written (after the header), and
      whether an exception stopped it. */
  datatype Outcome = Outcome(rows: seq<Row>, aborted: bool, locals: Locals)

  /** One iteration on a readable image, as written. A missing centre
      raises. A zero detected radius (never produced within the chamber's
      80-92 band) would give numpy's infinite scale, which the real-valued
      cells cannot hold; the step stops there instead, so rows are claimed
      only where the scale is a real number. */
  function Step(cfg: Coin.Config, path: string, f: Coin.Frame, locals: Locals): (o: Outcome)
    ensures !o.aborted ==> |o.rows| == 1 && |o.rows[0]| == 14
  {
    var chamber := SelectLargest(f.chamberCands, 0, 0);
    var coin := SelectLargest(f.coinCands, 0, 0);
    var l := Locals(if chamber.Some? then Some((chamber.value.x, chamber.value.y)) else locals.chamber,
                    if coin.Some? then Some((coin.value.x, coin.value.y)) else locals.coin);
    var cr := if chamber.Some? then chamber.value.r else -1;
    if l.coin.None? || l.chamber.None? || cr == 0 then Outcome([], true, l)
    else
      var xDiff := l.coin.value.0 - l.chamber.value.0;
      var yDiff := l.coin.value.1 - l.chamber.value.1;
      var mmPx := CoinMmPerPx(cr);
      Outcome([[Text(Basename(path))]
               + Coin.DetectionCells(Shift(chamber, cfg.box.left, cfg.box.top))
               + Coin.DetectionCells(Shift(coin, cfg.box.left, cfg.box.top))
               + [Int(xDiff), Int(yDiff), Real(mmPx),
                  Real(Coin.ToMm(xDiff, mmPx)), Real(Coin.ToMm(yDiff, mmPx))]], false, l)
  }

  /** The loop over the batch, as written: unreadable images are skipped,
      and the first exception stops everything after it. */
  function Run(cfg: Coin.Config, images: seq<Image<Coin.Frame>>, locals: Locals): (o: Outcome)
    ensures |o.rows| <= |images|
    ensures forall k :: 0 <= k < |o.rows| ==> |o.rows[k]| == 14
  {
    if images == [] then Outcome([], false, locals)
    else if images[0].data.None? then Run(cfg, images[1..], locals)
    else
      var s := Step(cfg, images[0].path, images[0].data.value, locals);
      if s.aborted then s
      else
        var rest := Run(cfg, images[1..], s.locals);
        Outcome(s.rows + rest.rows, rest.aborted, rest.locals)
  }

  /** Counterexample: when the first readable image has no chamber (or no
      coin), the batch stops on it, so neither it nor any later image gets
      a row, where the intended behaviour writes a row for each with the
      offsets unavailable. */
  lemma FirstMissAbortsBatch(cfg: Coin.Config, path: string, coins: seq<Circle>,
                             rest: seq<Image<Coin.Frame>>)
    ensures var o := Run(cfg, [Image(path, Some(Coin.Frame([], coins)))] + rest, Locals(None, None));
      o.aborted && o.rows == []
    ensures |Emitted(cfg, [Image(path, Some(Coin.Frame([], coins)))] + rest, Coin.RowOf)| == 1 + |Emitted(cfg, rest, Coin.RowOf)|
  {
    var first := Image(path, Some(Coin.Frame([], coins)));
    assert ([first] + rest)[1..] == rest;
    EmittedAppend(cfg, [first], rest, Coin.RowOf);
    EmittedSingle(cfg, first, Coin.RowOf);
  }

  /** Counterexample: after an image with both circles, an image with
      neither is written with the previous image's offsets, multiplied by
      the scale 3.0 / -1 = -3.0 of the missing chamber, where the intended
      row has no offsets at all. */
  lemma StaleOffsetsReused(cfg: Coin.Config, p1: string, p2: string)
    ensures var first := Coin.Frame([Circle(100, 100, 85)], [Circle(130, 90, 60)]);
      var o := Run(cfg, [Image(p1, Some(first)), Image(p2, Some(Coin.Frame([], [])))], Locals(None, None));
      && !o.aborted && |o.rows| == 2
      && o.rows[1][9] == Int(30) && o.rows[1][11] == Real(-3.0) && o.rows[1][12] == Real(-90.0)
      && Coin.RowOf(cfg, p2, Coin.Frame([], [])).value[9] == NA
      && Coin.RowOf(cfg, p2, Coin.Frame([], [])).value[11] == NA
  {
    var first := Coin.Frame([Circle(100, 100, 85)], [Circle(130, 90, 60)]);
    var imgs := [Image(p1, Some(first)), Image(p2, Some(Coin.Frame([], [])))];
    BothFound(cfg, p1);
    NeitherFound(cfg, p2);
    NeitherFoundIntended(cfg, p2);
    var s1 := Step(cfg, p1, first, Locals(None, None));
    var s2 := Step(cfg, p2, Coin.Frame([], []), s1.locals);
    assert imgs[1..] == [Image(p2, Some(Coin.Frame([], [])))];
    assert imgs[1..][1..] == [];
    assert Run(cfg, imgs[1..], s1.locals).rows == s2.rows + [];
    assert s2.rows + [] == s2.rows;
  }

  /** The first image of `StaleOffsetsReused`: both circles are found, and
      their box-local centres are kept. */
  lemma BothFound(cfg: Coin.Config, p1: string)
    ensures var s1 := Step(cfg, p1, Coin.Frame([Circle(100, 100, 85)], [Circle(130, 90, 60)]), Locals(None, None));
      !s1.aborted && |s1.rows| == 1 && s1.locals == Locals(Some((100, 100)), Some((130, 90)))
  {
    assert LargestIndex([Circle(100, 100, 85)]) == 0;
    assert LargestIndex([Circle(130, 90, 60)]) == 0;
  }

  /** The second image of `StaleOffsetsReused`: nothing is found, and the
      kept centres give the offsets, scaled by 3.0 / -1. */
  lemma NeitherFound(cfg: Coin.Config, p2: string)
    ensures var s2 := Step(cfg, p2, Coin.Frame([], []), Locals(Some((100, 100)), Some((130, 90))));
      && !s2.aborted && |s2.rows| == 1
      && s2.rows[0][9] == Int(30) && s2.rows[0][11] == Real(-3.0) && s2.rows[0][12] == Real(-90.0)
  {
    var none := Coin.DetectionCells(None);
    var tail := [Int(30), Int(-10), Real(-3.0), Real(Coin.ToMm(30, -3.0)), Real(Coin.ToMm(-10, -3.0))];
    assert CoinMmPerPx(-1) == -3.0;
    assert Step(cfg, p2, Coin.Frame([], []), Locals(Some((100, 100)), Some((130, 90)))).rows
      == [[Text(Basename(p2))] + none + none + tail];
    OffsetCellsAt(Basename(p2), none, none, tail);
  }

  /** Where the offset cells sit in a row: after the name and the two
      four-cell detections. */
  lemma OffsetCellsAt(name: string, chamber: seq<Field>, coin: seq<Field>, tail: seq<Field>)
    requires |chamber| == 4 && |coin| == 4 && |tail| == 5
    ensures var row := [Text(name)] + chamber + coin + tail;
      |row| == 14 && row[9] == tail[0] && row[10] == tail[1] && row[11] == tail[2] && row[12] == tail[3]
  {
  }

  /** The intended row for the second image of `StaleOffsetsReused` has
      no offsets and no scale. */
  lemma NeitherFoundIntended(cfg: Coin.Config, p2: string)
    ensures Coin.RowOf(cfg, p2, Coin.Frame([], [])).value[9] == NA
    ensures Coin.RowOf(cfg, p2, Coin.Frame([], [])).value[11] == NA
  {
    assert |Coin.DetectionCells(None)| == 4;
  }
}
