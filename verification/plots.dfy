/** The arithmetic inside the plotting helpers: the height-corrected
    gradient curve and its uncertainty band (`vg_plot`), the pairing of a
    gradient fit's residuals with its ties, the map extent and tile zoom
    (`get_map`), the in-place residual update (`get_residuals_plot`) and
    the meter numbering (`residuals_plot`). */
module Plots {
  import opened Tables
  import opened Ties
  import opened Design
  import opened Gradient

  // ---------------------------------------------------------------------
  // `vg_plot`: the curve and its band.

  /** The reference height of the plots, in metres. */
  const HRef: real := 1.0

  /** `np.poly1d([b, a, 0])`: the gradient polynomial, no constant term. */
  function Poly(a: real, b: real, y: real): real {
    b * y * y + a * y
  }

  /** `gp(y) = p(y) - y * p(h_ref)`: the polynomial minus the mean
      gradient between 0 and `h_ref`. With `h_ref` = 1 the linear
      coefficient cancels: the curve is `b y (y - 1)`, zero at the ground
      and at the reference height. */
  function HeightCorrection(a: real, b: real, y: real): (g: real)
    ensures g == b * y * (y - HRef)
    ensures y == 0.0 || y == HRef ==> g == 0.0
  {
    Poly(a, b, y) - y * Poly(a, b, HRef)
  }

  /** The squared half-width of the band, as `vg_plot` computes it
      (before the square root): `(h_ref - y)^2 (ub^2 + (y + h_ref)^2 ua^2
      + 2 (h_ref + y) cov)`. It vanishes at the reference height. */
  function UncertaintySqAsWritten(ua: real, ub: real, cov: real, y: real): (u2: real)
    ensures y == HRef ==> u2 == 0.0
  {
    (HRef - y) * (HRef - y) * (ub * ub + (y + HRef) * (y + HRef) * ua * ua + 2.0 * (HRef + y) * cov)
  }

  /** The variance of `p(y) - p(h_ref)` when `a` and `b` have standard
      errors `ua`, `ub` and covariance `cov`: the quadratic form of the
      coefficient covariance with the sensitivities `y - h_ref` (of `a`)
      and `y^2 - h_ref^2` (of `b`). */
  function DifferenceVariance(ua: real, ub: real, cov: real, y: real): real {
    var da := y - HRef;
    var db := y * y - HRef * HRef;
    da * da * ua * ua + db * db * ub * ub + 2.0 * da * db * cov
  }

  /** The band with the errors in their places: `(h_ref - y)^2 (ua^2 +
      (y + h_ref)^2 ub^2 + 2 (y + h_ref) cov)`, which is the variance of
      the gravity difference the curve shows. */
  function UncertaintySq(ua: real, ub: real, cov: real, y: real): (u2: real)
    ensures u2 == DifferenceVariance(ua, ub, cov, y)
    ensures y == HRef ==> u2 == 0.0
  {
    var d := y - HRef;
    var s := y + HRef;
    assert (y * y - HRef * HRef) == d * s;
    assert (d * s) * (d * s) == (d * d) * (s * s);
    d * d * (ua * ua + s * s * ub * ub + 2.0 * s * cov)
  }

  /** The band as written is the corrected band with `ua` and `ub`
      exchanged: it treats `a` as the quadratic coefficient. */
  lemma UncertaintySqSwapped(ua: real, ub: real, cov: real, y: real)
    ensures UncertaintySqAsWritten(ua, ub, cov, y) == UncertaintySq(ub, ua, cov, y)
  {
  }

  /** At half the reference height, with only the linear coefficient
      uncertain, the band as written is more than twice the variance. */
  lemma UncertaintySqCounterexample()
    ensures UncertaintySqAsWritten(1.0, 0.0, 0.0, 0.5) == 0.5625
    ensures DifferenceVariance(1.0, 0.0, 0.0, 0.5) == 0.25
    ensures UncertaintySq(1.0, 0.0, 0.0, 0.5) == 0.25
  {
  }

  // ---------------------------------------------------------------------
  // `vg_plot`: the residual pairs.

  /** `resid.reshape((len / 2, 2))`: consecutive pairs; an odd length
      cannot be reshaped. */
  function ResidPairs(resid: seq<real>): (r: Option<seq<(real, real)>>)
    ensures r.Some? <==> |resid| % 2 == 0
    ensures r.Some? ==> (|r.value| == |resid| / 2 &&
      forall i :: 0 <= i < |r.value| ==> r.value[i] == (resid[2 * i], resid[2 * i + 1]))
  {
    if |resid| % 2 != 0 then None
    else Some(seq(|resid| / 2, i requires 0 <= i < |resid| / 2 => (resid[2 * i], resid[2 * i + 1])))
  }

  function PairFirst(p: (real, real)): real { p.0 }
  function PairSecond(p: (real, real)): real { p.1 }

  /** Reshaping undoes the design's interleaving: flattening the pairs
      again gives back the residual column, so pair `k` holds the
      residuals of design rows `2k` and `2k + 1`. */
  lemma ResidPairsFlatten(resid: seq<real>)
    ensures ResidPairs(resid).Some? ==>
      Interleave(Keys(ResidPairs(resid).value, PairFirst), Keys(ResidPairs(resid).value, PairSecond)) == resid
  {
    if |resid| % 2 == 0 {
      var pairs := ResidPairs(resid).value;
      var flat := Interleave(Keys(pairs, PairFirst), Keys(pairs, PairSecond));
      assert |flat| == |resid|;
      forall j | 0 <= j < |resid|
        ensures flat[j] == resid[j]
      {
        var k := j / 2;
        if j % 2 == 0 {
          assert j == 2 * k && flat[2 * k] == pairs[k].0;
        } else {
          assert j == 2 * k + 1 && flat[2 * k + 1] == pairs[k].1;
        }
      }
    }
  }

  datatype Point = Point(x: real, y: real)

  /** One drawn pair: the reference and tied heights of a tie, each
      placed at the corrected curve plus its residual. */
  datatype Segment = Segment(from: Point, to: Point)

  /** `zip(df.from_height, df.to_height, resid)`: as many segments as the
      shorter of ties and residual pairs. */
  function Segments(a: real, b: real, df: seq<Tie>, pairs: seq<(real, real)>): (segs: seq<Segment>)
    ensures |segs| == Min(|df|, |pairs|)
    ensures forall i :: 0 <= i < |segs| ==>
      && segs[i].from.y == df[i].fromHeight / 1000.0 && segs[i].to.y == df[i].toHeight / 1000.0
      && segs[i].from.x == HeightCorrection(a, b, segs[i].from.y) + pairs[i].0
      && segs[i].to.x == HeightCorrection(a, b, segs[i].to.y) + pairs[i].1
  {
    var n := Min(|df|, |pairs|);
    seq(n, i requires 0 <= i < n =>
      var hf, ht := df[i].fromHeight / 1000.0, df[i].toHeight / 1000.0;
      Segment(Point(HeightCorrection(a, b, hf) + pairs[i].0, hf),
              Point(HeightCorrection(a, b, ht) + pairs[i].1, ht)))
  }

  /** What `vg_plot` draws for one row of the gradient table. */
  datatype VgPlot = VgPlot(survey: string, subtract: real, segments: seq<Segment>)

  /** One figure of `vg_plot`. It needs the `a` and `b` columns (a fit of
      degree at least 2), the `meter` column in the per-meter variant and
      an even number of residuals; otherwise pandas or numpy raises. */
  function VgPlotOf(row: VgRow, ties: seq<Tie>, byMeter: bool): (r: Option<VgPlot>)
    ensures r.Some? <==> |row.coefs| >= 2 && |row.resid| % 2 == 0 && (byMeter ==> row.meter.Some?)
  {
    if |row.coefs| < 2 || (byMeter && row.meter.None?) then None
    else
      var df := if byMeter then Select(ties, MeterSurveyOfTie, (row.meter.value, row.survey))
                else Select(ties, SurveyOfTie, row.survey);
      var a, b := row.coefs[0], row.coefs[1];
      match ResidPairs(row.resid)
      case None => None
      case Some(pairs) => Some(VgPlot(row.survey, Poly(a, b, HRef), Segments(a, b, df, pairs)))
  }

  /** The plot of `row` exists and draws exactly the ties `members`, in
      order: segment `k` stands at tie `k`'s two heights, offset from the
      curve by the residuals of design rows 2k and 2k + 1. */
  ghost predicate PlotShowsTies(row: VgRow, ties: seq<Tie>, byMeter: bool, members: seq<Tie>) {
    var plot := VgPlotOf(row, ties, byMeter);
    && plot.Some?
    && |plot.value.segments| == |members|
    && |row.coefs| >= 2 && |row.resid| == 2 * |members|
    && forall k :: 0 <= k < |members| ==>
         var seg := plot.value.segments[k];
         && seg.from.y == members[k].fromHeight / 1000.0 && seg.to.y == members[k].toHeight / 1000.0
         && seg.from.x == HeightCorrection(row.coefs[0], row.coefs[1], seg.from.y) + row.resid[2 * k]
         && seg.to.x == HeightCorrection(row.coefs[0], row.coefs[1], seg.to.y) + row.resid[2 * k + 1]
  }

  /** A plot draws one segment per selected tie when there are two
      residuals per tie. */
  lemma PlotSegmentsAt(row: VgRow, ties: seq<Tie>, byMeter: bool, df: seq<Tie>)
    requires |row.coefs| >= 2 && (byMeter ==> row.meter.Some?)
    requires df == (if byMeter then Select(ties, MeterSurveyOfTie, (row.meter.value, row.survey))
                    else Select(ties, SurveyOfTie, row.survey))
    requires |row.resid| == 2 * |df|
    ensures PlotShowsTies(row, ties, byMeter, df)
  {
    var pairs := ResidPairs(row.resid).value;
    assert VgPlotOf(row, ties, byMeter).value.segments == Segments(row.coefs[0], row.coefs[1], df, pairs);
  }

  /** For every row of the `get_vg` table (degree at least 2) the plot
      exists and the ties it selects are exactly the ties that row was
      fitted on, in the same order: the `zip` drops none of them and pairs
      each with its own residuals. */
  lemma VgPlotPairing(ties: seq<Tie>, vg: nat, solver: Solver, i: nat)
    requires vg >= 2
    requires VgTable(ties, vg, solver).Some? && i < |TieSurveyGroups(ties)|
    ensures |VgTable(ties, vg, solver).value| == |TieSurveyGroups(ties)|
    ensures var row := VgTable(ties, vg, solver).value[i];
      PlotShowsTies(row, ties, false, TieSurveyGroups(ties)[i].members)
  {
    VgTableRows(ties, vg, solver);
    var row := VgTable(ties, vg, solver).value[i];
    var groups := TieSurveyGroups(ties);
    StrLessIsStrictTotalOrder();
    assert groups[i].members == Select(ties, SurveyOfTie, groups[i].key);
    PlotSegmentsAt(row, ties, false, groups[i].members);
  }

  /** The same for the `get_vg_by_meter` table, whose plots select ties
      by meter and survey. */
  lemma VgPlotPairingByMeter(ties: seq<Tie>, vg: nat, solver: Solver, i: nat)
    requires vg >= 2
    requires VgTableByMeter(ties, vg, solver).Some? && i < |TieMeterGroups(ties)|
    ensures |VgTableByMeter(ties, vg, solver).value| == |TieMeterGroups(ties)|
    ensures var row := VgTableByMeter(ties, vg, solver).value[i];
      PlotShowsTies(row, ties, true, TieMeterGroups(ties)[i].members)
  {
    VgTableByMeterRows(ties, vg, solver);
    var row := VgTableByMeter(ties, vg, solver).value[i];
    var groups := TieMeterGroups(ties);
    PairLessIsStrictTotalOrder();
    assert groups[i].members == Select(ties, MeterSurveyOfTie, groups[i].key);
    assert (row.meter.value, row.survey) == groups[i].key;
    PlotSegmentsAt(row, ties, true, groups[i].members);
  }

  // ---------------------------------------------------------------------
  // `get_map`: extent and zoom.

  datatype Extent = Extent(xmin: real, xmax: real, ymin: real, ymax: real)

  /** The map window around the stations' bounding box: the longer side
      (height counts double) is padded by 10% on each side and the other
      side is set to give a 16:9 window around its own centre. */
  function MapExtent(xmin: real, xmax: real, ymin: real, ymax: real): Extent {
    var dx, dy := xmax - xmin, ymax - ymin;
    if dx < 2.0 * dy then
      var ymin', ymax' := ymin - dy * 0.1, ymax + dy * 0.1;
      var dx' := (ymax' - ymin') * 16.0 / 9.0;
      var cx := xmin + (xmax - xmin) / 2.0;
      Extent(cx - dx' / 2.0, cx + dx' / 2.0, ymin', ymax')
    else
      var xmin', xmax' := xmin - dx * 0.1, xmax + dx * 0.1;
      var dy' := (xmax' - xmin') * 9.0 / 16.0;
      var cy := ymin + (ymax - ymin) / 2.0;
      Extent(xmin', xmax', cy - dy' / 2.0, cy + dy' / 2.0)
  }

  /** A tall box (dx < 2 dy): latitudes padded by a tenth of dy on each
      side, the width is 16/9 of the new height, the longitude centre is
      kept. */
  lemma MapExtentTall(xmin: real, xmax: real, ymin: real, ymax: real)
    requires xmax - xmin < 2.0 * (ymax - ymin)
    ensures var e := MapExtent(xmin, xmax, ymin, ymax);
      && e.ymin == ymin - (ymax - ymin) * 0.1 && e.ymax == ymax + (ymax - ymin) * 0.1
      && (e.xmax - e.xmin) * 9.0 == (e.ymax - e.ymin) * 16.0
      && e.xmin + e.xmax == xmin + xmax
  {
  }

  /** A wide box: longitudes padded by a tenth of dx on each side, the
      height is 9/16 of the new width, the latitude centre is kept. */
  lemma MapExtentWide(xmin: real, xmax: real, ymin: real, ymax: real)
    requires !(xmax - xmin < 2.0 * (ymax - ymin))
    ensures var e := MapExtent(xmin, xmax, ymin, ymax);
      && e.xmin == xmin - (xmax - xmin) * 0.1 && e.xmax == xmax + (xmax - xmin) * 0.1
      && (e.xmax - e.xmin) * 9.0 == (e.ymax - e.ymin) * 16.0
      && e.ymin + e.ymax == ymin + ymax
  {
  }

  /** Either way the window contains every station. */
  lemma MapExtentContains(xmin: real, xmax: real, ymin: real, ymax: real)
    requires xmin <= xmax && ymin <= ymax
    ensures var e := MapExtent(xmin, xmax, ymin, ymax);
      e.xmin <= xmin && xmax <= e.xmax && e.ymin <= ymin && ymax <= e.ymax
  {
    var dx, dy := xmax - xmin, ymax - ymin;
    if dx < 2.0 * dy {
      assert 1.2 * dy * 16.0 / 9.0 >= dx;
    } else {
      assert 1.2 * dx * 9.0 / 16.0 >= dy;
    }
  }

  /** The tile zoom as written: each band is an open interval, so a width
      of exactly 0.2, 0.3 or 0.7 degrees falls through to the coarsest
      zoom. */
  function ZoomAsWritten(dx: real): int {
    if dx < 0.2 then 13
    else if dx < 0.3 && dx > 0.2 then 12
    else if dx < 0.7 && dx > 0.3 then 11
    else if dx < 1.0 && dx > 0.7 then 10
    else 8
  }

  /** The boundary widths get zoom 8 although their neighbours on both
      sides get 11 or more: a wider window can get a finer zoom. */
  lemma ZoomAsWrittenGaps()
    ensures ZoomAsWritten(0.2) == 8 && ZoomAsWritten(0.3) == 8 && ZoomAsWritten(0.7) == 8
    ensures ZoomAsWritten(0.3) < ZoomAsWritten(0.35)
  {
  }

  /** The zoom bands without gaps: 13 below 0.2 degrees, then 12, 11 and
      10 up to 0.3, 0.7 and 1, and 8 from 1 on. */
  function Zoom(dx: real): (z: int)
    ensures 8 <= z <= 13
    ensures dx != 0.2 && dx != 0.3 && dx != 0.7 ==> z == ZoomAsWritten(dx)
  {
    if dx < 0.2 then 13
    else if dx < 0.3 then 12
    else if dx < 0.7 then 11
    else if dx < 1.0 then 10
    else 8
  }

  /** A wider window never gets a finer zoom. */
  lemma ZoomMonotone(dx1: real, dx2: real)
    requires dx1 <= dx2
    ensures Zoom(dx1) >= Zoom(dx2)
  {
  }

  /** The zoom `get_map` hands to the tile request: the chain as written,
      applied to the final width of the window. */
  function MapZoom(xmin: real, xmax: real, ymin: real, ymax: real): (z: int)
    ensures z in {8, 10, 11, 12, 13}
  {
    var e := MapExtent(xmin, xmax, ymin, ymax);
    ZoomAsWritten(e.xmax - e.xmin)
  }

  /** In exact arithmetic the gaps reach the map: a station box 0.25
      degrees wide gets a window exactly 0.3 wide and the coarsest zoom,
      while a wider box of 0.3 degrees gets zoom 11. (With double
      rounding the padded window of the first box is slightly above 0.3,
      so this particular box escapes the gap.) */
  lemma MapZoomGap()
    ensures MapZoom(0.0, 0.25, 0.0, 0.0) == 8
    ensures MapZoom(0.0, 0.3, 0.0, 0.0) == 11
  {
    MapExtentWide(0.0, 0.25, 0.0, 0.0);
    MapExtentWide(0.0, 0.3, 0.0, 0.0);
  }

  /** The map zoom with the gap-free bands; it differs from `MapZoom`
      only on the three boundary widths. */
  function MapZoomCorrected(xmin: real, xmax: real, ymin: real, ymax: real): (z: int)
    ensures 8 <= z <= 13
    ensures var e := MapExtent(xmin, xmax, ymin, ymax);
      var w := e.xmax - e.xmin;
      w != 0.2 && w != 0.3 && w != 0.7 ==> z == MapZoom(xmin, xmax, ymin, ymax)
  {
    var e := MapExtent(xmin, xmax, ymin, ymax);
    Zoom(e.xmax - e.xmin)
  }

  /** With the bands corrected, of two wide station boxes the wider never
      gets the finer map. */
  lemma MapZoomCorrectedMonotone(xmin: real, xmax: real, ymin: real, ymax: real,
                                 xmin': real, xmax': real, ymin': real, ymax': real)
    requires !(xmax - xmin < 2.0 * (ymax - ymin)) && !(xmax' - xmin' < 2.0 * (ymax' - ymin'))
    requires xmax - xmin <= xmax' - xmin'
    ensures MapZoomCorrected(xmin, xmax, ymin, ymax) >= MapZoomCorrected(xmin', xmax', ymin', ymax')
  {
    MapExtentWide(xmin, xmax, ymin, ymax);
    MapExtentWide(xmin', xmax', ymin', ymax');
    var e, e' := MapExtent(xmin, xmax, ymin, ymax), MapExtent(xmin', xmax', ymin', ymax');
    assert e.xmax - e.xmin == 1.2 * (xmax - xmin);
    assert e'.xmax - e'.xmin == 1.2 * (xmax' - xmin');
    ZoomMonotone(e.xmax - e.xmin, e'.xmax - e'.xmin);
  }

  // ---------------------------------------------------------------------
  // `get_residuals_plot`: the in-place residual update.

  /** A raw reading: meter, line, station and corrected gravity. */
  datatype RawRow = RawRow(meter: int, line: int, station: string, corrGrav: real)

  /** A tie of the adjusted tie table: meter, line, tied station and tie value. */
  datatype StationTie = StationTie(meter: int, line: int, stationTo: string, tie: real)

  function TieMeter(t: StationTie): int { t.meter }

  /** `readings[(meter, line)].iloc[0].corr_grav`: the first reading of the
      meter's line, absent when the line has none. */
  function FirstReading(readings: seq<RawRow>, meter: int, line: int): (r: Option<real>)
    ensures r.None? <==> forall k :: 0 <= k < |readings| ==> !(readings[k].meter == meter && readings[k].line == line)
    ensures r.Some? ==> exists k :: (0 <= k < |readings| &&
      readings[k].meter == meter && readings[k].line == line && readings[k].corrGrav == r.value &&
      forall k' :: 0 <= k' < k ==> !(readings[k'].meter == meter && readings[k'].line == line))
  {
    if readings == [] then None
    else if readings[0].meter == meter && readings[0].line == line then Some(readings[0].corrGrav)
    else
      var r := FirstReading(readings[1..], meter, line);
      assert forall k :: 1 <= k < |readings| ==> readings[1..][k - 1] == readings[k];
      if r.Some? then
        var k :| 0 <= k < |readings| - 1 && readings[1..][k].meter == meter && readings[1..][k].line == line
          && readings[1..][k].corrGrav == r.value
          && forall k' :: 0 <= k' < k ==> !(readings[1..][k'].meter == meter && readings[1..][k'].line == line);
        assert readings[k + 1] == readings[1..][k];
        r
      else r
  }

  /** The residual a tie gives a reading of its line: the reading less the
      line's first reading, less the tie as well on the tied station. */
  function Residual(row: RawRow, t: StationTie, first: real): real {
    row.corrGrav - first - (if row.station == t.stationTo then t.tie else 0.0)
  }

  predicate OnLine(row: RawRow, t: StationTie) {
    row.meter == t.meter && row.line == t.line
  }

  /** One tie's pass: every reading of its meter and line is overwritten. */
  function ApplyTie(res: seq<real>, raw: seq<RawRow>, t: StationTie, first: real): (r: seq<real>)
    requires |res| == |raw|
    ensures |r| == |res|
  {
    seq(|res|, j requires 0 <= j < |res| => if OnLine(raw[j], t) then Residual(raw[j], t, first) else res[j])
  }

  /** Whether the loop ran to the end, and the residual column it left. */
  datatype Outcome = Outcome(ok: bool, res: seq<real>)

  /** The ties in processing order, each applied in turn; a tie whose line
      has no reading raises and leaves the column as it stands. */
  function ApplyTies(res: seq<real>, raw: seq<RawRow>, readings: seq<RawRow>, order: seq<StationTie>): (o: Outcome)
    requires |res| == |raw|
    ensures |o.res| == |raw|
  {
    if order == [] then Outcome(true, res)
    else
      var prev := ApplyTies(res, raw, readings, order[..|order| - 1]);
      var t := order[|order| - 1];
      if !prev.ok then prev
      else match FirstReading(readings, t.meter, t.line)
        case None => Outcome(false, prev.res)
        case Some(first) => Outcome(true, ApplyTie(prev.res, raw, t, first))
  }

  /** `ties.instrument_serial_number.unique()` then `ties[ties.meter == m]`:
      ties grouped by meter, meters in order of first appearance, each
      meter's ties in their original order. */
  function MeterBlocks(meters: seq<int>, ties: seq<StationTie>): seq<StationTie> {
    if meters == [] then []
    else MeterBlocks(meters[..|meters| - 1], ties) + Select(ties, TieMeter, meters[|meters| - 1])
  }

  function ProcessingOrder(ties: seq<StationTie>): seq<StationTie> {
    MeterBlocks(Unique(Keys(ties, TieMeter)), ties)
  }

  /** The loop runs to the end exactly when every tie's line has a reading. */
  lemma {:induction false} ApplyTiesOk(res: seq<real>, raw: seq<RawRow>, readings: seq<RawRow>, order: seq<StationTie>)
    requires |res| == |raw|
    ensures ApplyTies(res, raw, readings, order).ok <==>
      forall k :: 0 <= k < |order| ==> FirstReading(readings, order[k].meter, order[k].line).Some?
  {
    if order != [] {
      var init := order[..|order| - 1];
      ApplyTiesOk(res, raw, readings, init);
      assert forall k :: 0 <= k < |init| ==> init[k] == order[k];
    }
  }

  /** A reading whose meter and line no tie touches keeps its value,
      whether or not the loop completes. */
  lemma {:induction false} ApplyTiesUntouched(res: seq<real>, raw: seq<RawRow>, readings: seq<RawRow>,
                                              order: seq<StationTie>, j: nat)
    requires |res| == |raw| && j < |raw|
    requires forall k :: 0 <= k < |order| ==> !OnLine(raw[j], order[k])
    ensures ApplyTies(res, raw, readings, order).res[j] == res[j]
  {
    if order != [] {
      var init := order[..|order| - 1];
      assert forall k :: 0 <= k < |init| ==> init[k] == order[k];
      ApplyTiesUntouched(res, raw, readings, init, j);
    }
  }

  /** When the loop completes, a reading touched by some tie holds the
      residual of the LAST tie of its meter and line in processing order:
      later ties overwrite earlier ones, tie value included. */
  lemma {:induction false} ApplyTiesLastWriter(res: seq<real>, raw: seq<RawRow>, readings: seq<RawRow>,
                                               order: seq<StationTie>, j: nat, k: nat)
    requires |res| == |raw| && j < |raw| && k < |order|
    requires OnLine(raw[j], order[k])
    requires forall k' :: k < k' < |order| ==> !OnLine(raw[j], order[k'])
    requires ApplyTies(res, raw, readings, order).ok
    ensures FirstReading(readings, order[k].meter, order[k].line).Some?
    ensures ApplyTies(res, raw, readings, order).res[j]
      == Residual(raw[j], order[k], FirstReading(readings, order[k].meter, order[k].line).value)
  {
    var n := |order|;
    var init := order[..n - 1];
    assert forall i :: 0 <= i < |init| ==> init[i] == order[i];
    if k < n - 1 {
      ApplyTiesLastWriter(res, raw, readings, init, j, k);
    }
  }

  /** Every tie is processed, and none that is not in the table. */
  lemma ProcessingOrderMembers(ties: seq<StationTie>)
    ensures forall t :: t in ProcessingOrder(ties) <==> t in ties
  {
    var meters := Unique(Keys(ties, TieMeter));
    MeterBlocksMembers(meters, ties);
    forall t | t in ties ensures t in ProcessingOrder(ties) {
      var k :| 0 <= k < |ties| && ties[k] == t;
      assert Keys(ties, TieMeter)[k] == t.meter;
      SelectComplete(ties, TieMeter, t);
    }
  }

  lemma {:induction false} MeterBlocksMembers(meters: seq<int>, ties: seq<StationTie>)
    ensures forall t :: t in MeterBlocks(meters, ties) <==> t in ties && t.meter in meters
  {
    if meters != [] {
      var init := meters[..|meters| - 1];
      var m := meters[|meters| - 1];
      MeterBlocksMembers(init, ties);
      forall t | t in ties && t.meter == m ensures t in Select(ties, TieMeter, m) {
        SelectComplete(ties, TieMeter, t);
      }
      assert forall x :: x in meters <==> x in init || x == m;
    }
  }

  /** Over distinct meters, the ties of meter `k` in the blocks are that
      meter's ties in table order, or none when `k` is not listed. */
  lemma {:induction false} MeterBlocksSelect(meters: seq<int>, ties: seq<StationTie>, k: int)
    requires NoDuplicates(meters)
    ensures Select(MeterBlocks(meters, ties), TieMeter, k) == if k in meters then Select(ties, TieMeter, k) else []
  {
    if meters != [] {
      var init, m := meters[..|meters| - 1], meters[|meters| - 1];
      MeterBlocksSelect(init, ties, k);
      SelectConcat(MeterBlocks(init, ties), Select(ties, TieMeter, m), TieMeter, k);
      SelectOfSelect(ties, TieMeter, m, k);
      assert k in meters <==> k in init || k == m;
      assert m !in init;
    }
  }

  /** The loop visits each meter's ties in their table order: restricted
      to one meter, the processing order is the tie table. */
  lemma ProcessingOrderPerMeter(ties: seq<StationTie>, k: int)
    ensures Select(ProcessingOrder(ties), TieMeter, k) == Select(ties, TieMeter, k)
  {
    var meters := Unique(Keys(ties, TieMeter));
    MeterBlocksSelect(meters, ties, k);
    if k !in meters {
      SelectAbsent(ties, TieMeter, k);
    }
  }

  /** Once the loop has stopped, later ties change nothing. */
  lemma {:induction false} FailurePersists(res: seq<real>, raw: seq<RawRow>, readings: seq<RawRow>,
                                           prefix: seq<StationTie>, rest: seq<StationTie>)
    requires |res| == |raw|
    requires !ApplyTies(res, raw, readings, prefix).ok
    ensures ApplyTies(res, raw, readings, prefix + rest) == ApplyTies(res, raw, readings, prefix)
  {
    if rest == [] {
      assert prefix + rest == prefix;
    } else {
      var init := rest[..|rest| - 1];
      FailurePersists(res, raw, readings, prefix, init);
      assert (prefix + rest)[..|prefix + rest| - 1] == prefix + init;
    }
  }

  /** Once the ties of the first `m` meters have stopped the loop, the
      remaining meters change nothing. */
  lemma {:induction false} FailureThroughBlocks(res: seq<real>, raw: seq<RawRow>, readings: seq<RawRow>,
                                                meters: seq<int>, ties: seq<StationTie>, m: nat)
    requires |res| == |raw| && m <= |meters|
    requires !ApplyTies(res, raw, readings, MeterBlocks(meters[..m], ties)).ok
    ensures ApplyTies(res, raw, readings, MeterBlocks(meters, ties))
         == ApplyTies(res, raw, readings, MeterBlocks(meters[..m], ties))
    decreases |meters| - m
  {
    if m == |meters| {
      assert meters[..m] == meters;
    } else {
      var done := MeterBlocks(meters[..m], ties);
      var block := Select(ties, TieMeter, meters[m]);
      assert meters[..m + 1][..m] == meters[..m];
      assert MeterBlocks(meters[..m + 1], ties) == done + block;
      FailurePersists(res, raw, readings, done, block);
      FailureThroughBlocks(res, raw, readings, meters, ties, m + 1);
    }
  }

  /** One tie's pass over the readings, in place. */
  method ApplyTieInPlace(raw: seq<RawRow>, t: StationTie, first: real, res: array<real>)
    requires res.Length == |raw|
    modifies res
    ensures res[..] == ApplyTie(old(res[..]), raw, t, first)
  {
    ghost var before := res[..];
    var j := 0;
    while j < |raw|
      invariant 0 <= j <= |raw|
      invariant forall i :: 0 <= i < j ==> res[i] == ApplyTie(before, raw, t, first)[i]
      invariant forall i :: j <= i < |raw| ==> res[i] == before[i]
    {
      if OnLine(raw[j], t) {
        res[j] := Residual(raw[j], t, first);
      }
      j := j + 1;
    }
  }

  /** Appending one tie to the order applies it after the others, unless
      the loop has already stopped. */
  lemma ApplyTiesSnoc(res: seq<real>, raw: seq<RawRow>, readings: seq<RawRow>,
                      prefix: seq<StationTie>, t: StationTie)
    requires |res| == |raw|
    ensures var prev := ApplyTies(res, raw, readings, prefix);
      var next := ApplyTies(res, raw, readings, prefix + [t]);
      && (!prev.ok ==> next == prev)
      && (prev.ok && FirstReading(readings, t.meter, t.line).None? ==> next == Outcome(false, prev.res))
      && (prev.ok && FirstReading(readings, t.meter, t.line).Some? ==>
            next == Outcome(true, ApplyTie(prev.res, raw, t, FirstReading(readings, t.meter, t.line).value)))
  {
    assert (prefix + [t])[..|prefix + [t]| - 1] == prefix;
  }

  lemma SplitAfter(done: seq<StationTie>, block: seq<StationTie>, b: nat)
    requires b < |block|
    ensures done + block == (done + block[..b + 1]) + block[b + 1..]
  {
    assert block == block[..b + 1] + block[b + 1..];
  }

  /** One tie of the loop: look up its line's first reading (raising
      when there is none), then overwrite the line's residuals. */
  method ApplyOne(raw: seq<RawRow>, readings: seq<RawRow>, t: StationTie, res: array<real>,
                  ghost start: seq<real>, ghost prefix: seq<StationTie>)
    returns (ok: bool)
    requires res.Length == |raw| && |start| == |raw|
    requires Outcome(true, res[..]) == ApplyTies(start, raw, readings, prefix)
    modifies res
    ensures Outcome(ok, res[..]) == ApplyTies(start, raw, readings, prefix + [t])
  {
    var first := FirstReading(readings, t.meter, t.line);
    ApplyTiesSnoc(start, raw, readings, prefix, t);
    if first.None? {
      return false;
    }
    ApplyTieInPlace(raw, t, first.value, res);
    return true;
  }

  lemma PrefixSnoc(done: seq<StationTie>, block: seq<StationTie>, b: nat)
    requires b < |block|
    ensures done + block[..b + 1] == (done + block[..b]) + [block[b]]
  {
    assert block[..b + 1] == block[..b] + [block[b]];
  }

  /** The ties of one meter, in table order, continuing the ties `done`. */
  method ApplyBlock(raw: seq<RawRow>, readings: seq<RawRow>, block: seq<StationTie>, res: array<real>,
                    ghost start: seq<real>, ghost done: seq<StationTie>)
    returns (ok: bool)
    requires res.Length == |raw| && |start| == |raw|
    requires Outcome(true, res[..]) == ApplyTies(start, raw, readings, done)
    modifies res
    ensures Outcome(ok, res[..]) == ApplyTies(start, raw, readings, done + block)
  {
    assert done + block[..0] == done;
    var b := 0;
    while b < |block|
      invariant 0 <= b <= |block|
      invariant Outcome(true, res[..]) == ApplyTies(start, raw, readings, done + block[..b])
    {
      PrefixSnoc(done, block, b);
      ok := ApplyOne(raw, readings, block[b], res, start, done + block[..b]);
      if !ok {
        SplitAfter(done, block, b);
        FailurePersists(start, raw, readings, done + block[..b + 1], block[b + 1..]);
        return false;
      }
      b := b + 1;
    }
    assert block[..b] == block;
    return true;
  }

  /** The update loop of `get_residuals_plot`: per meter (first-appearance
      order), per tie of that meter (table order), per reading of the
      tie's line, overwrite the residual in place. A line without
      readings stops the loop with the updates so far kept. */
  method UpdateResiduals(raw: seq<RawRow>, readings: seq<RawRow>, ties: seq<StationTie>, res: array<real>)
    returns (ok: bool)
    requires res.Length == |raw|
    modifies res
    ensures Outcome(ok, res[..]) == ApplyTies(old(res[..]), raw, readings, ProcessingOrder(ties))
  {
    ghost var start := res[..];
    var meters := Unique(Keys(ties, TieMeter));
    assert MeterBlocks(meters[..0], ties) == [];
    var m := 0;
    while m < |meters|
      invariant 0 <= m <= |meters|
      invariant Outcome(true, res[..]) == ApplyTies(start, raw, readings, MeterBlocks(meters[..m], ties))
    {
      var block := Select(ties, TieMeter, meters[m]);
      ghost var done := MeterBlocks(meters[..m], ties);
      assert meters[..m + 1][..m] == meters[..m];
      assert MeterBlocks(meters[..m + 1], ties) == done + block;
      ok := ApplyBlock(raw, readings, block, res, start, done);
      if !ok {
        FailureThroughBlocks(start, raw, readings, meters, ties, m + 1);
        return;
      }
      m := m + 1;
    }
    assert meters[..m] == meters;
    ok := true;
  }

  // ---------------------------------------------------------------------
  // `residuals_plot`: one panel per meter.

  /** `meter_number`: each distinct meter mapped to its position in
      first-appearance order, a bijection onto 0 .. n - 1. */
  method MeterNumbers(meters: seq<int>) returns (number: map<int, nat>)
    ensures forall x :: x in number <==> x in meters
    ensures forall i :: 0 <= i < |Unique(meters)| ==> Unique(meters)[i] in number && number[Unique(meters)[i]] == i
    ensures forall x :: x in number ==> number[x] < |Unique(meters)|
    ensures forall x, y :: x in number && y in number && x != y ==> number[x] != number[y]
  {
    var distinct := Unique(meters);
    number := map[];
    var i := 0;
    while i < |distinct|
      invariant 0 <= i <= |distinct|
      invariant forall x :: x in number <==> x in distinct[..i]
      invariant forall k :: 0 <= k < i ==> distinct[k] in number && number[distinct[k]] == k
    {
      number := number[distinct[i] := i];
      i := i + 1;
    }
    assert distinct[..i] == distinct;
    forall x | x in number ensures number[x] < |distinct| {
      var k :| 0 <= k < |distinct| && distinct[k] == x;
    }
  }
}
