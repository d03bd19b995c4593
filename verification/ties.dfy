/** The tie and drift stage (`get_vg` and `get_vg_by_meter`, which share
    it verbatim): readings are grouped by (meter, survey) and then by line;
    each line is fitted as per-station offsets plus a polynomial drift in
    time, and one tie is emitted per non-reference station. */
module Ties {
  import opened Tables
  import opened Design

  /** One row of the normalised reading table. `days` is the timestamp
      divided by 86400 (seconds to days). */
  datatype Reading = Reading(
    meter: int, survey: string, line: int, station: string,
    height: real, corrGrav: real, days: real,
    dataFile: string, created: string, operator: string)

  /** One row of the tie table. */
  datatype Tie = Tie(
    meter: int, survey: string, line: int,
    fromPoint: string, toPoint: string, fromHeight: real, toHeight: real,
    gravity: real, stdGravity: real,
    drift: seq<real>, stdDrift: seq<real>, constant: real, stdConstant: real,
    dataFile: string, createdDate: string, operator: string)

  function MeterSurveyOf(r: Reading): (int, string) { (r.meter, r.survey) }
  function LineOf(r: Reading): int { r.line }
  function StationOf(r: Reading): string { r.station }
  function HeightOf(r: Reading): real { r.height }
  function DaysOf(r: Reading): real { r.days }
  function GravityOf(r: Reading): real { r.corrGrav }

  /** Python's order on `(int, str)` tuples: by meter, then by survey name. */
  predicate PairLess(a: (int, string), b: (int, string)) {
    a.0 < b.0 || (a.0 == b.0 && StrLess(a.1, b.1))
  }

  lemma PairLessIsStrictTotalOrder()
    ensures IsStrictTotalOrder(PairLess)
  {
    StrLessIsStrictTotalOrder();
  }

  /** `readings.groupby(['instrument_serial_number', 'survey_name'])`. */
  function SurveyGroups(readings: seq<Reading>): (groups: seq<Group<(int, string), Reading>>)
    ensures forall i :: 0 <= i < |groups| ==> |groups[i].members| > 0
  {
    PairLessIsStrictTotalOrder();
    GroupBy(readings, MeterSurveyOf, PairLess)
  }

  /** `group.groupby('line')`. */
  function LineGroups(rows: seq<Reading>): (groups: seq<Group<int, Reading>>)
    ensures forall i :: 0 <= i < |groups| ==> |groups[i].members| > 0
  {
    IntLessIsStrictTotalOrder();
    GroupBy(rows, LineOf, IntLess)
  }

  // ---------------------------------------------------------------------
  // One line.

  /** The reference ("fix") station and height of a line and the lists
      the ties are drawn from. */
  datatype Reference = Reference(
    station: string, height: real,
    changeStations: seq<string>, changeHeights: seq<real>)

  /** Stations and heights are taken as `unique()` lists; the first entry
      of each is the reference and is filtered out of its own list, which
      leaves the rest of the list in first-appearance order. */
  function SelectReference(rows: seq<Reading>): (ref: Reference)
    requires |rows| > 0
    ensures ref.station == rows[0].station && ref.height == rows[0].height
    ensures ref.changeStations == Unique(Keys(rows, StationOf))[1..]
    ensures ref.changeHeights == Unique(Keys(rows, HeightOf))[1..]
  {
    var stations := Unique(Keys(rows, StationOf));
    var heights := Unique(Keys(rows, HeightOf));
    RemoveFirstOfDistinct(stations);
    RemoveFirstOfDistinct(heights);
    Reference(stations[0], heights[0], Remove(stations, stations[0]), Remove(heights, heights[0]))
  }

  /** The remaining stations are the line's other stations, each once,
      never the reference; likewise for heights. */
  lemma ReferenceExcluded(rows: seq<Reading>)
    requires |rows| > 0
    ensures var ref := SelectReference(rows);
      && NoDuplicates(ref.changeStations) && NoDuplicates(ref.changeHeights)
      && (forall s :: s in ref.changeStations <==> s in Keys(rows, StationOf) && s != ref.station)
      && (forall h :: h in ref.changeHeights <==> h in Keys(rows, HeightOf) && h != ref.height)
  {
    var ref := SelectReference(rows);
    var stations := Unique(Keys(rows, StationOf));
    var heights := Unique(Keys(rows, HeightOf));
    DistinctTail(stations);
    DistinctTail(heights);
  }

  /** The station block, built row by row with the source's nested loops. */
  method BuildStationBlock(stations: seq<string>, changeStations: seq<string>) returns (m: Matrix)
    ensures m == OneHot(stations, changeStations)
  {
    var rows: seq<seq<real>> := [];
    var i := 0;
    while i < |stations|
      invariant 0 <= i <= |stations|
      invariant |rows| == i
      invariant forall k :: 0 <= k < i ==> rows[k] == OneHotRow(stations[k], changeStations)
    {
      var row: seq<real> := [];
      var j := 0;
      while j < |changeStations|
        invariant 0 <= j <= |changeStations|
        invariant row == OneHotRow(stations[i], changeStations)[..j]
      {
        if stations[i] == changeStations[j] {
          row := row + [1.0];
        } else {
          row := row + [0.0];
        }
        j := j + 1;
      }
      rows := rows + [row];
      i := i + 1;
    }
    m := Matrix(|changeStations|, rows);
    assert m.rows == OneHot(stations, changeStations).rows;
  }

  /** In the station block of a line, a reading on the reference station
      has an all-zero row; any other reading has exactly one 1, in the
      column of its own station; every entry is 0 or 1. */
  lemma StationBlockShape(rows: seq<Reading>, i: nat)
    requires i < |rows|
    ensures var ref := SelectReference(rows);
      var row := OneHot(Keys(rows, StationOf), ref.changeStations).rows[i];
      && |row| == |ref.changeStations|
      && (forall j :: 0 <= j < |row| ==> row[j] == 0.0 || row[j] == 1.0)
      && (rows[i].station == ref.station ==> forall j :: 0 <= j < |row| ==> row[j] == 0.0)
      && (rows[i].station != ref.station ==>
            exists j :: 0 <= j < |row| && row[j] == 1.0 && ref.changeStations[j] == rows[i].station)
      && (forall j, k :: 0 <= j < |row| && 0 <= k < |row| && row[j] == 1.0 && row[k] == 1.0 ==> j == k)
  {
    var ref := SelectReference(rows);
    var stations := Keys(rows, StationOf);
    ReferenceExcluded(rows);
    assert stations[i] == rows[i].station && stations[i] in stations;
    OneHotRowShape(stations[i], ref.changeStations);
  }

  /** The drift block: `np.vander(days, max_degree + 1)`. */
  function DriftBlock(rows: seq<Reading>, maxDegree: nat): (m: Matrix)
    ensures m.Valid() && m.Height() == |rows| && m.width == maxDegree + 1
  {
    Vander(Keys(rows, DaysOf), maxDegree + 1)
  }

  /** The design of a line fit: station columns followed by drift columns. */
  function LineDesign(rows: seq<Reading>, maxDegree: nat): (x: Matrix)
    requires |rows| > 0
    ensures x.Valid() && x.Height() == |rows|
    ensures x.width == |SelectReference(rows).changeStations| + maxDegree + 1
  {
    var ref := SelectReference(rows);
    HConcat(OneHot(Keys(rows, StationOf), ref.changeStations), DriftBlock(rows, maxDegree))
  }

  /** Row `i` of the line design: its first `k` entries are the station
      indicator row, entry `k + j` is `days^(maxDegree - j)`, and the last
      column is the constant 1. */
  lemma LineDesignRow(rows: seq<Reading>, maxDegree: nat, i: nat, j: nat)
    requires i < |rows| && j <= maxDegree
    ensures var k := |SelectReference(rows).changeStations|;
      var row := LineDesign(rows, maxDegree).rows[i];
      && row[..k] == OneHotRow(rows[i].station, SelectReference(rows).changeStations)
      && row[k + j] == Pow(rows[i].days, maxDegree - j)
      && row[k + maxDegree] == 1.0
  {
    var ref := SelectReference(rows);
    var k := |ref.changeStations|;
    var row := LineDesign(rows, maxDegree).rows[i];
    assert row == OneHotRow(rows[i].station, ref.changeStations) + Powers(rows[i].days, maxDegree + 1);
    PowersAt(rows[i].days, maxDegree + 1, j);
    PowersAt(rows[i].days, maxDegree + 1, maxDegree);
  }

  /** The three slices of a parameter (or standard-error) vector. */
  datatype Slices = Slices(gravity: seq<real>, drift: seq<real>, constant: real)

  /** `p[:-(d+1)]`, `tuple(p[-(d+1):-1])` and `p[-1]`. */
  function SliceParams(p: seq<real>, maxDegree: nat): (s: Slices)
    requires |p| >= maxDegree + 1
    ensures |s.drift| == maxDegree && |s.gravity| == |p| - maxDegree - 1
  {
    var n := |p|;
    Slices(p[..n - (maxDegree + 1)], p[n - (maxDegree + 1)..n - 1], p[n - 1])
  }

  /** The three slices partition the vector: station offsets, then the
      drift coefficients, then the constant, with nothing lost or repeated. */
  lemma SliceParamsPartition(p: seq<real>, maxDegree: nat)
    requires |p| >= maxDegree + 1
    ensures var s := SliceParams(p, maxDegree);
      s.gravity + s.drift + [s.constant] == p
  {
    var s := SliceParams(p, maxDegree);
    var n := |p|;
    assert p == p[..n - (maxDegree + 1)] + p[n - (maxDegree + 1)..n - 1] + [p[n - 1]];
  }

  function Min(a: int, b: int): int { if a <= b then a else b }

  /** The ties of one line: `zip(range(k), change_stations, change_heights)`,
      so the i-th remaining station is paired with the i-th remaining
      height and with the i-th station offset. */
  function ZipTies(meter: int, survey: string, line: int, ref: Reference,
                   g: Slices, se: Slices, first: Reading): (ties: seq<Tie>)
    requires |g.gravity| >= |ref.changeStations| && |se.gravity| >= |ref.changeStations|
    ensures |ties| == Min(|ref.changeStations|, |ref.changeHeights|)
  {
    var n := Min(|ref.changeStations|, |ref.changeHeights|);
    seq(n, i requires 0 <= i < n =>
      Tie(meter, survey, line,
          ref.station, ref.changeStations[i], ref.height, ref.changeHeights[i],
          g.gravity[i], se.gravity[i], g.drift, se.drift, g.constant, se.constant,
          first.dataFile, first.created, first.operator))
  }

  /** Zipped ties point at the change stations in order. */
  lemma ZipTiesTargets(meter: int, survey: string, line: int, ref: Reference,
                       g: Slices, se: Slices, first: Reading)
    requires |g.gravity| >= |ref.changeStations| && |se.gravity| >= |ref.changeStations|
    requires NoDuplicates(ref.changeStations)
    ensures var ties := ZipTies(meter, survey, line, ref, g, se, first);
      && (forall i, j :: 0 <= i < j < |ties| ==> ties[i].toPoint != ties[j].toPoint)
      && (forall i :: 0 <= i < |ties| ==> ties[i].toPoint in ref.changeStations)
  {
    var ties := ZipTies(meter, survey, line, ref, g, se, first);
    assert forall i :: 0 <= i < |ties| ==> ties[i].toPoint == ref.changeStations[i];
  }

  /** The fit of one line group. */
  function LineFit(rows: seq<Reading>, maxDegree: nat, solver: Solver): (fit: Fit)
    requires |rows| > 0
    ensures FitsShape(fit, LineDesign(rows, maxDegree))
  {
    solver(LineDesign(rows, maxDegree), Keys(rows, GravityOf))
  }

  /** All ties of one (meter, survey, line) group. */
  function LineTies(meter: int, survey: string, line: int, rows: seq<Reading>,
                    maxDegree: nat, solver: Solver): seq<Tie>
    requires |rows| > 0
  {
    var fit := LineFit(rows, maxDegree, solver);
    ZipTies(meter, survey, line, SelectReference(rows),
            SliceParams(fit.params, maxDegree), SliceParams(fit.bse, maxDegree), rows[0])
  }

  /** A line yields min(#stations - 1, #distinct heights - 1) ties. */
  lemma LineTieCount(meter: int, survey: string, line: int, rows: seq<Reading>,
                     maxDegree: nat, solver: Solver)
    requires |rows| > 0
    ensures |LineTies(meter, survey, line, rows, maxDegree, solver)|
      == Min(|Unique(Keys(rows, StationOf))| - 1, |Unique(Keys(rows, HeightOf))| - 1)
  {
    var ref := SelectReference(rows);
    assert |ref.changeStations| == |Unique(Keys(rows, StationOf))| - 1;
    assert |ref.changeHeights| == |Unique(Keys(rows, HeightOf))| - 1;
  }

  /** Tie `i` of a line: it runs from the line's first station and height
      to the i-th other station (first-appearance order) at the i-th other
      distinct height; its gravity and error are the i-th station
      parameter and error; drift, constant and provenance are shared by
      every tie of the line. */
  lemma LineTieAt(meter: int, survey: string, line: int, rows: seq<Reading>,
                  maxDegree: nat, solver: Solver, i: nat)
    requires |rows| > 0
    requires i < |LineTies(meter, survey, line, rows, maxDegree, solver)|
    ensures var t := LineTies(meter, survey, line, rows, maxDegree, solver)[i];
      var fit := LineFit(rows, maxDegree, solver);
      var k := |SelectReference(rows).changeStations|;
      && t.meter == meter && t.survey == survey && t.line == line
      && t.fromPoint == rows[0].station && t.fromHeight == rows[0].height
      && t.toPoint == Unique(Keys(rows, StationOf))[i + 1]
      && t.toHeight == Unique(Keys(rows, HeightOf))[i + 1]
      && t.toPoint != t.fromPoint
      && t.gravity == fit.params[i] && t.stdGravity == fit.bse[i]
      && t.drift == fit.params[k..k + maxDegree] && t.stdDrift == fit.bse[k..k + maxDegree]
      && t.constant == fit.params[k + maxDegree] && t.stdConstant == fit.bse[k + maxDegree]
      && t.dataFile == rows[0].dataFile && t.createdDate == rows[0].created
      && t.operator == rows[0].operator
  {
    var fit := LineFit(rows, maxDegree, solver);
    var ref := SelectReference(rows);
    var g := SliceParams(fit.params, maxDegree);
    var se := SliceParams(fit.bse, maxDegree);
    var k := |ref.changeStations|;
    SliceParamsPartition(fit.params, maxDegree);
    SliceParamsPartition(fit.bse, maxDegree);
    assert g.gravity[i] == fit.params[i];
    assert se.gravity[i] == fit.bse[i];
    assert ref.changeStations[i] in ref.changeStations;
  }

  /** The ties of a line go to distinct stations, none of them the
      reference station, all observed on the line. */
  lemma LineTieTargets(meter: int, survey: string, line: int, rows: seq<Reading>,
                       maxDegree: nat, solver: Solver)
    requires |rows| > 0
    ensures var ties := LineTies(meter, survey, line, rows, maxDegree, solver);
      && (forall i, j :: 0 <= i < j < |ties| ==> ties[i].toPoint != ties[j].toPoint)
      && (forall i :: 0 <= i < |ties| ==>
            ties[i].toPoint != rows[0].station && ties[i].toPoint in Keys(rows, StationOf))
  {
    var fit := LineFit(rows, maxDegree, solver);
    var ref := SelectReference(rows);
    var ties := ZipTies(meter, survey, line, ref, SliceParams(fit.params, maxDegree),
                        SliceParams(fit.bse, maxDegree), rows[0]);
    assert ties == LineTies(meter, survey, line, rows, maxDegree, solver);
    ReferenceExcluded(rows);
    ZipTiesTargets(meter, survey, line, ref, SliceParams(fit.params, maxDegree),
                   SliceParams(fit.bse, maxDegree), rows[0]);
  }

  /** Every station of a line is observed at one height, and different
      stations at different heights. */
  ghost predicate OneHeightPerStation(rows: seq<Reading>) {
    forall i, j :: 0 <= i < |rows| && 0 <= j < |rows| ==>
      (rows[i].station == rows[j].station <==> rows[i].height == rows[j].height)
  }

  /** Under a one-to-one station/height correspondence the distinct
      heights line up with the distinct stations: same count, and the
      k-th distinct height is the height of the k-th distinct station. */
  lemma UniqueHeightsFollowStations(rows: seq<Reading>)
    requires OneHeightPerStation(rows)
    ensures |Unique(Keys(rows, HeightOf))| == |Unique(Keys(rows, StationOf))|
    ensures forall k :: 0 <= k < |Unique(Keys(rows, StationOf))| ==>
      exists r :: 0 <= r < |rows| && rows[r].station == Unique(Keys(rows, StationOf))[k]
                                  && rows[r].height == Unique(Keys(rows, HeightOf))[k]
  {
    var ss, hs := Keys(rows, StationOf), Keys(rows, HeightOf);
    assert SameEqualities(ss, hs);
    UniqueInStep(ss, hs);
    forall k | 0 <= k < |Unique(ss)|
      ensures exists r :: 0 <= r < |rows| && rows[r].station == Unique(ss)[k]
                                          && rows[r].height == Unique(hs)[k]
    {
      var r :| 0 <= r < |ss| && ss[r] == Unique(ss)[k] && hs[r] == Unique(hs)[k];
      assert rows[r].station == ss[r];
    }
  }

  /** When each station is observed at its own height, the zip pairing is
      the natural one: a line of s stations gives s - 1 ties. */
  lemma OwnHeightTieCount(meter: int, survey: string, line: int, rows: seq<Reading>,
                          maxDegree: nat, solver: Solver)
    requires |rows| > 0 && OneHeightPerStation(rows)
    ensures |LineTies(meter, survey, line, rows, maxDegree, solver)| == |Unique(Keys(rows, StationOf))| - 1
  {
    LineTieCount(meter, survey, line, rows, maxDegree, solver);
    UniqueHeightsFollowStations(rows);
  }

  /** Each tie's `to_height` is a height its `to_point` was observed at. */
  ghost predicate AtObservedHeights(ties: seq<Tie>, rows: seq<Reading>) {
    forall i :: 0 <= i < |ties| ==>
      exists r :: 0 <= r < |rows| && rows[r].station == ties[i].toPoint
                                  && rows[r].height == ties[i].toHeight
  }

  /** ... and each tie's `to_height` is a height its `to_point` was
      observed at. Without that correspondence the pairing is by
      position only. */
  lemma OwnHeightTies(meter: int, survey: string, line: int, rows: seq<Reading>,
                      maxDegree: nat, solver: Solver)
    requires |rows| > 0 && OneHeightPerStation(rows)
    ensures AtObservedHeights(LineTies(meter, survey, line, rows, maxDegree, solver), rows)
  {
    var fit := LineFit(rows, maxDegree, solver);
    var ref := SelectReference(rows);
    var g, se := SliceParams(fit.params, maxDegree), SliceParams(fit.bse, maxDegree);
    ZipTiesOwnHeight(meter, survey, line, rows, ref, g, se);
    assert LineTies(meter, survey, line, rows, maxDegree, solver) == ZipTies(meter, survey, line, ref, g, se, rows[0]);
  }

  lemma ZipTiesOwnHeight(meter: int, survey: string, line: int, rows: seq<Reading>,
                         ref: Reference, g: Slices, se: Slices)
    requires |rows| > 0 && OneHeightPerStation(rows)
    requires |g.gravity| >= |ref.changeStations| && |se.gravity| >= |ref.changeStations|
    requires ref == SelectReference(rows)
    ensures AtObservedHeights(ZipTies(meter, survey, line, ref, g, se, rows[0]), rows)
  {
    var ties := ZipTies(meter, survey, line, ref, g, se, rows[0]);
    UniqueHeightsFollowStations(rows);
    var us, uh := Unique(Keys(rows, StationOf)), Unique(Keys(rows, HeightOf));
    forall i | 0 <= i < |ties|
      ensures exists r :: 0 <= r < |rows| && rows[r].station == ties[i].toPoint
                                          && rows[r].height == ties[i].toHeight
    {
      assert ties[i].toPoint == us[i + 1] && ties[i].toHeight == uh[i + 1];
      var r :| 0 <= r < |rows| && rows[r].station == us[i + 1] && rows[r].height == uh[i + 1];
    }
  }

  /** The tie-emission loop: one appended row per step of the zip. */
  method EmitTies(meter: int, survey: string, line: int, ref: Reference,
                  g: Slices, se: Slices, first: Reading) returns (ties: seq<Tie>)
    requires |g.gravity| >= |ref.changeStations| && |se.gravity| >= |ref.changeStations|
    ensures ties == ZipTies(meter, survey, line, ref, g, se, first)
  {
    ghost var spec := ZipTies(meter, survey, line, ref, g, se, first);
    ties := [];
    var i := 0;
    while i < |ref.changeStations| && i < |ref.changeHeights|
      invariant 0 <= i <= |spec|
      invariant ties == spec[..i]
    {
      var tie := Tie(meter, survey, line,
                     ref.station, ref.changeStations[i], ref.height, ref.changeHeights[i],
                     g.gravity[i], se.gravity[i], g.drift, se.drift, g.constant, se.constant,
                     first.dataFile, first.created, first.operator);
      assert spec[..i + 1] == spec[..i] + [tie];
      ties := ties + [tie];
      i := i + 1;
    }
  }

  /** A line, built as the source does: station block by loops, fit,
      slicing, then the tie-emission loop. */
  method FitLine(meter: int, survey: string, line: int, rows: seq<Reading>,
                 maxDegree: nat, solver: Solver) returns (ties: seq<Tie>)
    requires |rows| > 0
    ensures ties == LineTies(meter, survey, line, rows, maxDegree, solver)
  {
    var ref := SelectReference(rows);
    var stationBlock := BuildStationBlock(Keys(rows, StationOf), ref.changeStations);
    var design := HConcat(stationBlock, DriftBlock(rows, maxDegree));
    assert design == LineDesign(rows, maxDegree);
    var fit := LineFit(rows, maxDegree, solver);
    var g := SliceParams(fit.params, maxDegree);
    var se := SliceParams(fit.bse, maxDegree);
    ties := EmitTies(meter, survey, line, ref, g, se, rows[0]);
  }

  // ---------------------------------------------------------------------
  // All lines of all (meter, survey) groups.

  /** The first `n` blocks of `blocks`, concatenated. */
  function Concat(blocks: seq<seq<Tie>>, n: nat): seq<Tie>
    requires n <= |blocks|
  {
    if n == 0 then [] else Concat(blocks, n - 1) + blocks[n - 1]
  }

  /** The ties of each line of a (meter, survey) group, in line order. */
  function LineTable(meter: int, survey: string, lines: seq<Group<int, Reading>>,
                     maxDegree: nat, solver: Solver): (t: seq<seq<Tie>>)
    requires forall i :: 0 <= i < |lines| ==> |lines[i].members| > 0
    ensures |t| == |lines|
    ensures forall i {:trigger LineTies(meter, survey, lines[i].key, lines[i].members, maxDegree, solver)} ::
      0 <= i < |lines| ==> t[i] == LineTies(meter, survey, lines[i].key, lines[i].members, maxDegree, solver)
  {
    seq(|lines|, i requires 0 <= i < |lines| => LineTies(meter, survey, lines[i].key, lines[i].members, maxDegree, solver))
  }

  /** The ties of one (meter, survey) group: its lines' ties, in line order. */
  function TiesOfLines(meter: int, survey: string, lines: seq<Group<int, Reading>>,
                       maxDegree: nat, solver: Solver): seq<Tie>
    requires forall i :: 0 <= i < |lines| ==> |lines[i].members| > 0
  {
    Concat(LineTable(meter, survey, lines, maxDegree, solver), |lines|)
  }

  /** The ties of each (meter, survey) group, in group order. */
  function SurveyTable(groups: seq<Group<(int, string), Reading>>, maxDegree: nat, solver: Solver): (t: seq<seq<Tie>>)
    requires forall i :: 0 <= i < |groups| ==> |groups[i].members| > 0
    ensures |t| == |groups|
    ensures forall i {:trigger LineGroups(groups[i].members)} :: 0 <= i < |groups| ==>
      t[i] == TiesOfLines(groups[i].key.0, groups[i].key.1, LineGroups(groups[i].members), maxDegree, solver)
  {
    seq(|groups|, i requires 0 <= i < |groups| =>
      TiesOfLines(groups[i].key.0, groups[i].key.1, LineGroups(groups[i].members), maxDegree, solver))
  }

  /** The tie table: lines of each (meter, survey) group in sorted order. */
  function TieTable(readings: seq<Reading>, maxDegree: nat, solver: Solver): seq<Tie> {
    var groups := SurveyGroups(readings);
    Concat(SurveyTable(groups, maxDegree, solver), |groups|)
  }

  /** The inner loop over the lines of one (meter, survey) group; `table`
      holds each line's ties. */
  method FitLines(meter: int, survey: string, lines: seq<Group<int, Reading>>,
                  maxDegree: nat, solver: Solver, ghost table: seq<seq<Tie>>) returns (ties: seq<Tie>)
    requires forall i :: 0 <= i < |lines| ==> |lines[i].members| > 0
    requires |table| == |lines|
    requires forall i {:trigger LineTies(meter, survey, lines[i].key, lines[i].members, maxDegree, solver)} ::
      0 <= i < |lines| ==> table[i] == LineTies(meter, survey, lines[i].key, lines[i].members, maxDegree, solver)
    ensures ties == Concat(table, |lines|)
  {
    ties := [];
    var j := 0;
    while j < |lines|
      invariant 0 <= j <= |lines|
      invariant ties == Concat(table, j)
    {
      var lineTies := FitLine(meter, survey, lines[j].key, lines[j].members, maxDegree, solver);
      ties := ties + lineTies;
      j := j + 1;
    }
  }

  /** The tie stage of `get_vg` / `get_vg_by_meter`: nested loops over the
      groups, appending each line's ties. */
  method TieStage(readings: seq<Reading>, maxDegree: nat, solver: Solver) returns (ties: seq<Tie>)
    ensures ties == TieTable(readings, maxDegree, solver)
  {
    var groups := SurveyGroups(readings);
    ghost var table := SurveyTable(groups, maxDegree, solver);
    ties := [];
    var i := 0;
    while i < |groups|
      invariant 0 <= i <= |groups|
      invariant ties == Concat(table, i)
    {
      var meter, survey := groups[i].key.0, groups[i].key.1;
      var lines := LineGroups(groups[i].members);
      var lineTies := FitLines(meter, survey, lines, maxDegree, solver,
                               LineTable(meter, survey, lines, maxDegree, solver));
      assert lineTies == table[i];
      ties := ties + lineTies;
      i := i + 1;
    }
  }
}
