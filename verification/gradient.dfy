/** The vertical-gradient stage of `get_vg` and `get_vg_by_meter`: the tie
    table is grouped by survey (or by meter and survey), and each group is
    fitted as a polynomial in height without a constant term plus one
    offset column per distinct `'{line}_{meter}'` label (`get_vg`) or per
    distinct line (`get_vg_by_meter`), from paired rows (reference station at gravity 0,
    tied station at the tie's gravity). */
module Gradient {
  import opened Tables
  import opened Design
  import opened Ties

  // ---------------------------------------------------------------------
  // Python's `str(int)`, needed for the '{line}_{meter}' labels of `get_vg`.

  predicate IsDigit(c: char) { '0' <= c <= '9' }

  predicate AllDigits(s: string) {
    forall k :: 0 <= k < |s| ==> IsDigit(s[k])
  }

  function DigitChar(d: nat): (c: char)
    requires d < 10
    ensures IsDigit(c)
  {
    ('0' as int + d) as char
  }

  function DigitValue(c: char): nat
    requires IsDigit(c)
  {
    c as int - '0' as int
  }

  /** Decimal digits of `n`, most significant first, no leading zeros. */
  function NatToString(n: nat): (s: string)
    ensures |s| > 0 && AllDigits(s)
    decreases n
  {
    if n < 10 then [DigitChar(n)] else NatToString(n / 10) + [DigitChar(n % 10)]
  }

  function ParseNat(s: string): nat
    requires AllDigits(s)
  {
    if s == [] then 0 else 10 * ParseNat(s[..|s| - 1]) + DigitValue(s[|s| - 1])
  }

  /** Reading the digits back gives the number. */
  lemma {:induction false} ParseNatToString(n: nat)
    ensures ParseNat(NatToString(n)) == n
    decreases n
  {
    var s := NatToString(n);
    if n >= 10 {
      assert s[..|s| - 1] == NatToString(n / 10);
      ParseNatToString(n / 10);
    }
  }

  /** `str(i)`: a minus sign for negative numbers, then the digits. */
  function IntToString(i: int): (s: string)
    ensures |s| > 0
    ensures forall k :: 0 <= k < |s| ==> s[k] == '-' || IsDigit(s[k])
  {
    if i < 0 then "-" + NatToString(-i) else NatToString(i)
  }

  function ParseInt(s: string): int
    requires |s| > 0 && AllDigits(if s[0] == '-' then s[1..] else s)
  {
    if s[0] == '-' then -(ParseNat(s[1..]) as int) else ParseNat(s)
  }

  /** `int(str(i)) == i`. */
  lemma IntToStringRoundTrip(i: int)
    ensures var s := IntToString(i);
      |s| > 0 && AllDigits(if s[0] == '-' then s[1..] else s) && ParseInt(s) == i
  {
    var s := IntToString(i);
    if i < 0 {
      assert s[1..] == NatToString(-i);
      ParseNatToString(-i);
    } else {
      assert IsDigit(s[0]);
      ParseNatToString(i);
    }
  }

  /** The label `get_vg` gives each tie for its line dummies. */
  function LineMeterLabel(t: Tie): string {
    IntToString(t.line) + "_" + IntToString(t.meter)
  }

  /** The first '_' of `x + "_" + y` sits right after `x` when `x` has none. */
  lemma {:induction false} UnderscoreAt(x: string, y: string)
    requires forall k :: 0 <= k < |x| ==> x[k] == '-' || IsDigit(x[k])
    ensures '_' in x + "_" + y && FirstIndex(x + "_" + y, '_') == |x|
  {
    if x != [] {
      assert (x + "_" + y)[1..] == x[1..] + "_" + y;
      UnderscoreAt(x[1..], y);
    }
  }

  /** Different (line, meter) pairs get different labels, so the dummy
      columns of `get_vg` are exactly the (line, meter) pairs of a survey. */
  lemma LineMeterLabelInjective(s: Tie, t: Tie)
    requires LineMeterLabel(s) == LineMeterLabel(t)
    ensures s.line == t.line && s.meter == t.meter
  {
    var x, y := IntToString(s.line), IntToString(s.meter);
    var x', y' := IntToString(t.line), IntToString(t.meter);
    var text := LineMeterLabel(s);
    assert text == x + "_" + y && text == x' + "_" + y';
    UnderscoreAt(x, y);
    UnderscoreAt(x', y');
    assert x == text[..|x|] == x';
    assert y == text[|x| + 1..] == y';
    IntToStringRoundTrip(s.line);
    IntToStringRoundTrip(t.line);
    IntToStringRoundTrip(s.meter);
    IntToStringRoundTrip(t.meter);
  }

  // ---------------------------------------------------------------------
  // The regression of one group of ties.

  function FromHeightM(t: Tie): real { t.fromHeight / 1000.0 }
  function ToHeightM(t: Tie): real { t.toHeight / 1000.0 }
  function TieGravity(t: Tie): real { t.gravity }
  function SurveyOfTie(t: Tie): string { t.survey }
  function MeterSurveyOfTie(t: Tie): (int, string) { (t.meter, t.survey) }
  function LineOfTie(t: Tie): int { t.line }

  /** `np.hstack((a, b)).flatten()` on two columns: their entries alternate. */
  function Interleave(a: seq<real>, b: seq<real>): (r: seq<real>)
    requires |a| == |b|
    ensures |r| == 2 * |a|
    ensures forall k :: 0 <= k < |a| ==> r[2 * k] == a[k] && r[2 * k + 1] == b[k]
  {
    if a == [] then [] else [a[0], b[0]] + Interleave(a[1..], b[1..])
  }

  /** Heights in metres (millimetres times 1e-3), reference then tied station. */
  function Heights(ties: seq<Tie>): (h: seq<real>)
    ensures |h| == 2 * |ties|
  {
    Interleave(Keys(ties, FromHeightM), Keys(ties, ToHeightM))
  }

  /** Observations: 0 at the reference station, the tie's gravity at the other. */
  function Response(ties: seq<Tie>): (y: seq<real>)
    ensures |y| == 2 * |ties|
  {
    Interleave(seq(|ties|, k => 0.0), Keys(ties, TieGravity))
  }

  /** `np.vander(heights, vg + 1)[:, :-1]`: powers vg down to 1, no constant. */
  function CoefDesign(heights: seq<real>, vg: nat): (m: Matrix)
    ensures m.Valid() && m.width == vg && m.Height() == |heights|
  {
    DropLastColumn(Vander(heights, vg + 1))
  }

  /** Column `j` of the coefficient design holds the height to the power
      `vg - j`: the constant column of the Vandermonde matrix is gone. */
  lemma CoefDesignAt(heights: seq<real>, vg: nat, r: nat, j: nat)
    requires r < |heights| && j < vg
    ensures CoefDesign(heights, vg).rows[r][j] == Pow(heights[r], vg - j)
  {
    var v := Vander(heights, vg + 1);
    PowersAt(heights[r], vg + 1, j);
    assert CoefDesign(heights, vg).rows[r][j] == v.rows[r][j];
  }

  /** `np.repeat(get_dummies(labels), 2, axis=0)`: one column per distinct
      label in sorted order, each tie's dummy row used for both its rows. */
  function DummyDesign<L(==,!new)>(labels: seq<L>, lt: (L, L) -> bool): (m: Matrix)
    requires IsStrictTotalOrder(lt)
    ensures m.Valid() && m.width == |SortedDistinct(labels, lt)| && m.Height() == 2 * |labels|
  {
    RepeatRowsTwice(OneHot(labels, SortedDistinct(labels, lt)))
  }

  function GradientDesign<L(==,!new)>(ties: seq<Tie>, labels: seq<L>, lt: (L, L) -> bool, vg: nat): (m: Matrix)
    requires |labels| == |ties| && IsStrictTotalOrder(lt)
    ensures m.Valid() && m.width == vg + |SortedDistinct(labels, lt)| && m.Height() == 2 * |ties|
  {
    HConcat(CoefDesign(Heights(ties), vg), DummyDesign(labels, lt))
  }

  /** The observations of tie `k`: 0 at its reference station (row 2k),
      the tie's gravity at its tied station (row 2k + 1). */
  lemma ResponseAt(ties: seq<Tie>, k: nat)
    requires k < |ties|
    ensures Response(ties)[2 * k] == 0.0 && Response(ties)[2 * k + 1] == ties[k].gravity
  {
    assert Keys(ties, TieGravity)[k] == ties[k].gravity;
  }

  /** The heights of tie `k` in metres: the reference height in row 2k,
      the tied height in row 2k + 1. */
  lemma HeightsAt(ties: seq<Tie>, k: nat)
    requires k < |ties|
    ensures Heights(ties)[2 * k] == ties[k].fromHeight / 1000.0
    ensures Heights(ties)[2 * k + 1] == ties[k].toHeight / 1000.0
  {
    assert Keys(ties, FromHeightM)[k] == FromHeightM(ties[k]);
    assert Keys(ties, ToHeightM)[k] == ToHeightM(ties[k]);
  }

  /** Column `j < vg` of design row `r` holds that row's height to the
      power `vg - j`. */
  lemma GradientDesignPowers<L(!new)>(ties: seq<Tie>, labels: seq<L>, lt: (L, L) -> bool, vg: nat, r: nat)
    requires |labels| == |ties| && IsStrictTotalOrder(lt) && r < 2 * |ties|
    ensures forall j :: 0 <= j < vg ==>
      GradientDesign(ties, labels, lt, vg).rows[r][j] == Pow(Heights(ties)[r], vg - j)
  {
    var h := Heights(ties);
    var coef := CoefDesign(h, vg);
    var dummy := DummyDesign(labels, lt);
    forall j | 0 <= j < vg
      ensures GradientDesign(ties, labels, lt, vg).rows[r][j] == Pow(h[r], vg - j)
    {
      CoefDesignAt(h, vg, r, j);
      HConcatAt(coef, dummy, r, j);
    }
  }

  /** Both rows of tie `k` carry the same line dummy: a 1 in the column of
      its label and 0 elsewhere. Subtracting the two rows, the model says
      that the tie's gravity is the polynomial's increase from the
      reference height to the tied height. */
  lemma GradientDesignDummies<L(!new)>(ties: seq<Tie>, labels: seq<L>, lt: (L, L) -> bool, vg: nat, k: nat)
    requires |labels| == |ties| && IsStrictTotalOrder(lt) && k < |ties|
    ensures var m := GradientDesign(ties, labels, lt, vg);
      var cols := SortedDistinct(labels, lt);
      forall j :: 0 <= j < |cols| ==>
        m.rows[2 * k][vg + j] == Indicator(labels[k] == cols[j]) &&
        m.rows[2 * k + 1][vg + j] == Indicator(labels[k] == cols[j])
  {
    var m := GradientDesign(ties, labels, lt, vg);
    var cols := SortedDistinct(labels, lt);
    GradientDesignDummyRows(ties, labels, lt, vg, k);
    var d0, d1 := m.rows[2 * k][vg..], m.rows[2 * k + 1][vg..];
    forall j | 0 <= j < |cols|
      ensures m.rows[2 * k][vg + j] == Indicator(labels[k] == cols[j])
      ensures m.rows[2 * k + 1][vg + j] == Indicator(labels[k] == cols[j])
    {
      assert m.rows[2 * k][vg + j] == d0[j] && m.rows[2 * k + 1][vg + j] == d1[j];
    }
  }

  /** `row` has a single 1, and it stands in the column of `v`. */
  ghost predicate SingleOneAt<L>(row: seq<real>, cols: seq<L>, v: L) {
    && (exists j :: 0 <= j < |row| && j < |cols| && cols[j] == v && row[j] == 1.0)
    && (forall j, j' :: 0 <= j < |row| && 0 <= j' < |row| && row[j] == 1.0 && row[j'] == 1.0 ==> j == j')
  }

  /** An indicator row over distinct columns that contain `v` has a
      single 1, at `v`'s column. */
  lemma IndicatorRowSingleOne<L>(row: seq<real>, cols: seq<L>, v: L)
    requires NoDuplicates(cols) && v in cols && |row| == |cols|
    requires forall i :: 0 <= i < |cols| ==> row[i] == Indicator(v == cols[i])
    ensures SingleOneAt(row, cols, v)
  {
    var j :| 0 <= j < |cols| && cols[j] == v;
    assert row[j] == 1.0;
  }

  /** Both design rows of a tie carry exactly one 1 among the dummy
      columns, in the column of the tie's own label. */
  lemma GradientDesignDummyOnce<L(!new)>(ties: seq<Tie>, labels: seq<L>, lt: (L, L) -> bool, vg: nat, k: nat)
    requires |labels| == |ties| && IsStrictTotalOrder(lt) && k < |ties|
    ensures var m := GradientDesign(ties, labels, lt, vg);
      var cols := SortedDistinct(labels, lt);
      && SingleOneAt(m.rows[2 * k][vg..], cols, labels[k])
      && SingleOneAt(m.rows[2 * k + 1][vg..], cols, labels[k])
  {
    var cols := SortedDistinct(labels, lt);
    GradientDesignDummyRows(ties, labels, lt, vg, k);
    StrictlySortedIsDistinct(cols, lt);
    assert labels[k] in labels;
    IndicatorRowSingleOne(OneHotRow(labels[k], cols), cols, labels[k]);
  }

  /** The dummy part of both rows of tie `k` is the one-hot row of its label. */
  lemma GradientDesignDummyRows<L(!new)>(ties: seq<Tie>, labels: seq<L>, lt: (L, L) -> bool, vg: nat, k: nat)
    requires |labels| == |ties| && IsStrictTotalOrder(lt) && k < |ties|
    ensures var m := GradientDesign(ties, labels, lt, vg);
      var row := OneHotRow(labels[k], SortedDistinct(labels, lt));
      m.rows[2 * k][vg..] == row && m.rows[2 * k + 1][vg..] == row
  {
    var cols := SortedDistinct(labels, lt);
    var coef := CoefDesign(Heights(ties), vg);
    var hot := OneHot(labels, cols);
    var row := OneHotRow(labels[k], cols);
    RepeatRowsTwiceAt(hot, k);
    assert hot.rows[k] == row;
    var m := GradientDesign(ties, labels, lt, vg);
    assert m.rows[2 * k] == coef.rows[2 * k] + row;
    assert m.rows[2 * k + 1] == coef.rows[2 * k + 1] + row;
  }

  /** What one group contributes to the gradient table. */
  datatype GradientFit = GradientFit(coefs: seq<real>, stdCoefs: seq<real>, covab: real, resid: seq<real>)

  /** `list(p)[::-1]`. */
  function Reverse(s: seq<real>): (r: seq<real>)
    ensures |r| == |s|
    ensures forall i :: 0 <= i < |s| ==> r[i] == s[|s| - 1 - i]
  {
    if s == [] then [] else Reverse(s[1..]) + [s[0]]
  }

  /** Coefficients and errors are the first `vg` parameters reversed, so
      the list runs from the linear term upwards; `covab` is entry [0][1]
      of the covariance matrix, which does not exist (an `IndexError`)
      when the matrix has fewer than two columns. */
  function ExtractGradient(fit: Fit, vg: nat): (r: Option<GradientFit>)
    requires |fit.params| >= vg && |fit.bse| >= vg
    ensures r.None? <==> !(|fit.cov| > 0 && |fit.cov[0]| > 1)
    ensures r.Some? ==>
      && |r.value.coefs| == vg && |r.value.stdCoefs| == vg
      && (forall i :: 0 <= i < vg ==>
            r.value.coefs[i] == fit.params[vg - 1 - i] && r.value.stdCoefs[i] == fit.bse[vg - 1 - i])
      && r.value.covab == fit.cov[0][1]
      && r.value.resid == fit.resid
  {
    if |fit.cov| > 0 && |fit.cov[0]| > 1 then
      Some(GradientFit(Reverse(fit.params[..vg]), Reverse(fit.bse[..vg]), fit.cov[0][1], fit.resid))
    else None
  }

  /** The fit of one group of ties with the given line labels. */
  function GroupFit<L(==,!new)>(ties: seq<Tie>, labels: seq<L>, lt: (L, L) -> bool,
                                vg: nat, solver: Solver): (fit: Fit)
    requires |labels| == |ties| && IsStrictTotalOrder(lt)
    ensures FitsShape(fit, GradientDesign(ties, labels, lt, vg))
  {
    var design := GradientDesign(ties, labels, lt, vg);
    assert design.Valid() && |Response(ties)| == design.Height();
    solver(design, Response(ties))
  }

  function GroupGradient<L(==,!new)>(ties: seq<Tie>, labels: seq<L>, lt: (L, L) -> bool,
                                     vg: nat, solver: Solver): Option<GradientFit>
    requires |labels| == |ties| && IsStrictTotalOrder(lt)
  {
    ExtractGradient(GroupFit(ties, labels, lt, vg, solver), vg)
  }

  /** A group fails exactly when its design has fewer than two columns:
      for a group of at least one tie, only when `vg_max_degree` is 0 and
      the group has a single line. */
  lemma GroupGradientFails<L(!new)>(ties: seq<Tie>, labels: seq<L>, lt: (L, L) -> bool,
                                       vg: nat, solver: Solver)
    requires |labels| == |ties| && IsStrictTotalOrder(lt)
    ensures GroupGradient(ties, labels, lt, vg, solver).None?
      <==> vg + |SortedDistinct(labels, lt)| < 2
    ensures |ties| > 0 ==>
      (GroupGradient(ties, labels, lt, vg, solver).None? <==>
       (vg == 0 && |SortedDistinct(labels, lt)| == 1))
  {
    var fit := GroupFit(ties, labels, lt, vg, solver);
    var w := vg + |SortedDistinct(labels, lt)|;
    assert |fit.cov| == w && (w > 0 ==> |fit.cov[0]| == w);
    if |ties| > 0 {
      assert labels[0] in SortedDistinct(labels, lt);
    }
  }

  /** On success: `coefs[i]` is the parameter of the column holding the
      power `i + 1` of the height, `std_coefs[i]` its standard error,
      `covab` is covariance entry [0][1] of the design's own column order
      (powers `vg` down to 1, then the offsets): for `vg` >= 2 the two
      highest powers (b and a when `vg` is 2), for `vg` = 1 the linear
      coefficient and the first offset, for `vg` = 0 the first two
      offsets; and there is one residual per design row, two per tie. */
  lemma GroupGradientAt<L(!new)>(ties: seq<Tie>, labels: seq<L>, lt: (L, L) -> bool,
                                    vg: nat, solver: Solver)
    requires |labels| == |ties| && IsStrictTotalOrder(lt)
    requires GroupGradient(ties, labels, lt, vg, solver).Some?
    ensures var g := GroupGradient(ties, labels, lt, vg, solver).value;
      var fit := GroupFit(ties, labels, lt, vg, solver);
      && |g.coefs| == vg && |g.stdCoefs| == vg
      && (forall i :: 0 <= i < vg ==>
            g.coefs[i] == fit.params[vg - 1 - i] && g.stdCoefs[i] == fit.bse[vg - 1 - i])
      && g.covab == fit.cov[0][1]
      && |g.resid| == 2 * |ties|
  {
  }

  // ---------------------------------------------------------------------
  // The gradient table.

  /** One row of the gradient table: `meter` is present only in the
      per-meter variant; `coefs` and `stdCoefs` are the columns named by
      `CoefNames` and `StdCoefNames`. */
  datatype VgRow = VgRow(meter: Option<int>, survey: string, coefs: seq<real>,
                         stdCoefs: seq<real>, covab: real, resid: seq<real>)

  /** `chr(97 + i)`: 'a', 'b', ... */
  function CoefName(i: nat): (name: string)
    requires 97 + i < 0xD800
    ensures |name| == 1
  {
    [(97 + i) as char]
  }

  /** The coefficient names: one letter each, consecutive letters from
      'a', so no two coincide. */
  function CoefNames(n: nat): (names: seq<string>)
    requires 97 + n <= 0xD800
    ensures |names| == n
    ensures forall i :: 0 <= i < n ==> |names[i]| == 1 && 'a' <= names[i][0]
    ensures forall i, j :: 0 <= i < j < n ==> names[i][0] < names[j][0]
    ensures NoDuplicates(names)
    ensures n > 0 ==> names[0] == "a"
    ensures n > 1 ==> names[1] == "b"
    ensures forall i :: 0 <= i < n - 1 ==> names[i + 1][0] as int == names[i][0] as int + 1
  {
    seq(n, i requires 0 <= i < n => CoefName(i))
  }

  /** The standard-error names: each coefficient's name behind a 'u',
      so they are distinct and none is a coefficient name. */
  function StdCoefNames(n: nat): (names: seq<string>)
    requires 97 + n <= 0xD800
    ensures |names| == n
    ensures forall i :: 0 <= i < n ==> |names[i]| == 2 && names[i][0] == 'u' && names[i][1..] == CoefNames(n)[i]
    ensures NoDuplicates(names)
    ensures forall x :: x in names ==> x !in CoefNames(n)
  {
    seq(n, i requires 0 <= i < n => "u" + CoefName(i))
  }

  /** The columns of the gradient table. */
  function VgColumns(vg: nat, byMeter: bool): seq<string>
    requires 97 + vg <= 0xD800
  {
    (if byMeter then ["meter"] else []) + ["survey"] + CoefNames(vg) + StdCoefNames(vg) + ["covab", "resid"]
  }

  /** The gradient table has 2 vg + 3 columns (one more per meter), all
      names distinct; the coefficient names come right after "survey",
      'a' and 'b' being the first two of them. */
  lemma VgColumnsDistinct(vg: nat, byMeter: bool)
    requires 97 + vg <= 0xD800
    ensures |VgColumns(vg, byMeter)| == 2 * vg + 3 + (if byMeter then 1 else 0)
    ensures NoDuplicates(VgColumns(vg, byMeter))
    ensures vg >= 2 ==> CoefNames(vg)[0] == "a" && CoefNames(vg)[1] == "b"
    ensures VgColumns(vg, byMeter)[if byMeter then 1 else 0] == "survey"
    ensures forall i :: 0 <= i < vg ==>
      VgColumns(vg, byMeter)[(if byMeter then 2 else 1) + i] == CoefNames(vg)[i]
  {
    var names := CoefNames(vg);
    var cols := VgColumns(vg, byMeter);
    assert cols == (if byMeter then ["meter"] else []) + ["survey"] + names + StdCoefNames(vg) + ["covab", "resid"];
    VgColumnsNoDuplicates(vg, byMeter);
  }

  /** No two column names of the gradient table coincide: coefficient
      names have one letter, error names two, and the rest are longer. */
  lemma VgColumnsNoDuplicates(vg: nat, byMeter: bool)
    requires 97 + vg <= 0xD800
    ensures NoDuplicates(VgColumns(vg, byMeter))
  {
    var cols := VgColumns(vg, byMeter);
    var off := if byMeter then 1 else 0;
    var names, unames := CoefNames(vg), StdCoefNames(vg);
    assert cols == (if byMeter then ["meter"] else []) + ["survey"] + names + unames + ["covab", "resid"];
    forall i, j | 0 <= i < j < |cols| ensures cols[i] != cols[j] {
      if off + 1 <= i < off + 1 + vg && off + 1 <= j < off + 1 + vg {
        assert cols[i] == names[i - off - 1] && cols[j] == names[j - off - 1];
        assert cols[i][0] != cols[j][0];
      } else if off + 1 + vg <= i < off + 1 + 2 * vg && off + 1 + vg <= j < off + 1 + 2 * vg {
        assert cols[i] == unames[i - off - 1 - vg] && cols[j] == unames[j - off - 1 - vg];
        assert cols[i][1] != cols[j][1];
      } else if off + 1 <= i < off + 1 + vg {
        assert |cols[i]| == 1 && |cols[j]| != 1;
      } else if off + 1 <= j < off + 1 + vg {
        assert |cols[j]| == 1 && |cols[i]| != 1;
      } else if off + 1 + vg <= i < off + 1 + 2 * vg {
        assert |cols[i]| == 2 && |cols[j]| != 2;
      } else if off + 1 + vg <= j < off + 1 + 2 * vg {
        assert |cols[j]| == 2 && |cols[i]| != 2;
      }
    }
  }

  // ---------------------------------------------------------------------
  // `get_vg`: one row per survey, lines labelled '{line}_{meter}'.

  /** `ties.groupby('survey')`. */
  function TieSurveyGroups(ties: seq<Tie>): (groups: seq<Group<string, Tie>>)
    ensures forall i :: 0 <= i < |groups| ==> |groups[i].members| > 0
  {
    StrLessIsStrictTotalOrder();
    GroupBy(ties, SurveyOfTie, StrLess)
  }

  /** Number of dummy columns of a survey: its distinct '{line}_{meter}' labels. */
  function SurveyLineCount(ties: seq<Tie>): nat {
    StrLessIsStrictTotalOrder();
    |SortedDistinct(Keys(ties, LineMeterLabel), StrLess)|
  }

  /** The row of one survey: absent exactly when its design has fewer
      than two columns, otherwise named by the survey with `vg`
      coefficients and two residuals per tie. */
  function SurveyRow(survey: string, ties: seq<Tie>, vg: nat, solver: Solver): (r: Option<VgRow>)
    ensures r.None? <==> vg + SurveyLineCount(ties) < 2
    ensures r.Some? ==>
      && r.value.meter.None? && r.value.survey == survey
      && |r.value.coefs| == vg && |r.value.stdCoefs| == vg && |r.value.resid| == 2 * |ties|
  {
    StrLessIsStrictTotalOrder();
    var labels := Keys(ties, LineMeterLabel);
    GroupGradientFails(ties, labels, StrLess, vg, solver);
    match GroupGradient(ties, labels, StrLess, vg, solver)
    case None => None
    case Some(g) =>
      GroupGradientAt(ties, labels, StrLess, vg, solver);
      Some(VgRow(None, survey, g.coefs, g.stdCoefs, g.covab, g.resid))
  }

  /** The rows of all groups in order, or `None` as soon as one group
      fails (the exception it raises ends the loop). */
  function Collect(rows: seq<Option<VgRow>>): (r: Option<seq<VgRow>>)
  {
    if rows == [] then Some([])
    else if rows[0].None? then None
    else Append([rows[0].value], Collect(rows[1..]))
  }

  function Append(rows: seq<VgRow>, rest: Option<seq<VgRow>>): Option<seq<VgRow>> {
    match rest
    case None => None
    case Some(more) => Some(rows + more)
  }

  /** `Collect` succeeds exactly when every group does, and then keeps
      every row in order. */
  lemma {:induction false} CollectAt(rows: seq<Option<VgRow>>)
    ensures Collect(rows).Some? <==> forall i :: 0 <= i < |rows| ==> rows[i].Some?
    ensures Collect(rows).Some? ==>
      |Collect(rows).value| == |rows| &&
      forall i :: 0 <= i < |rows| ==> Some(Collect(rows).value[i]) == rows[i]
  {
    if rows != [] {
      CollectAt(rows[1..]);
      assert forall i :: 1 <= i < |rows| ==> rows[1..][i - 1] == rows[i];
    }
  }

  lemma AppendNil(rest: Option<seq<VgRow>>)
    ensures Append([], rest) == rest
  {
    if rest.Some? {
      assert [] + rest.value == rest.value;
    }
  }

  lemma CollectStep(rows: seq<Option<VgRow>>, done: seq<VgRow>, i: nat)
    requires i < |rows|
    ensures rows[i].None? ==> Append(done, Collect(rows[i..])) == None
    ensures rows[i].Some? ==>
      Append(done, Collect(rows[i..])) == Append(done + [rows[i].value], Collect(rows[i + 1..]))
  {
    assert rows[i..][0] == rows[i] && rows[i..][1..] == rows[i + 1..];
    if rows[i].Some? {
      match Collect(rows[i + 1..])
      case None =>
      case Some(more) => assert done + ([rows[i].value] + more) == done + [rows[i].value] + more;
    }
  }

  function SurveyRows(groups: seq<Group<string, Tie>>, vg: nat, solver: Solver): (rows: seq<Option<VgRow>>)
    ensures |rows| == |groups|
  {
    seq(|groups|, i requires 0 <= i < |groups| => SurveyRow(groups[i].key, groups[i].members, vg, solver))
  }

  function VgTable(ties: seq<Tie>, vg: nat, solver: Solver): Option<seq<VgRow>> {
    Collect(SurveyRows(TieSurveyGroups(ties), vg, solver))
  }

  /** Each `get_vg` row names its survey and carries `vg_max_degree`
      coefficients; the survey names increase down the table. */
  lemma VgTableRows(ties: seq<Tie>, vg: nat, solver: Solver)
    requires VgTable(ties, vg, solver).Some?
    ensures var rows := VgTable(ties, vg, solver).value;
      && |rows| == |TieSurveyGroups(ties)|
      && (forall i :: 0 <= i < |rows| ==>
            rows[i].meter.None? && rows[i].survey == TieSurveyGroups(ties)[i].key
            && |rows[i].coefs| == vg && |rows[i].stdCoefs| == vg
            && |rows[i].resid| == 2 * |TieSurveyGroups(ties)[i].members|)
      && (forall i, j :: 0 <= i < j < |rows| ==> StrLess(rows[i].survey, rows[j].survey))
  {
    var groups := TieSurveyGroups(ties);
    var all := SurveyRows(groups, vg, solver);
    CollectAt(all);
    var rows := VgTable(ties, vg, solver).value;
    forall i | 0 <= i < |rows|
      ensures rows[i].meter.None? && rows[i].survey == groups[i].key
      ensures |rows[i].coefs| == vg && |rows[i].stdCoefs| == vg
      ensures |rows[i].resid| == 2 * |groups[i].members|
    {
      assert Some(rows[i]) == all[i] == SurveyRow(groups[i].key, groups[i].members, vg, solver);
    }
  }

  /** With a polynomial of degree at least one `get_vg` never fails; with
      degree 0 it fails exactly when some survey has a single (line,
      meter) pair. */
  lemma VgTableFails(ties: seq<Tie>, vg: nat, solver: Solver)
    ensures VgTable(ties, vg, solver).None? <==>
      exists i :: 0 <= i < |TieSurveyGroups(ties)| &&
        vg == 0 && SurveyLineCount(TieSurveyGroups(ties)[i].members) == 1
  {
    var groups := TieSurveyGroups(ties);
    var all := SurveyRows(groups, vg, solver);
    CollectAt(all);
    forall i | 0 <= i < |groups|
      ensures all[i].None? <==> vg == 0 && SurveyLineCount(groups[i].members) == 1
    {
      var members := groups[i].members;
      StrLessIsStrictTotalOrder();
      assert LineMeterLabel(members[0]) in SortedDistinct(Keys(members, LineMeterLabel), StrLess);
    }
  }

  /** The loop of `get_vg` over survey groups, concatenating one row per
      group; the first failing group ends the call. */
  method GradientStage(ties: seq<Tie>, vg: nat, solver: Solver) returns (r: Option<seq<VgRow>>)
    ensures r == VgTable(ties, vg, solver)
  {
    var groups := TieSurveyGroups(ties);
    ghost var all := SurveyRows(groups, vg, solver);
    var rows: seq<VgRow> := [];
    var i := 0;
    assert all[i..] == all;
    AppendNil(VgTable(ties, vg, solver));
    while i < |groups|
      invariant 0 <= i <= |groups|
      invariant VgTable(ties, vg, solver) == Append(rows, Collect(all[i..]))
    {
      var row := SurveyRow(groups[i].key, groups[i].members, vg, solver);
      assert row == all[i];
      CollectStep(all, rows, i);
      if row.None? {
        assert VgTable(ties, vg, solver) == None;
        return None;
      }
      rows := rows + [row.value];
      i := i + 1;
    }
    assert all[i..] == [];
    assert VgTable(ties, vg, solver) == Some(rows + []);
    assert rows + [] == rows;
    r := Some(rows);
  }

  // ---------------------------------------------------------------------
  // `get_vg_by_meter`: one row per (meter, survey), lines labelled by number.

  /** `ties.groupby(['meter', 'survey'])`. */
  function TieMeterGroups(ties: seq<Tie>): (groups: seq<Group<(int, string), Tie>>)
    ensures forall i :: 0 <= i < |groups| ==> |groups[i].members| > 0
  {
    PairLessIsStrictTotalOrder();
    GroupBy(ties, MeterSurveyOfTie, PairLess)
  }

  /** Number of dummy columns of a (meter, survey) group: its distinct lines. */
  function MeterLineCount(ties: seq<Tie>): nat {
    IntLessIsStrictTotalOrder();
    |SortedDistinct(Keys(ties, LineOfTie), IntLess)|
  }

  function MeterRow(meter: int, survey: string, ties: seq<Tie>, vg: nat, solver: Solver): (r: Option<VgRow>)
    ensures r.None? <==> vg + MeterLineCount(ties) < 2
    ensures r.Some? ==>
      && r.value.meter == Some(meter) && r.value.survey == survey
      && |r.value.coefs| == vg && |r.value.stdCoefs| == vg && |r.value.resid| == 2 * |ties|
  {
    IntLessIsStrictTotalOrder();
    var labels := Keys(ties, LineOfTie);
    GroupGradientFails(ties, labels, IntLess, vg, solver);
    match GroupGradient(ties, labels, IntLess, vg, solver)
    case None => None
    case Some(g) =>
      GroupGradientAt(ties, labels, IntLess, vg, solver);
      Some(VgRow(Some(meter), survey, g.coefs, g.stdCoefs, g.covab, g.resid))
  }

  function MeterRows(groups: seq<Group<(int, string), Tie>>, vg: nat, solver: Solver): (rows: seq<Option<VgRow>>)
    ensures |rows| == |groups|
  {
    seq(|groups|, i requires 0 <= i < |groups| =>
      MeterRow(groups[i].key.0, groups[i].key.1, groups[i].members, vg, solver))
  }

  function VgTableByMeter(ties: seq<Tie>, vg: nat, solver: Solver): Option<seq<VgRow>> {
    Collect(MeterRows(TieMeterGroups(ties), vg, solver))
  }

  /** Each `get_vg_by_meter` row names its meter and survey and carries
      `vg_max_degree` coefficients; (meter, survey) keys increase down the
      table. */
  lemma VgTableByMeterRows(ties: seq<Tie>, vg: nat, solver: Solver)
    requires VgTableByMeter(ties, vg, solver).Some?
    ensures var rows := VgTableByMeter(ties, vg, solver).value;
      && |rows| == |TieMeterGroups(ties)|
      && (forall i :: 0 <= i < |rows| ==>
            rows[i].meter == Some(TieMeterGroups(ties)[i].key.0)
            && rows[i].survey == TieMeterGroups(ties)[i].key.1
            && |rows[i].coefs| == vg && |rows[i].stdCoefs| == vg
            && |rows[i].resid| == 2 * |TieMeterGroups(ties)[i].members|)
      && (forall i, j :: 0 <= i < j < |rows| ==>
            PairLess((rows[i].meter.value, rows[i].survey), (rows[j].meter.value, rows[j].survey)))
  {
    var groups := TieMeterGroups(ties);
    var all := MeterRows(groups, vg, solver);
    CollectAt(all);
    var rows := VgTableByMeter(ties, vg, solver).value;
    forall i | 0 <= i < |rows|
      ensures rows[i].meter == Some(groups[i].key.0) && rows[i].survey == groups[i].key.1
      ensures |rows[i].coefs| == vg && |rows[i].stdCoefs| == vg
      ensures |rows[i].resid| == 2 * |groups[i].members|
    {
      assert Some(rows[i]) == all[i] == MeterRow(groups[i].key.0, groups[i].key.1, groups[i].members, vg, solver);
    }
  }

  /** `get_vg_by_meter` fails exactly when `vg_max_degree` is 0 and some
      (meter, survey) group has a single line. */
  lemma VgTableByMeterFails(ties: seq<Tie>, vg: nat, solver: Solver)
    ensures VgTableByMeter(ties, vg, solver).None? <==>
      exists i :: 0 <= i < |TieMeterGroups(ties)| &&
        vg == 0 && MeterLineCount(TieMeterGroups(ties)[i].members) == 1
  {
    var groups := TieMeterGroups(ties);
    var all := MeterRows(groups, vg, solver);
    CollectAt(all);
    forall i | 0 <= i < |groups|
      ensures all[i].None? <==> vg == 0 && MeterLineCount(groups[i].members) == 1
    {
      var members := groups[i].members;
      IntLessIsStrictTotalOrder();
      assert LineOfTie(members[0]) in SortedDistinct(Keys(members, LineOfTie), IntLess);
    }
  }

  method GradientStageByMeter(ties: seq<Tie>, vg: nat, solver: Solver) returns (r: Option<seq<VgRow>>)
    ensures r == VgTableByMeter(ties, vg, solver)
  {
    var groups := TieMeterGroups(ties);
    ghost var all := MeterRows(groups, vg, solver);
    var rows: seq<VgRow> := [];
    var i := 0;
    assert all[i..] == all;
    AppendNil(VgTableByMeter(ties, vg, solver));
    while i < |groups|
      invariant 0 <= i <= |groups|
      invariant VgTableByMeter(ties, vg, solver) == Append(rows, Collect(all[i..]))
    {
      var row := MeterRow(groups[i].key.0, groups[i].key.1, groups[i].members, vg, solver);
      assert row == all[i];
      CollectStep(all, rows, i);
      if row.None? {
        assert VgTableByMeter(ties, vg, solver) == None;
        return None;
      }
      rows := rows + [row.value];
      i := i + 1;
    }
    assert all[i..] == [];
    assert VgTableByMeter(ties, vg, solver) == Some(rows + []);
    assert rows + [] == rows;
    r := Some(rows);
  }

  // ---------------------------------------------------------------------
  // The two entry points.

  /** `(ties, vg)` as returned. */
  datatype VgResult = VgResult(ties: seq<Tie>, vg: seq<VgRow>)

  /** `get_vg`: the tie table, then the per-survey gradient table; `None`
      stands for the `IndexError` a one-column gradient design raises. */
  method GetVg(readings: seq<Reading>, maxDegree: nat, vgMaxDegree: nat, solver: Solver)
    returns (r: Option<VgResult>)
    ensures r.None? <==> VgTable(TieTable(readings, maxDegree, solver), vgMaxDegree, solver).None?
    ensures r.Some? ==>
      (r.value.ties == TieTable(readings, maxDegree, solver) &&
       Some(r.value.vg) == VgTable(r.value.ties, vgMaxDegree, solver))
  {
    var ties := TieStage(readings, maxDegree, solver);
    var vg := GradientStage(ties, vgMaxDegree, solver);
    if vg.None? {
      return None;
    }
    r := Some(VgResult(ties, vg.value));
  }

  /** `get_vg_by_meter`: the same tie table, then one gradient row per
      (meter, survey). */
  method GetVgByMeter(readings: seq<Reading>, maxDegree: nat, vgMaxDegree: nat, solver: Solver)
    returns (r: Option<VgResult>)
    ensures r.None? <==> VgTableByMeter(TieTable(readings, maxDegree, solver), vgMaxDegree, solver).None?
    ensures r.Some? ==>
      (r.value.ties == TieTable(readings, maxDegree, solver) &&
       Some(r.value.vg) == VgTableByMeter(r.value.ties, vgMaxDegree, solver))
  {
    var ties := TieStage(readings, maxDegree, solver);
    var vg := GradientStageByMeter(ties, vgMaxDegree, solver);
    if vg.None? {
      return None;
    }
    r := Some(VgResult(ties, vg.value));
  }
}
