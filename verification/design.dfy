/** Design-matrix construction shared by both fitting stages: numpy's
    `vander`, 0/1 indicator (dummy) blocks, horizontal concatenation,
    row repetition, and the regression solver treated as an opaque
    function with a shape contract. */
module Design {

  /** A numeric matrix with its column count (numpy keeps the width of a
      matrix even when it has no columns or no rows). */
  datatype Matrix = Matrix(width: nat, rows: seq<seq<real>>) {
    predicate Valid() {
      forall i :: 0 <= i < |rows| ==> |rows[i]| == width
    }
    function Height(): nat { |rows| }
  }

  function Pow(x: real, k: nat): real {
    if k == 0 then 1.0 else x * Pow(x, k - 1)
  }

  /** One row of `np.vander(x, n)`: the powers of `x` from `n - 1` down to 0. */
  function Powers(x: real, n: nat): (r: seq<real>)
    ensures |r| == n
  {
    if n == 0 then [] else [Pow(x, n - 1)] + Powers(x, n - 1)
  }

  /** Column `j` of a Vandermonde row holds the power `n - 1 - j`: powers
      descend, each entry is `x` times its right neighbour, and the last
      entry is the constant 1. */
  lemma {:induction false} PowersAt(x: real, n: nat, j: nat)
    requires j < n
    ensures Powers(x, n)[j] == Pow(x, n - 1 - j)
    ensures j == n - 1 ==> Powers(x, n)[j] == 1.0
    ensures j < n - 1 ==> Powers(x, n)[j] == x * Powers(x, n)[j + 1]
  {
    if j > 0 {
      PowersAt(x, n - 1, j - 1);
    }
    if j < n - 1 {
      PowersAt(x, n - 1, j);
    }
  }

  /** `np.vander(xs, n)`: one row of descending powers per sample. */
  function Vander(xs: seq<real>, n: nat): (m: Matrix)
    ensures m.Valid() && m.width == n && m.Height() == |xs|
  {
    Matrix(n, seq(|xs|, i requires 0 <= i < |xs| => Powers(xs[i], n)))
  }

  /** `m[:, :-1]`: every column but the last. */
  function DropLastColumn(m: Matrix): (r: Matrix)
    requires m.Valid() && m.width > 0
    ensures r.Valid() && r.width == m.width - 1 && r.Height() == m.Height()
    ensures forall i, j :: 0 <= i < |m.rows| && 0 <= j < r.width ==> r.rows[i][j] == m.rows[i][j]
  {
    Matrix(m.width - 1, seq(|m.rows|, i requires 0 <= i < |m.rows| => m.rows[i][..m.width - 1]))
  }

  /** `np.concatenate((a, b), axis=1)`: the columns of `a` followed by those of `b`. */
  function HConcat(a: Matrix, b: Matrix): (m: Matrix)
    requires a.Valid() && b.Valid() && a.Height() == b.Height()
    ensures m.Valid() && m.width == a.width + b.width && m.Height() == a.Height()
  {
    Matrix(a.width + b.width, seq(|a.rows|, i requires 0 <= i < |a.rows| => a.rows[i] + b.rows[i]))
  }

  /** Entries of a concatenation: the left block's columns come first,
      the right block's follow shifted by the left width. */
  lemma HConcatAt(a: Matrix, b: Matrix, r: nat, j: nat)
    requires a.Valid() && b.Valid() && a.Height() == b.Height() && r < a.Height()
    ensures j < a.width ==> HConcat(a, b).rows[r][j] == a.rows[r][j]
    ensures j < b.width ==> HConcat(a, b).rows[r][a.width + j] == b.rows[r][j]
  {
    assert HConcat(a, b).rows[r] == a.rows[r] + b.rows[r];
  }

  function Indicator(x: bool): real { if x then 1.0 else 0.0 }

  /** One 0/1 row: entry `j` is 1 exactly when `v` equals `columns[j]`. */
  function OneHotRow<T(==)>(v: T, columns: seq<T>): (r: seq<real>)
    ensures |r| == |columns|
  {
    seq(|columns|, j requires 0 <= j < |columns| => Indicator(v == columns[j]))
  }

  /** The dummy block over `values`: one row per value, one column per
      entry of `columns`. */
  function OneHot<T(==)>(values: seq<T>, columns: seq<T>): (m: Matrix)
    ensures m.Valid() && m.width == |columns| && m.Height() == |values|
  {
    Matrix(|columns|, seq(|values|, i requires 0 <= i < |values| => OneHotRow(values[i], columns)))
  }

  /** Every entry of a one-hot row is 0 or 1, it is 1 exactly at the
      columns equal to the value, and when the columns are distinct at
      most one entry is 1; a value outside the columns gives a zero row
      and a value among them gives exactly one 1. */
  lemma OneHotRowShape<T>(v: T, columns: seq<T>)
    ensures forall j :: 0 <= j < |columns| ==>
      (OneHotRow(v, columns)[j] == 1.0 <==> v == columns[j]) &&
      (OneHotRow(v, columns)[j] == 0.0 <==> v != columns[j])
    ensures (forall i, j :: 0 <= i < j < |columns| ==> columns[i] != columns[j]) ==>
      forall i, j :: (0 <= i < |columns| && 0 <= j < |columns| &&
        OneHotRow(v, columns)[i] == 1.0 && OneHotRow(v, columns)[j] == 1.0) ==> i == j
    ensures v !in columns ==> forall j :: 0 <= j < |columns| ==> OneHotRow(v, columns)[j] == 0.0
    ensures v in columns ==> exists j :: 0 <= j < |columns| && OneHotRow(v, columns)[j] == 1.0
  {
    if v in columns {
      var j :| 0 <= j < |columns| && columns[j] == v;
      assert OneHotRow(v, columns)[j] == 1.0;
    }
  }

  /** `np.repeat(m, 2, axis=0)`: every row twice, in place. */
  function RepeatRowsTwice(m: Matrix): (r: Matrix)
    requires m.Valid()
    ensures r.Valid() && r.width == m.width && r.Height() == 2 * m.Height()
    decreases |m.rows|
  {
    if m.rows == [] then m
    else
      var rest := RepeatRowsTwice(Matrix(m.width, m.rows[1..]));
      Matrix(m.width, [m.rows[0], m.rows[0]] + rest.rows)
  }

  /** Rows `2i` and `2i + 1` of the repeated block are both row `i`. */
  lemma {:induction false} RepeatRowsTwiceAt(m: Matrix, i: nat)
    requires m.Valid() && i < m.Height()
    ensures RepeatRowsTwice(m).rows[2 * i] == m.rows[i]
    ensures RepeatRowsTwice(m).rows[2 * i + 1] == m.rows[i]
    decreases i
  {
    if i > 0 {
      RepeatRowsTwiceAt(Matrix(m.width, m.rows[1..]), i - 1);
    }
  }

  /** The regression result the pipeline reads: parameters, their
      standard errors, the parameter covariance matrix and the residuals. */
  datatype Fit = Fit(params: seq<real>, bse: seq<real>, cov: seq<seq<real>>, resid: seq<real>)

  /** The only promise the robust fit makes here: one parameter and one
      standard error per design column, a square covariance matrix over
      the parameters, one residual per observation. */
  ghost predicate FitsShape(fit: Fit, x: Matrix) {
    && |fit.params| == x.width
    && |fit.bse| == x.width
    && |fit.cov| == x.width
    && (forall i :: 0 <= i < |fit.cov| ==> |fit.cov[i]| == x.width)
    && |fit.resid| == x.Height()
  }

  function ZeroFit(x: Matrix): (fit: Fit)
    ensures FitsShape(fit, x)
  {
    var zeros := seq(x.width, j => 0.0);
    Fit(zeros, zeros, seq(x.width, i => zeros), seq(x.Height(), i => 0.0))
  }

  /** `sm.RLM(y, x).fit()`, left uninterpreted: any function that honours
      the shape contract on well-formed input. */
  type Solver = f: (Matrix, seq<real>) -> Fit
    | forall x: Matrix, y: seq<real> :: x.Valid() && |y| == x.Height() ==> FitsShape(f(x, y), x)
    witness (x: Matrix, y: seq<real>) => ZeroFit(x)
}
