/** The 3x3 matrix statistics of `mean_variance_std/main.py`: a list of nine
    numbers is laid out row-major as a 3x3 matrix, and each statistic is
    reported along axis 0 (one value per column), along axis 1 (one value
    per row) and over the whole matrix.

    The matrix is kept as the list itself: entry (r, c) of
    `np.array(list).reshape(3, 3)` is `list[3 * r + c]`. */
module MeanVarianceStd {
  import opened Outcome
  import opened Reductions

  /** `np.array(list).reshape(3, 3)` in numpy's nested `tolist()` form. */
  function Reshape(list: seq<int>): (m: seq<seq<int>>)
    requires |list| == 9
    ensures |m| == 3 && forall r :: 0 <= r < 3 ==> |m[r]| == 3
    ensures forall r, c :: 0 <= r < 3 && 0 <= c < 3 ==> m[r][c] == list[3 * r + c]
    ensures m[0] + m[1] + m[2] == list
  {
    [list[0..3], list[3..6], list[6..9]]
  }

  /** Row `r`, left to right: the line that an `axis=1` reduction sees. */
  function Row(list: seq<int>, r: int): (row: seq<int>)
    requires |list| == 9 && 0 <= r < 3
    ensures |row| == 3
    ensures forall c :: 0 <= c < 3 ==> row[c] == list[3 * r + c]
  {
    list[3 * r .. 3 * r + 3]
  }

  /** Column `c`, top to bottom: the line that an `axis=0` reduction sees. */
  function Column(list: seq<int>, c: int): (col: seq<int>)
    requires |list| == 9 && 0 <= c < 3
    ensures |col| == 3
    ensures forall r :: 0 <= r < 3 ==> col[r] == list[3 * r + c]
  {
    [list[c], list[3 + c], list[6 + c]]
  }

  /** The lines that the reductions see are those of the reshaped matrix:
      row `r` is `matrix[r]` and column `c` collects `matrix[r][c]` over `r`. */
  lemma LinesOfReshape(list: seq<int>)
    requires |list| == 9
    ensures forall r :: 0 <= r < 3 ==> Row(list, r) == Reshape(list)[r]
    ensures forall r, c :: 0 <= r < 3 && 0 <= c < 3 ==> Column(list, c)[r] == Reshape(list)[r][c]
  {
    var m := Reshape(list);
    forall r | 0 <= r < 3
      ensures Row(list, r) == m[r]
    {
      assert forall c :: 0 <= c < 3 ==> Row(list, r)[c] == m[r][c];
    }
  }

  /** The three results of a statistic, in the order the source lists them:
      `[axis=0 (per column), axis=1 (per row), whole matrix]`. */
  datatype Aggregate<T> = Aggregate(columns: seq<T>, rows: seq<T>, overall: T)

  /** `np.sum`: the column sums, the row sums and the total agree with each other. */
  function SumAxes(list: seq<int>): (a: Aggregate<int>)
    requires |list| == 9
    ensures |a.columns| == 3 && |a.rows| == 3
    ensures forall c {:trigger a.columns[c]} :: 0 <= c < 3 ==> a.columns[c] == list[c] + list[3 + c] + list[6 + c]
    ensures forall r :: 0 <= r < 3 ==> a.rows[r] == list[3 * r] + list[3 * r + 1] + list[3 * r + 2]
    ensures a.overall == Sum(list)
    ensures Sum(a.columns) == a.overall && Sum(a.rows) == a.overall
  {
    var columns := [Sum(Column(list, 0)), Sum(Column(list, 1)), Sum(Column(list, 2))];
    var rows := [Sum(Row(list, 0)), Sum(Row(list, 1)), Sum(Row(list, 2))];
    ColumnSums(list);
    RowSums(list);
    TotalOfRows(list);
    SumOfThree(columns);
    SumOfThree(rows);
    Aggregate(columns, rows, Sum(list))
  }

  /** Each column's sum, written out. */
  lemma ColumnSums(list: seq<int>)
    requires |list| == 9
    ensures forall c {:trigger Column(list, c)} :: 0 <= c < 3 ==> Sum(Column(list, c)) == list[c] + list[3 + c] + list[6 + c]
  {
    forall c | 0 <= c < 3
      ensures Sum(Column(list, c)) == list[c] + list[3 + c] + list[6 + c]
    {
      SumOfThree(Column(list, c));
    }
  }

  /** Each row's sum, written out. */
  lemma RowSums(list: seq<int>)
    requires |list| == 9
    ensures forall r :: 0 <= r < 3 ==> Sum(Row(list, r)) == list[3 * r] + list[3 * r + 1] + list[3 * r + 2]
  {
    forall r | 0 <= r < 3
      ensures Sum(Row(list, r)) == list[3 * r] + list[3 * r + 1] + list[3 * r + 2]
    {
      SumOfThree(Row(list, r));
    }
  }

  /** The total is the sum of the three row sums. */
  lemma TotalOfRows(list: seq<int>)
    requires |list| == 9
    ensures Sum(list) == Sum(Row(list, 0)) + Sum(Row(list, 1)) + Sum(Row(list, 2))
  {
    var a, b, c := Row(list, 0), Row(list, 1), Row(list, 2);
    assert list == a + b + c;
    SumConcat(a + b, c);
    SumConcat(a, b);
  }

  /** `x` is the largest entry of `line`: it occurs in it and bounds it from above. */
  predicate IsMaxOf(x: int, line: seq<int>)
  {
    x in line && forall i :: 0 <= i < |line| ==> line[i] <= x
  }

  /** `x` is the smallest entry of `line`: it occurs in it and bounds it from below. */
  predicate IsMinOf(x: int, line: seq<int>)
  {
    x in line && forall i :: 0 <= i < |line| ==> x <= line[i]
  }

  /** `np.max`: each column's and each row's maximum is the largest entry of
      that line, and the overall maximum is the largest entry of the matrix,
      of the column maxima and of the row maxima. */
  function MaxAxes(list: seq<int>): (a: Aggregate<int>)
    requires |list| == 9
    ensures |a.columns| == 3 && |a.rows| == 3
    ensures forall c :: 0 <= c < 3 ==> IsMaxOf(a.columns[c], Column(list, c))
    ensures forall r :: 0 <= r < 3 ==> IsMaxOf(a.rows[r], Row(list, r))
    ensures IsMaxOf(a.overall, list)
    ensures IsMaxOf(a.overall, a.columns) && IsMaxOf(a.overall, a.rows)
  {
    var columns := seq(3, c requires 0 <= c < 3 => Max(Column(list, c)));
    var rows := seq(3, r requires 0 <= r < 3 => Max(Row(list, r)));
    MaxOfLineMaxima(list, columns, rows);
    Aggregate(columns, rows, Max(list))
  }

  /** `np.min`: each column's and each row's minimum is the smallest entry of
      that line, and the overall minimum is the smallest entry of the matrix,
      of the column minima and of the row minima. */
  function MinAxes(list: seq<int>): (a: Aggregate<int>)
    requires |list| == 9
    ensures |a.columns| == 3 && |a.rows| == 3
    ensures forall c :: 0 <= c < 3 ==> IsMinOf(a.columns[c], Column(list, c))
    ensures forall r :: 0 <= r < 3 ==> IsMinOf(a.rows[r], Row(list, r))
    ensures IsMinOf(a.overall, list)
    ensures IsMinOf(a.overall, a.columns) && IsMinOf(a.overall, a.rows)
  {
    var columns := seq(3, c requires 0 <= c < 3 => Min(Column(list, c)));
    var rows := seq(3, r requires 0 <= r < 3 => Min(Row(list, r)));
    MinOfLineMinima(list, columns, rows);
    Aggregate(columns, rows, Min(list))
  }

  /** Every entry of the list sits in one column and one row. */
  lemma EntryPosition(list: seq<int>, k: int)
    requires |list| == 9 && 0 <= k < 9
    ensures list[k] == Column(list, k % 3)[k / 3]
    ensures list[k] == Row(list, k / 3)[k % 3]
  {
  }

  /** Whatever the line maxima are, the largest entry of the matrix is the
      largest of them, along either axis. */
  lemma {:induction false} MaxOfLineMaxima(list: seq<int>, columns: seq<int>, rows: seq<int>)
    requires |list| == 9 && |columns| == 3 && |rows| == 3
    requires forall c :: 0 <= c < 3 ==> IsMaxOf(columns[c], Column(list, c))
    requires forall r :: 0 <= r < 3 ==> IsMaxOf(rows[r], Row(list, r))
    ensures IsMaxOf(Max(list), columns) && IsMaxOf(Max(list), rows)
  {
    var x := Max(list);
    var k :| 0 <= k < 9 && list[k] == x;
    EntryPosition(list, k);
    forall c | 0 <= c < 3
      ensures columns[c] <= x
    {
      var r :| 0 <= r < 3 && Column(list, c)[r] == columns[c];
      assert list[3 * r + c] == columns[c];
    }
    forall r | 0 <= r < 3
      ensures rows[r] <= x
    {
      var c :| 0 <= c < 3 && Row(list, r)[c] == rows[r];
      assert list[3 * r + c] == rows[r];
    }
    assert columns[k % 3] == x;
    assert rows[k / 3] == x;
  }

  /** Whatever the line minima are, the smallest entry of the matrix is the
      smallest of them, along either axis. */
  lemma {:induction false} MinOfLineMinima(list: seq<int>, columns: seq<int>, rows: seq<int>)
    requires |list| == 9 && |columns| == 3 && |rows| == 3
    requires forall c :: 0 <= c < 3 ==> IsMinOf(columns[c], Column(list, c))
    requires forall r :: 0 <= r < 3 ==> IsMinOf(rows[r], Row(list, r))
    ensures IsMinOf(Min(list), columns) && IsMinOf(Min(list), rows)
  {
    var x := Min(list);
    var k :| 0 <= k < 9 && list[k] == x;
    EntryPosition(list, k);
    forall c | 0 <= c < 3
      ensures x <= columns[c]
    {
      var r :| 0 <= r < 3 && Column(list, c)[r] == columns[c];
      assert list[3 * r + c] == columns[c];
    }
    forall r | 0 <= r < 3
      ensures x <= rows[r]
    {
      var c :| 0 <= c < 3 && Row(list, r)[c] == rows[r];
      assert list[3 * r + c] == rows[r];
    }
    assert columns[k % 3] == x;
    assert rows[k / 3] == x;
  }

  /** `np.mean`: each line's mean is its sum over 3, the overall mean is the
      total over 9, and the overall mean is also the mean of the column means
      and the mean of the row means. */
  function MeanAxes(list: seq<int>): (a: Aggregate<real>)
    requires |list| == 9
    ensures |a.columns| == 3 && |a.rows| == 3
    ensures forall c {:trigger a.columns[c]} :: 0 <= c < 3 ==>
      a.columns[c] == (list[c] + list[3 + c] + list[6 + c]) as real / 3.0
    ensures forall r {:trigger a.rows[r]} :: 0 <= r < 3 ==>
      a.rows[r] == (list[3 * r] + list[3 * r + 1] + list[3 * r + 2]) as real / 3.0
    ensures a.overall == Sum(list) as real / 9.0
    ensures (a.columns[0] + a.columns[1] + a.columns[2]) / 3.0 == a.overall
    ensures (a.rows[0] + a.rows[1] + a.rows[2]) / 3.0 == a.overall
  {
    var sums := SumAxes(list);
    var columns := seq(3, c requires 0 <= c < 3 => sums.columns[c] as real / 3.0);
    var rows := seq(3, r requires 0 <= r < 3 => sums.rows[r] as real / 3.0);
    SumOfThree(sums.columns);
    SumOfThree(sums.rows);
    MeanOfThirds(sums.columns[0], sums.columns[1], sums.columns[2]);
    MeanOfThirds(sums.rows[0], sums.rows[1], sums.rows[2]);
    Aggregate(columns, rows, Sum(list) as real / 9.0)
  }

  /** The mean of three thirds is the whole over nine. */
  lemma MeanOfThirds(x: int, y: int, z: int)
    ensures (x as real / 3.0 + y as real / 3.0 + z as real / 3.0) / 3.0 == (x + y + z) as real / 9.0
  {
  }

  /** Each entry of `MeanAxes` is `Mean` of its line. */
  lemma MeanAxesAreMeans(list: seq<int>)
    requires |list| == 9
    ensures forall c :: 0 <= c < 3 ==> MeanAxes(list).columns[c] == Mean(Column(list, c))
    ensures forall r :: 0 <= r < 3 ==> MeanAxes(list).rows[r] == Mean(Row(list, r))
    ensures MeanAxes(list).overall == Mean(list)
  {
    var m := MeanAxes(list);
    forall c | 0 <= c < 3
      ensures m.columns[c] == Mean(Column(list, c))
    {
      SumOfThree(Column(list, c));
    }
    forall r | 0 <= r < 3
      ensures m.rows[r] == Mean(Row(list, r))
    {
      SumOfThree(Row(list, r));
    }
  }

  /** `np.var` (population, divisor N) of each column, each row and the
      whole matrix: every variance is non-negative, and it is zero exactly
      when the entries of its line are all equal. */
  function VarianceAxes(list: seq<int>): (a: Aggregate<real>)
    requires |list| == 9
    ensures |a.columns| == 3 && |a.rows| == 3
    ensures forall c :: 0 <= c < 3 ==>
      a.columns[c] >= 0.0 && (a.columns[c] == 0.0 <==> Constant(Column(list, c)))
    ensures forall r :: 0 <= r < 3 ==>
      a.rows[r] >= 0.0 && (a.rows[r] == 0.0 <==> Constant(Row(list, r)))
    ensures a.overall >= 0.0 && (a.overall == 0.0 <==> Constant(list))
  {
    var columns := seq(3, c requires 0 <= c < 3 => Variance(Column(list, c)));
    var rows := seq(3, r requires 0 <= r < 3 => Variance(Row(list, r)));
    Aggregate(columns, rows, Variance(list))
  }

  /** `v` is the mean squared deviation of `line` from `mu`. */
  predicate SpreadAround(v: real, line: seq<int>, mu: real)
  {
    |line| > 0 && v == SquaredDeviations(line, mu) / |line| as real
  }

  /** The variances and the means agree: each variance is the mean squared
      deviation of its line from the mean that `MeanAxes` reports for the
      same line. */
  lemma VarianceAroundReportedMean(list: seq<int>)
    requires |list| == 9
    ensures forall c :: 0 <= c < 3 ==>
      SpreadAround(VarianceAxes(list).columns[c], Column(list, c), MeanAxes(list).columns[c])
    ensures forall r :: 0 <= r < 3 ==>
      SpreadAround(VarianceAxes(list).rows[r], Row(list, r), MeanAxes(list).rows[r])
    ensures SpreadAround(VarianceAxes(list).overall, list, MeanAxes(list).overall)
  {
    var v, m := VarianceAxes(list), MeanAxes(list);
    forall c | 0 <= c < 3
      ensures SpreadAround(v.columns[c], Column(list, c), m.columns[c])
    {
      ColumnVariance(list, c);
    }
    forall r | 0 <= r < 3
      ensures SpreadAround(v.rows[r], Row(list, r), m.rows[r])
    {
      RowVariance(list, r);
    }
    LineVariance(list, m.overall);
  }

  lemma ColumnVariance(list: seq<int>, c: int)
    requires |list| == 9 && 0 <= c < 3
    ensures SpreadAround(VarianceAxes(list).columns[c], Column(list, c), MeanAxes(list).columns[c])
  {
    var m := MeanAxes(list);
    SumOfThree(Column(list, c));
    assert m.columns[c] == Sum(Column(list, c)) as real / 3.0;
    LineVariance(Column(list, c), m.columns[c]);
  }

  lemma RowVariance(list: seq<int>, r: int)
    requires |list| == 9 && 0 <= r < 3
    ensures SpreadAround(VarianceAxes(list).rows[r], Row(list, r), MeanAxes(list).rows[r])
  {
    var m := MeanAxes(list);
    SumOfThree(Row(list, r));
    assert m.rows[r] == Sum(Row(list, r)) as real / 3.0;
    LineVariance(Row(list, r), m.rows[r]);
  }

  lemma LineVariance(line: seq<int>, mu: real)
    requires |line| > 0 && mu == Sum(line) as real / |line| as real
    ensures SpreadAround(Variance(line), line, mu)
  {
  }

  /** The statistics the source returns, keyed as its dictionary is. */
  datatype Calculations = Calculations(
    mean: Aggregate<real>,
    variance: Aggregate<real>,
    max: Aggregate<int>,
    min: Aggregate<int>,
    sum: Aggregate<int>)

  /** `calculate(list)`: a `ValueError` unless the list has exactly nine
      numbers; otherwise every statistic of the row-major 3x3 layout, where
      column `c` holds `list[c], list[3 + c], list[6 + c]` and row `r` holds
      `list[3r], list[3r + 1], list[3r + 2]`. */
  function Calculate(list: seq<int>): (r: Result<Calculations>)
    ensures r.Err? <==> |list| != 9
    ensures r.Err? ==> r.error == ValueError
    ensures r.Ok? ==> |r.value.sum.columns| == 3 && |r.value.sum.rows| == 3
    ensures r.Ok? ==> forall c {:trigger r.value.sum.columns[c]} :: 0 <= c < 3 ==>
      r.value.sum.columns[c] == list[c] + list[3 + c] + list[6 + c]
    ensures r.Ok? ==> forall i {:trigger r.value.sum.rows[i]} :: 0 <= i < 3 ==>
      r.value.sum.rows[i] == list[3 * i] + list[3 * i + 1] + list[3 * i + 2]
    ensures r.Ok? ==> r.value.sum.overall == Sum(list)
    ensures r.Ok? ==> r.value.mean.overall == Sum(list) as real / 9.0
    ensures r.Ok? ==> IsMaxOf(r.value.max.overall, list) && IsMinOf(r.value.min.overall, list)
  {
    if |list| != 9 then Err(ValueError)
    else Ok(Calculations(MeanAxes(list), VarianceAxes(list), MaxAxes(list), MinAxes(list), SumAxes(list)))
  }

  /** The worked example `calculate([0, 1, 2, 3, 4, 5, 6, 7, 8])`. */
  lemma CalculateExample()
    ensures Calculate([0, 1, 2, 3, 4, 5, 6, 7, 8]) == Ok(Calculations(
      Aggregate([3.0, 4.0, 5.0], [1.0, 4.0, 7.0], 4.0),
      Aggregate([6.0, 6.0, 6.0], [2.0 / 3.0, 2.0 / 3.0, 2.0 / 3.0], 60.0 / 9.0),
      Aggregate([6, 7, 8], [2, 5, 8], 8),
      Aggregate([0, 1, 2], [0, 3, 6], 0),
      Aggregate([9, 12, 15], [3, 12, 21], 36)))
  {
    var list := [0, 1, 2, 3, 4, 5, 6, 7, 8];
    ExampleSums(list);
    ExampleMeans(list);
    ExampleMaxima(list);
    ExampleMinima(list);
    ExampleVariances(list);
  }

  lemma ExampleSums(list: seq<int>)
    requires |list| == 9 && forall i :: 0 <= i < 9 ==> list[i] == i
    ensures SumAxes(list) == Aggregate([9, 12, 15], [3, 12, 21], 36)
  {
    var a := SumAxes(list);
    assert a.columns == [9, 12, 15];
    assert a.rows == [3, 12, 21];
  }

  lemma ExampleMeans(list: seq<int>)
    requires |list| == 9 && forall i :: 0 <= i < 9 ==> list[i] == i
    ensures MeanAxes(list) == Aggregate([3.0, 4.0, 5.0], [1.0, 4.0, 7.0], 4.0)
  {
    var a := MeanAxes(list);
    ExampleSums(list);
    assert a.columns == [3.0, 4.0, 5.0];
    assert a.rows == [1.0, 4.0, 7.0];
  }

  lemma ExampleMaxima(list: seq<int>)
    requires |list| == 9 && forall i :: 0 <= i < 9 ==> list[i] == i
    ensures MaxAxes(list) == Aggregate([6, 7, 8], [2, 5, 8], 8)
  {
    var hi := MaxAxes(list);
    ExampleLinesAll(list);
    ExampleLineMaxima(list, hi.columns, hi.rows);
    ExampleOverallMax(list);
  }

  lemma ExampleMinima(list: seq<int>)
    requires |list| == 9 && forall i :: 0 <= i < 9 ==> list[i] == i
    ensures MinAxes(list) == Aggregate([0, 1, 2], [0, 3, 6], 0)
  {
    var lo := MinAxes(list);
    ExampleLinesAll(list);
    ExampleLineMinima(list, lo.columns, lo.rows);
    ExampleOverallMin(list);
  }

  lemma ExampleOverallMax(list: seq<int>)
    requires |list| == 9 && forall i :: 0 <= i < 9 ==> list[i] == i
    ensures MaxAxes(list).overall == 8
  {
    LastIsMax(list, MaxAxes(list).overall);
  }

  lemma ExampleOverallMin(list: seq<int>)
    requires |list| == 9 && forall i :: 0 <= i < 9 ==> list[i] == i
    ensures MinAxes(list).overall == 0
  {
    FirstIsMin(list, MinAxes(list).overall);
  }

  /** Two lines of three with the same entries are equal. */
  lemma SameLine<T>(a: seq<T>, b: seq<T>)
    requires |a| == 3 && |b| == 3
    requires forall k :: 0 <= k < 3 ==> a[k] == b[k]
    ensures a == b
  {
  }

  /** The line maxima of the example: the last entry of every line. */
  lemma ExampleLineMaxima(list: seq<int>, columns: seq<int>, rows: seq<int>)
    requires |list| == 9 && |columns| == 3 && |rows| == 3
    requires forall k :: 0 <= k < 3 ==> Column(list, k) == [k, 3 + k, 6 + k]
    requires forall k :: 0 <= k < 3 ==> Row(list, k) == [3 * k, 3 * k + 1, 3 * k + 2]
    requires forall c :: 0 <= c < 3 ==> IsMaxOf(columns[c], Column(list, c))
    requires forall r :: 0 <= r < 3 ==> IsMaxOf(rows[r], Row(list, r))
    ensures columns == [6, 7, 8] && rows == [2, 5, 8]
  {
    forall k | 0 <= k < 3
      ensures columns[k] == 6 + k && rows[k] == 3 * k + 2
    {
      LastIsMax(Column(list, k), columns[k]);
      LastIsMax(Row(list, k), rows[k]);
    }
    SameLine(columns, [6, 7, 8]);
    SameLine(rows, [2, 5, 8]);
  }

  /** The line minima of the example: the first entry of every line. */
  lemma ExampleLineMinima(list: seq<int>, columns: seq<int>, rows: seq<int>)
    requires |list| == 9 && |columns| == 3 && |rows| == 3
    requires forall k :: 0 <= k < 3 ==> Column(list, k) == [k, 3 + k, 6 + k]
    requires forall k :: 0 <= k < 3 ==> Row(list, k) == [3 * k, 3 * k + 1, 3 * k + 2]
    requires forall c :: 0 <= c < 3 ==> IsMinOf(columns[c], Column(list, c))
    requires forall r :: 0 <= r < 3 ==> IsMinOf(rows[r], Row(list, r))
    ensures columns == [0, 1, 2] && rows == [0, 3, 6]
  {
    forall k | 0 <= k < 3
      ensures columns[k] == k && rows[k] == 3 * k
    {
      FirstIsMin(Column(list, k), columns[k]);
      FirstIsMin(Row(list, k), rows[k]);
    }
    SameLine(columns, [0, 1, 2]);
    SameLine(rows, [0, 3, 6]);
  }

  lemma ExampleLinesAll(list: seq<int>)
    requires |list| == 9 && forall i :: 0 <= i < 9 ==> list[i] == i
    ensures forall k :: 0 <= k < 3 ==> Column(list, k) == [k, 3 + k, 6 + k]
    ensures forall k :: 0 <= k < 3 ==> Row(list, k) == [3 * k, 3 * k + 1, 3 * k + 2]
  {
    forall k | 0 <= k < 3
      ensures Column(list, k) == [k, 3 + k, 6 + k]
      ensures Row(list, k) == [3 * k, 3 * k + 1, 3 * k + 2]
    {
      ExampleLines(list, k);
    }
  }

  lemma ExampleLines(list: seq<int>, k: int)
    requires |list| == 9 && forall i :: 0 <= i < 9 ==> list[i] == i
    requires 0 <= k < 3
    ensures Column(list, k) == [k, 3 + k, 6 + k]
    ensures Row(list, k) == [3 * k, 3 * k + 1, 3 * k + 2]
  {
  }

  /** In a strictly increasing line the largest entry is the last. */
  lemma LastIsMax(line: seq<int>, hi: int)
    requires |line| > 0 && forall i :: 0 < i < |line| ==> line[i - 1] < line[i]
    requires IsMaxOf(hi, line)
    ensures hi == line[|line| - 1]
  {
    var i :| 0 <= i < |line| && line[i] == hi;
    Increasing(line, i, |line| - 1);
  }

  /** In a strictly increasing line the smallest entry is the first. */
  lemma FirstIsMin(line: seq<int>, lo: int)
    requires |line| > 0 && forall i :: 0 < i < |line| ==> line[i - 1] < line[i]
    requires IsMinOf(lo, line)
    ensures lo == line[0]
  {
    var j :| 0 <= j < |line| && line[j] == lo;
    Increasing(line, 0, j);
  }

  lemma {:induction false} Increasing(line: seq<int>, i: int, j: int)
    requires forall k :: 0 < k < |line| ==> line[k - 1] < line[k]
    requires 0 <= i <= j < |line|
    ensures i < j ==> line[i] < line[j]
    decreases j - i
  {
    if i < j - 1 {
      Increasing(line, i, j - 1);
    }
  }

  lemma ExampleVariances(list: seq<int>)
    requires |list| == 9 && forall i :: 0 <= i < 9 ==> list[i] == i
    ensures VarianceAxes(list) == Aggregate([6.0, 6.0, 6.0], [2.0 / 3.0, 2.0 / 3.0, 2.0 / 3.0], 60.0 / 9.0)
  {
    var v := VarianceAxes(list);
    ExampleLinewiseVariances(list);
    ExampleOverallVariance(list);
    SameLine(v.columns, [6.0, 6.0, 6.0]);
    SameLine(v.rows, [2.0 / 3.0, 2.0 / 3.0, 2.0 / 3.0]);
  }

  lemma ExampleLinewiseVariances(list: seq<int>)
    requires |list| == 9 && forall i :: 0 <= i < 9 ==> list[i] == i
    ensures forall k :: 0 <= k < 3 ==> VarianceAxes(list).columns[k] == 6.0 && VarianceAxes(list).rows[k] == 2.0 / 3.0
  {
    var v, m := VarianceAxes(list), MeanAxes(list);
    VarianceAroundReportedMean(list);
    ExampleMeans(list);
    forall k | 0 <= k < 3
      ensures v.columns[k] == 6.0 && v.rows[k] == 2.0 / 3.0
    {
      assert SpreadAround(v.columns[k], Column(list, k), m.columns[k]);
      assert SpreadAround(v.rows[k], Row(list, k), m.rows[k]);
      ExampleLineVariances(list, k, v.columns[k], v.rows[k]);
    }
  }

  lemma ExampleLineVariances(list: seq<int>, k: int, colVar: real, rowVar: real)
    requires |list| == 9 && forall i :: 0 <= i < 9 ==> list[i] == i
    requires 0 <= k < 3
    requires SpreadAround(colVar, Column(list, k), (3 + k) as real)
    requires SpreadAround(rowVar, Row(list, k), (3 * k + 1) as real)
    ensures colVar == 6.0 && rowVar == 2.0 / 3.0
  {
    ExampleLines(list, k);
    SquaredDeviationsOfThree(Column(list, k), (3 + k) as real);
    SquaredDeviationsOfThree(Row(list, k), (3 * k + 1) as real);
  }

  lemma ExampleOverallVariance(list: seq<int>)
    requires |list| == 9 && forall i :: 0 <= i < 9 ==> list[i] == i
    ensures VarianceAxes(list).overall == 60.0 / 9.0
  {
    VarianceAroundReportedMean(list);
    ExampleMeans(list);
    ExampleSquaredDeviations(list);
  }

  lemma ExampleSquaredDeviations(list: seq<int>)
    requires |list| == 9 && forall i :: 0 <= i < 9 ==> list[i] == i
    ensures SquaredDeviations(list, 4.0) == 60.0
  {
    var a, b, c := Row(list, 0), Row(list, 1), Row(list, 2);
    ExampleLines(list, 0);
    ExampleLines(list, 1);
    ExampleLines(list, 2);
    assert list == a + b + c;
    SquaredDeviationsConcat(a + b, c, 4.0);
    SquaredDeviationsConcat(a, b, 4.0);
    SquaredDeviationsOfThree(a, 4.0);
    SquaredDeviationsOfThree(b, 4.0);
    SquaredDeviationsOfThree(c, 4.0);
  }
}
