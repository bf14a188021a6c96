/**
 * The second stage of `FilterOutLiers`: a two-way analysis of variance over
 * the rows of the table, R rows by C columns. Rows are the observations and
 * columns the attributes; every aggregate is taken over exact reals.
 */
module TwoWayAnova {
  import opened Statistics
  import opened DataTable

  /** Every row has `w` cells. */
  predicate Rectangular(rows: seq<seq<real>>, w: nat)
  {
    forall i :: 0 <= i < |rows| ==> |rows[i]| == w
  }

  /** `sumOfRows`: the total of every row. */
  function RowSums(rows: seq<seq<real>>): (r: seq<real>)
    ensures |r| == |rows|
    ensures forall i :: 0 <= i < |rows| ==> r[i] == Sum(rows[i])
  {
    if rows == [] then [] else [Sum(rows[0])] + RowSums(rows[1..])
  }

  /** `meanOfRows`: the mean of every row. */
  function RowMeans(rows: seq<seq<real>>): (r: seq<real>)
    requires forall i :: 0 <= i < |rows| ==> |rows[i]| > 0
    ensures |r| == |rows|
    ensures forall i :: 0 <= i < |rows| ==> r[i] == Average(rows[i])
  {
    if rows == [] then [] else [Average(rows[0])] + RowMeans(rows[1..])
  }

  /** `varianceOfRows`: `CalculateVariance` of every row. */
  function RowVariances(rows: seq<seq<real>>): (r: seq<real>)
    requires forall i :: 0 <= i < |rows| ==> |rows[i]| > 0
    ensures |r| == |rows|
    ensures forall i :: 0 <= i < |rows| ==> r[i] == Variance(rows[i])
  {
    if rows == [] then [] else [Variance(rows[0])] + RowVariances(rows[1..])
  }

  /** The sum of squares of every row: `row.Select(d => Math.Pow(d, 2)).Sum()`. */
  function SquareSums(rows: seq<seq<real>>): (r: seq<real>)
    ensures |r| == |rows|
    ensures forall i :: 0 <= i < |rows| ==> r[i] == SumOfSquares(rows[i])
  {
    if rows == [] then [] else [SumOfSquares(rows[0])] + SquareSums(rows[1..])
  }

  /** The cells of column `j`, one per row: `dataTable.AsEnumerable().Select(row => row[col])`. */
  function Column(rows: seq<seq<real>>, j: nat): (c: seq<real>)
    requires forall i :: 0 <= i < |rows| ==> j < |rows[i]|
    ensures |c| == |rows|
    ensures forall i :: 0 <= i < |rows| ==> c[i] == rows[i][j]
  {
    if rows == [] then [] else [rows[0][j]] + Column(rows[1..], j)
  }

  /** Columns j, j + 1, ..., w - 1, each as a sequence. */
  function ColumnsFrom(rows: seq<seq<real>>, j: nat, w: nat): (cs: seq<seq<real>>)
    requires j <= w && Rectangular(rows, w)
    ensures |cs| == w - j
    ensures forall k :: 0 <= k < w - j ==> cs[k] == Column(rows, j + k)
    decreases w - j
  {
    if j == w then [] else [Column(rows, j)] + ColumnsFrom(rows, j + 1, w)
  }

  /** The columns of a table whose rows have `w` cells: `dataTable.Columns`, each with its cells. */
  function Transpose(rows: seq<seq<real>>, w: nat): (cs: seq<seq<real>>)
    requires Rectangular(rows, w)
    ensures |cs| == w && Rectangular(cs, |rows|)
    ensures forall j, i :: 0 <= j < w && 0 <= i < |rows| ==> cs[j][i] == rows[i][j]
  {
    ColumnsFrom(rows, 0, w)
  }

  /** Every cell in row order: `SelectMany(row => row.ItemArray)`. */
  function Cells(rows: seq<seq<real>>): seq<real>
  {
    if rows == [] then [] else rows[0] + Cells(rows[1..])
  }

  /** `deviations`: every cell less the mean of its row. */
  function DeviationTable(rows: seq<seq<real>>): (d: seq<seq<real>>)
    requires forall i :: 0 <= i < |rows| ==> |rows[i]| > 0
    ensures |d| == |rows|
    ensures forall i :: 0 <= i < |rows| ==> d[i] == Deviations(rows[i], Average(rows[i]))
  {
    if rows == [] then [] else [Deviations(rows[0], Average(rows[0]))] + DeviationTable(rows[1..])
  }

  /** Every cell less a common centre `g`. */
  function DeviationsFrom(rows: seq<seq<real>>, g: real): (d: seq<seq<real>>)
    ensures |d| == |rows|
    ensures forall i :: 0 <= i < |rows| ==> d[i] == Deviations(rows[i], g)
  {
    if rows == [] then [] else [Deviations(rows[0], g)] + DeviationsFrom(rows[1..], g)
  }

  /** The squares of every cell. */
  function SquaresTable(rows: seq<seq<real>>): (r: seq<seq<real>>)
    ensures |r| == |rows|
    ensures forall i :: 0 <= i < |rows| ==> r[i] == Squares(rows[i])
  {
    if rows == [] then [] else [Squares(rows[0])] + SquaresTable(rows[1..])
  }

  /** Every row without its first `j` cells. */
  function Drop(rows: seq<seq<real>>, j: nat): (r: seq<seq<real>>)
    requires forall i :: 0 <= i < |rows| ==> j <= |rows[i]|
    ensures |r| == |rows|
    ensures forall i :: 0 <= i < |rows| ==> r[i] == rows[i][j..]
  {
    if rows == [] then [] else [rows[0][j..]] + Drop(rows[1..], j)
  }

  /** A table of R rows of `w` cells has R w cells. */
  lemma {:induction false} CellCount(rows: seq<seq<real>>, w: nat)
    requires Rectangular(rows, w)
    ensures |Cells(rows)| == |rows| * w
  {
    if rows != [] {
      CellCount(rows[1..], w);
    }
  }

  /** The total of the row sums is the total of all cells. */
  lemma {:induction false} RowSumsTotal(rows: seq<seq<real>>)
    ensures Sum(RowSums(rows)) == Sum(Cells(rows))
  {
    if rows != [] {
      assert RowSums(rows)[1..] == RowSums(rows[1..]);
      RowSumsTotal(rows[1..]);
      SumAppend(rows[0], Cells(rows[1..]));
    }
  }

  lemma {:induction false} EmptyRowsTotal(rows: seq<seq<real>>)
    requires forall i :: 0 <= i < |rows| ==> rows[i] == []
    ensures Sum(RowSums(rows)) == 0.0
  {
    if rows != [] {
      assert RowSums(rows)[1..] == RowSums(rows[1..]);
      EmptyRowsTotal(rows[1..]);
    }
  }

  /** Splitting column `j` off the remaining cells of every row. */
  lemma {:induction false} SplitColumn(rows: seq<seq<real>>, j: nat)
    requires forall i :: 0 <= i < |rows| ==> j < |rows[i]|
    ensures Sum(RowSums(Drop(rows, j))) == Sum(Column(rows, j)) + Sum(RowSums(Drop(rows, j + 1)))
  {
    if rows != [] {
      var t := rows[1..];
      assert RowSums(Drop(rows, j))[1..] == RowSums(Drop(t, j));
      assert RowSums(Drop(rows, j + 1))[1..] == RowSums(Drop(t, j + 1));
      assert Column(rows, j)[1..] == Column(t, j);
      SplitColumn(t, j);
      assert rows[0][j..] == [rows[0][j]] + rows[0][j + 1..];
      SumAppend([rows[0][j]], rows[0][j + 1..]);
    }
  }

  lemma {:induction false} ColumnsFromTotal(rows: seq<seq<real>>, j: nat, w: nat)
    requires j <= w && Rectangular(rows, w)
    ensures Sum(RowSums(ColumnsFrom(rows, j, w))) == Sum(RowSums(Drop(rows, j)))
    decreases w - j
  {
    if j == w {
      EmptyRowsTotal(Drop(rows, j));
    } else {
      assert RowSums(ColumnsFrom(rows, j, w))[1..] == RowSums(ColumnsFrom(rows, j + 1, w));
      ColumnsFromTotal(rows, j + 1, w);
      SplitColumn(rows, j);
    }
  }

  /** Summing by columns gives the same total as summing by rows. */
  lemma TransposeTotal(rows: seq<seq<real>>, w: nat)
    requires Rectangular(rows, w)
    ensures Sum(RowSums(Transpose(rows, w))) == Sum(RowSums(rows))
  {
    ColumnsFromTotal(rows, 0, w);
    assert Drop(rows, 0) == rows;
  }

  lemma {:induction false} SquareSumsAsRowSums(rows: seq<seq<real>>)
    ensures SquareSums(rows) == RowSums(SquaresTable(rows))
  {
    forall i | 0 <= i < |rows| ensures SquareSums(rows)[i] == RowSums(SquaresTable(rows))[i] {
      SumOfSquaresIsSumOfSquares(rows[i]);
    }
  }

  lemma TransposeSquares(rows: seq<seq<real>>, w: nat)
    requires Rectangular(rows, w)
    ensures Rectangular(SquaresTable(rows), w)
    ensures Transpose(SquaresTable(rows), w) == SquaresTable(Transpose(rows, w))
  {
    var a := Transpose(SquaresTable(rows), w);
    var b := SquaresTable(Transpose(rows, w));
    assert forall j :: 0 <= j < w ==> a[j] == b[j];
  }

  /** Summing the squares by columns gives the same total as summing them by rows. */
  lemma TransposeSquareTotal(rows: seq<seq<real>>, w: nat)
    requires Rectangular(rows, w)
    ensures Sum(SquareSums(Transpose(rows, w))) == Sum(SquareSums(rows))
  {
    TransposeSquares(rows, w);
    TransposeTotal(SquaresTable(rows), w);
    SquareSumsAsRowSums(rows);
    SquareSumsAsRowSums(Transpose(rows, w));
  }

  /** `sumOfColumns`: the total of every column. */
  function ColumnSums(rows: seq<seq<real>>, w: nat): (r: seq<real>)
    requires Rectangular(rows, w)
    ensures |r| == w
    ensures forall j :: 0 <= j < w ==> r[j] == Sum(Column(rows, j))
  {
    RowSums(Transpose(rows, w))
  }

  /** `meanOfColumns`: the mean of every column. */
  function ColumnMeans(rows: seq<seq<real>>, w: nat): (r: seq<real>)
    requires Rectangular(rows, w) && |rows| > 0
    ensures |r| == w
    ensures forall j :: 0 <= j < w ==> r[j] == Average(Column(rows, j))
  {
    RowMeans(Transpose(rows, w))
  }

  /** `varianceOfColumns`: `CalculateVariance` of every column. */
  function ColumnVariances(rows: seq<seq<real>>, w: nat): (r: seq<real>)
    requires Rectangular(rows, w) && |rows| > 0
    ensures |r| == w
    ensures forall j :: 0 <= j < w ==> r[j] == Variance(Column(rows, j))
  {
    RowVariances(Transpose(rows, w))
  }

  /** `grandMean`: the mean of all cells. */
  function GrandMean(rows: seq<seq<real>>, w: nat): real
    requires Rectangular(rows, w) && |rows| > 0 && w > 0
  {
    CellCount(rows, w);
    Average(Cells(rows))
  }

  /** `SSB`: C times the squared deviations of the row means from the grand mean. */
  function SSB(rows: seq<seq<real>>, w: nat): real
    requires Rectangular(rows, w) && |rows| > 0 && w > 0
  {
    Times(w as real, SumOfSquares(Deviations(RowMeans(rows), GrandMean(rows, w))))
  }

  /** `SSW`: the squared deviations of every cell from the mean of its row. */
  function SSW(rows: seq<seq<real>>): real
    requires forall i :: 0 <= i < |rows| ==> |rows[i]| > 0
  {
    Sum(SquareSums(DeviationTable(rows)))
  }

  /** `SSC`: R times the squared deviations of the column means from the grand mean. */
  function SSC(rows: seq<seq<real>>, w: nat): real
    requires Rectangular(rows, w) && |rows| > 0 && w > 0
  {
    Times(|rows| as real, SumOfSquares(Deviations(ColumnMeans(rows, w), GrandMean(rows, w))))
  }

  /** `SSE`: SSW less SSC, with no clamping. */
  function SSE(rows: seq<seq<real>>, w: nat): real
    requires Rectangular(rows, w) && |rows| > 0 && w > 0
  {
    SSW(rows) - SSC(rows, w)
  }

  /** Reference definition: the squared deviations of every cell from the grand mean. */
  function TotalSumOfSquares(rows: seq<seq<real>>, w: nat): real
    requires Rectangular(rows, w) && |rows| > 0 && w > 0
  {
    SumOfSquares(Deviations(Cells(rows), GrandMean(rows, w)))
  }

  /** One row of residuals: cell - row mean - column mean + grand mean. */
  function ResidualRow(row: seq<real>, rowMean: real, columnMeans: seq<real>, g: real): (r: seq<real>)
    requires |row| == |columnMeans|
    ensures |r| == |row|
    ensures forall j :: 0 <= j < |row| ==> r[j] == row[j] - rowMean - columnMeans[j] + g
  {
    if row == [] then [] else [row[0] - rowMean - columnMeans[0] + g] + ResidualRow(row[1..], rowMean, columnMeans[1..], g)
  }

  function ResidualRows(rows: seq<seq<real>>, rowMeans: seq<real>, columnMeans: seq<real>, g: real): (e: seq<seq<real>>)
    requires Rectangular(rows, |columnMeans|) && |rowMeans| == |rows|
    ensures |e| == |rows| && Rectangular(e, |columnMeans|)
    ensures forall i :: 0 <= i < |rows| ==> e[i] == ResidualRow(rows[i], rowMeans[i], columnMeans, g)
  {
    if rows == [] then []
    else [ResidualRow(rows[0], rowMeans[0], columnMeans, g)] + ResidualRows(rows[1..], rowMeans[1..], columnMeans, g)
  }

  /**
   * Reference definition: the residual of every cell of an additive two-way
   * layout, cell - row mean - column mean + grand mean.
   */
  function ResidualTable(rows: seq<seq<real>>, w: nat): (e: seq<seq<real>>)
    requires Rectangular(rows, w) && |rows| > 0 && w > 0
    ensures |e| == |rows| && Rectangular(e, w)
    ensures forall i, j :: 0 <= i < |rows| && 0 <= j < w ==>
      e[i][j] == rows[i][j] - RowMeans(rows)[i] - ColumnMeans(rows, w)[j] + GrandMean(rows, w)
  {
    ResidualRows(rows, RowMeans(rows), ColumnMeans(rows, w), GrandMean(rows, w))
  }

  /** The total of the row sums is the total of the column sums, and both are the total of all cells. */
  lemma RowAndColumnTotals(rows: seq<seq<real>>, w: nat)
    requires Rectangular(rows, w)
    ensures Sum(RowSums(rows)) == Sum(ColumnSums(rows, w)) == Sum(Cells(rows))
  {
    TransposeTotal(rows, w);
    RowSumsTotal(rows);
  }

  /** SSW is C times the total of the row variances. */
  lemma WithinRowsIsScaledRowVariances(rows: seq<seq<real>>, w: nat)
    requires Rectangular(rows, w) && w > 0
    ensures SSW(rows) == Times(w as real, Sum(RowVariances(rows)))
  {
    SumOfScaled(RowVariances(rows), SquareSums(DeviationTable(rows)), w as real);
  }

  lemma MeanOfScaledTotal(s: real, t: real, a: nat, b: nat, n: nat)
    requires a > 0 && b > 0 && n == a * b && s == Times(b as real, t)
    ensures s / (n as real) == t / (a as real)
  {
    var q := t / (a as real);
    assert t == q * (a as real);
    assert (n as real) == (a as real) * (b as real);
    assert s == q * (n as real);
    assert s / (n as real) == q;
  }

  /** The grand mean is the mean of the row means. */
  lemma GrandMeanOfRowMeans(rows: seq<seq<real>>, w: nat)
    requires Rectangular(rows, w) && |rows| > 0 && w > 0
    ensures GrandMean(rows, w) == Average(RowMeans(rows))
  {
    CellCount(rows, w);
    RowSumsTotal(rows);
    forall i | 0 <= i < |rows| ensures RowSums(rows)[i] == Times(w as real, RowMeans(rows)[i]) {
      CountTimesAverage(rows[i]);
    }
    SumOfScaled(RowMeans(rows), RowSums(rows), w as real);
    MeanOfScaledTotal(Sum(Cells(rows)), Sum(RowMeans(rows)), |rows|, w, |Cells(rows)|);
  }

  /** The grand mean is the mean of the column means. */
  lemma GrandMeanOfColumnMeans(rows: seq<seq<real>>, w: nat)
    requires Rectangular(rows, w) && |rows| > 0 && w > 0
    ensures GrandMean(rows, w) == Average(ColumnMeans(rows, w))
  {
    CellCount(rows, w);
    RowAndColumnTotals(rows, w);
    forall j | 0 <= j < w ensures ColumnSums(rows, w)[j] == Times(|rows| as real, ColumnMeans(rows, w)[j]) {
      CountTimesAverage(Column(rows, j));
    }
    SumOfScaled(ColumnMeans(rows, w), ColumnSums(rows, w), |rows| as real);
    MeanOfScaledTotal(Sum(Cells(rows)), Sum(ColumnMeans(rows, w)), w, |rows|, |Cells(rows)|);
  }

  /** Centring every cell on `g` and then summing the squares row by row. */
  lemma {:induction false} CellsDeviations(rows: seq<seq<real>>, g: real)
    ensures SumOfSquares(Deviations(Cells(rows), g)) == Sum(SquareSums(DeviationsFrom(rows, g)))
  {
    if rows != [] {
      var t := rows[1..];
      DeviationsOfAppend(rows[0], Cells(t), g);
      SumOfSquaresAppend(Deviations(rows[0], g), Deviations(Cells(t), g));
      assert SquareSums(DeviationsFrom(rows, g))[1..] == SquareSums(DeviationsFrom(t, g));
      CellsDeviations(t, g);
    }
  }

  /**
   * The partition of the total sum of squares: the squared deviations of all
   * cells from the grand mean are the between-rows part SSB plus the
   * within-rows part SSW.
   */
  lemma TotalIsBetweenPlusWithin(rows: seq<seq<real>>, w: nat)
    requires Rectangular(rows, w) && |rows| > 0 && w > 0
    ensures TotalSumOfSquares(rows, w) == SSB(rows, w) + SSW(rows)
  {
    var g := GrandMean(rows, w);
    var b := Squares(Deviations(RowMeans(rows), g));
    RowsParallelAxis(rows, w, g);
    SumOfSumAndScaled(SquareSums(DeviationTable(rows)), b, SquareSums(DeviationsFrom(rows, g)), w as real);
    SumOfSquaresIsSumOfSquares(Deviations(RowMeans(rows), g));
    CellsDeviations(rows, g);
  }

  /** Every row's squared deviations from `g` split into those from its own mean plus C times its mean's offset. */
  lemma RowsParallelAxis(rows: seq<seq<real>>, w: nat, g: real)
    requires Rectangular(rows, w) && w > 0
    ensures forall i :: 0 <= i < |rows| ==>
      SquareSums(DeviationsFrom(rows, g))[i] ==
      SquareSums(DeviationTable(rows))[i] + Times(w as real, Squares(Deviations(RowMeans(rows), g))[i])
  {
    forall i | 0 <= i < |rows|
      ensures SquareSums(DeviationsFrom(rows, g))[i] ==
        SquareSums(DeviationTable(rows))[i] + Times(w as real, Squares(Deviations(RowMeans(rows), g))[i])
    {
      ParallelAxis(rows[i], Average(rows[i]), g);
    }
  }

  lemma DivideDifference(s: real, a: real, t: real, n: nat)
    requires n > 0 && s == a + Times(-1.0, t)
    ensures s / (n as real) == a / (n as real) - t / (n as real)
  {
  }

  /** Column `j` of the row deviations has the mean of column `j` less the grand mean as its mean. */
  lemma ColumnOfDeviationsMean(rows: seq<seq<real>>, w: nat, j: nat)
    requires Rectangular(rows, w) && |rows| > 0 && j < w
    ensures Rectangular(DeviationTable(rows), w)
    ensures Average(Column(DeviationTable(rows), j)) == ColumnMeans(rows, w)[j] - GrandMean(rows, w)
  {
    var col := Column(rows, j);
    var d := Column(DeviationTable(rows), j);
    var rm := RowMeans(rows);
    forall i | 0 <= i < |rows| ensures d[i] == col[i] + Times(-1.0, rm[i]) {
    }
    SumOfSumAndScaled(col, rm, d, -1.0);
    DivideDifference(Sum(d), Sum(col), Sum(rm), |rows|);
    GrandMeanOfRowMeans(rows, w);
  }

  /** A table whose column `j` is another's column `j` less `mu`. */
  lemma ShiftedColumn(d: seq<seq<real>>, e: seq<seq<real>>, w: nat, j: nat, mu: real)
    requires Rectangular(d, w) && Rectangular(e, w) && |e| == |d| && j < w
    requires forall i :: 0 <= i < |d| ==> e[i][j] == d[i][j] - mu
    ensures Transpose(e, w)[j] == Deviations(Transpose(d, w)[j], mu)
  {
  }

  /** Every residual is the row deviation less the offset of its column mean from the grand mean. */
  lemma ResidualCellsOf(rows: seq<seq<real>>, d: seq<seq<real>>, e: seq<seq<real>>, rm: seq<real>, cm: seq<real>, g: real, w: nat)
    requires Rectangular(rows, w) && Rectangular(d, w) && Rectangular(e, w)
    requires |d| == |e| == |rm| == |rows| && |cm| == w
    requires forall i :: 0 <= i < |rows| ==> d[i] == Deviations(rows[i], rm[i])
    requires forall i :: 0 <= i < |rows| ==> e[i] == ResidualRow(rows[i], rm[i], cm, g)
    ensures forall i, j :: 0 <= i < |rows| && 0 <= j < w ==> e[i][j] == d[i][j] - (cm[j] - g)
  {
  }

  /** The squares of a sequence are those of its deviations from its mean plus the count times the mean's square. */
  lemma CentredSquares(xs: seq<real>, mu: real)
    requires |xs| > 0 && mu == Average(xs)
    ensures SumOfSquares(xs) == SumOfSquares(Deviations(xs, mu)) + Times(|xs| as real, Square(mu))
  {
    ParallelAxis(xs, mu, 0.0);
    DeviationsFromZero(xs);
    assert mu - 0.0 == mu;
  }

  lemma CentredColumn(d: seq<seq<real>>, e: seq<seq<real>>, w: nat, j: nat, mu: real)
    requires Rectangular(d, w) && Rectangular(e, w) && |e| == |d| > 0 && j < w
    requires Average(Transpose(d, w)[j]) == mu
    requires forall i :: 0 <= i < |d| ==> e[i][j] == d[i][j] - mu
    ensures SumOfSquares(Transpose(d, w)[j]) == SumOfSquares(Transpose(e, w)[j]) + Times(|d| as real, Square(mu))
  {
    ShiftedColumn(d, e, w, j, mu);
    CentredSquares(Transpose(d, w)[j], mu);
  }

  /**
   * When every column of `e` is the matching column of `d` centred on its own
   * mean `cm[j] - g`, the squares of `d` are those of `e` plus R times the
   * squared offsets of the column means from `g`, summed over the columns.
   */
  lemma CentredColumns(d: seq<seq<real>>, e: seq<seq<real>>, w: nat, cm: seq<real>, g: real)
    requires Rectangular(d, w) && Rectangular(e, w) && |e| == |d| > 0 && |cm| == w
    requires forall j :: 0 <= j < w ==> Average(Transpose(d, w)[j]) == cm[j] - g
    requires forall i, j :: 0 <= i < |d| && 0 <= j < w ==> e[i][j] == d[i][j] - (cm[j] - g)
    ensures Sum(SquareSums(Transpose(d, w))) ==
      Sum(SquareSums(Transpose(e, w))) + Times(|d| as real, SumOfSquares(Deviations(cm, g)))
  {
    var b := Squares(Deviations(cm, g));
    forall j | 0 <= j < w
      ensures SquareSums(Transpose(d, w))[j] == SquareSums(Transpose(e, w))[j] + Times(|d| as real, b[j])
    {
      CentredColumn(d, e, w, j, cm[j] - g);
    }
    SumOfSumAndScaled(SquareSums(Transpose(e, w)), b, SquareSums(Transpose(d, w)), |d| as real);
    SumOfSquaresIsSumOfSquares(Deviations(cm, g));
  }

  /**
   * SSE, computed as SSW less SSC, is the residual sum of squares of the
   * additive model: the squared residuals
   * cell - row mean - column mean + grand mean, summed over all cells.
   */
  lemma ErrorIsResidualSumOfSquares(rows: seq<seq<real>>, w: nat)
    requires Rectangular(rows, w) && |rows| > 0 && w > 0
    ensures SSE(rows, w) == Sum(SquareSums(ResidualTable(rows, w)))
  {
    var d := DeviationTable(rows);
    var e := ResidualTable(rows, w);
    var cm := ColumnMeans(rows, w);
    var g := GrandMean(rows, w);
    ResidualCellsOf(rows, d, e, RowMeans(rows), cm, g, w);
    forall j | 0 <= j < w ensures Average(Transpose(d, w)[j]) == cm[j] - g {
      ColumnOfDeviationsMean(rows, w, j);
      assert Transpose(d, w)[j] == Column(d, j);
    }
    CentredColumns(d, e, w, cm, g);
    TransposeSquareTotal(d, w);
    TransposeSquareTotal(e, w);
  }

  /**
   * SSE is never negative, although it is computed as a difference, and it
   * is zero exactly when the additive model fits every cell.
   */
  lemma ErrorNonNegative(rows: seq<seq<real>>, w: nat)
    requires Rectangular(rows, w) && |rows| > 0 && w > 0
    ensures SSE(rows, w) >= 0.0
    ensures SSE(rows, w) == 0.0 <==>
      forall i, j :: 0 <= i < |rows| && 0 <= j < w ==> ResidualTable(rows, w)[i][j] == 0.0
  {
    var e := ResidualTable(rows, w);
    ErrorIsResidualSumOfSquares(rows, w);
    SumOfNonNegatives(SquareSums(e));
    forall i | 0 <= i < |rows| ensures SquareSums(e)[i] == 0.0 <==> forall j :: 0 <= j < w ==> e[i][j] == 0.0 {
      SumOfSquaresZero(e[i]);
    }
  }

  /** The two-way partition: the total sum of squares is SSB + SSC + SSE. */
  lemma TwoWayPartition(rows: seq<seq<real>>, w: nat)
    requires Rectangular(rows, w) && |rows| > 0 && w > 0
    ensures TotalSumOfSquares(rows, w) == SSB(rows, w) + SSC(rows, w) + SSE(rows, w)
  {
    TotalIsBetweenPlusWithin(rows, w);
  }

  /**
   * MathNet's `FisherSnedecor` distribution, kept uninterpreted: `cdf(d1, d2, x)`
   * is `new FisherSnedecor(d1, d2).CumulativeDistribution(x)` and
   * `invCdf(d1, d2, p)` is `InverseCumulativeDistribution(p)` (or `InvCDF`).
   */
  datatype FisherSnedecor = FisherSnedecor(cdf: (real, real, real) -> real, invCdf: (real, real, real) -> real)

  /** `FDistribution(value, dfn, dfd)`: the cumulative probability of `value`. */
  function FDistribution(dist: FisherSnedecor, value: real, dfn: int, dfd: int): real
  {
    dist.cdf(dfn as real, dfd as real, value)
  }

  /** `FDistributionCriticalValue(probability, dfn, dfd)`: the `probability` quantile. */
  function FDistributionCriticalValue(dist: FisherSnedecor, probability: real, dfn: int, dfd: int): real
  {
    dist.invCdf(dfn as real, dfd as real, probability)
  }

  /** The significance level `probability` of the homogeneity test. */
  const Probability: real := 0.05

  const FailVerdict: string := "FAIL HOMOGENEITY TEST"
  const PassVerdict: string := "PASS HOMOGENEITY TEST"

  /** `resultsTable`: the sums, means and variances of every row and every column. */
  datatype ResultsTable = ResultsTable(
    sumOfRows: seq<real>, sumOfColumns: seq<real>,
    meanOfRows: seq<real>, meanOfColumns: seq<real>,
    varianceOfRows: seq<real>, varianceOfColumns: seq<real>)

  /** The `ANOVA` part of the report, field by field. */
  datatype AnovaTable = AnovaTable(
    deviations: seq<seq<real>>,
    ssb: real, ssc: real, ssw: real, sse: real,
    dfRows: int, dfColumns: int, dfWithinRows: int,
    msb: real, msc: real, msw: real, mse: real,
    fRows: real, fColumns: real,
    pValueRows: real, pValueColumns: real,
    fCritRows: real, fCritColumns: real,
    fValue: real, fCriticalAt95: real,
    homogeneityTest: string)

  datatype Analysis = Analysis(results: ResultsTable, anova: AnovaTable)

  /**
   * A mean square or an F ratio: the source's division of doubles, over the
   * reals. It is a function application for the same reason as `Times`: the
   * mean squares and F ratios stay separate terms in the ANOVA table and are
   * related to their sums of squares by `Quotient` and `Ratio`.
   */
  function Divide(x: real, y: real): real
    requires y != 0.0
  {
    x / y
  }

  /**
   * Lines 100-130 once the sums of squares are known: degrees of freedom,
   * mean squares, F ratios, p-values, critical values and the verdict, for
   * `r` rows and `c` columns. The source divides by dfRows and by MSE without
   * a guard, so R >= 2 and SSE = SSW - SSC != 0 are required.
   */
  function AnovaOfSums(deviations: seq<seq<real>>, ssb: real, ssw: real, ssc: real, r: int, c: int, dist: FisherSnedecor): (a: AnovaTable)
    requires r >= 2 && c >= 2 && ssw - ssc != 0.0
    ensures a.dfRows == r - 1 >= 1 && a.dfColumns == c - 1 >= 1
    ensures a.dfWithinRows == a.dfRows * a.dfColumns
  {
    var dfRows := r - 1;
    var dCol := c - 1;
    var dfWithinRows := dfRows * dCol;
    var msb := Divide(ssb, dfRows as real);
    var msw := Divide(ssw, dfWithinRows as real);
    var sse := ssw - ssc;
    var mse := Divide(sse, dfWithinRows as real);
    var msc := Divide(ssc, dCol as real);
    var fRows := Divide(msb, mse);
    var fColumns := Divide(msc, mse);
    var pValueRows := 1.0 - FDistribution(dist, fRows, dfRows, dfWithinRows);
    var pValueColumns := 1.0 - FDistribution(dist, fColumns, dCol, dfWithinRows);
    var dof := dfWithinRows + dCol;
    var fCritRows := FDistributionCriticalValue(dist, 1.0 - Probability, dfRows, dfWithinRows);
    var fCritColumns := FDistributionCriticalValue(dist, 1.0 - Probability, c - 1, dfWithinRows);
    var fCritAt95 := dist.invCdf(dfRows as real, dof as real, 1.0 - Probability);
    var fValue := Divide(msb, mse);
    var homogeneityTest := if fValue > fCritAt95 then FailVerdict else PassVerdict;
    AnovaTable(deviations, ssb, ssc, ssw, sse, dfRows, dCol, dfWithinRows,
      msb, msc, msw, mse, fRows, fColumns, pValueRows, pValueColumns,
      fCritRows, fCritColumns, fValue, fCritAt95, homogeneityTest)
  }

  /** The table's rows are R rows of C cells with R >= 2, C >= 2 and SSE != 0. */
  predicate Analyzable(t: Table)
  {
    IsGrid(t) && |t.rows| >= 2 && |t.columns| >= 2 && SSE(t.rows, |t.columns|) != 0.0
  }

  /** Lines 74-130: the results table and the ANOVA table of the rows of `t`. */
  function Analyze(t: Table, dist: FisherSnedecor): (a: Analysis)
    requires Analyzable(t)
    ensures a.anova.dfRows == |t.rows| - 1 >= 1 && a.anova.dfColumns == |t.columns| - 1 >= 1
    ensures a.anova.dfWithinRows == a.anova.dfRows * a.anova.dfColumns
  {
    var rows, c := t.rows, |t.columns|;
    Analysis(
      ResultsTable(RowSums(rows), ColumnSums(rows, c), RowMeans(rows), ColumnMeans(rows, c),
        RowVariances(rows), ColumnVariances(rows, c)),
      AnovaOfSums(DeviationTable(rows), SSB(rows, c), SSW(rows), SSC(rows, c), |rows|, c, dist))
  }

  /**
   * The results table: one total, mean and variance per row and per column;
   * row and column totals agree; the grand mean is the mean of the row means
   * and of the column means; every deviation is its cell less its row's mean.
   */
  lemma AnalyzeAggregates(t: Table, dist: FisherSnedecor)
    requires Analyzable(t)
    ensures var a := Analyze(t, dist).results;
      |a.sumOfRows| == |a.meanOfRows| == |a.varianceOfRows| == |t.rows| &&
      |a.sumOfColumns| == |a.meanOfColumns| == |a.varianceOfColumns| == |t.columns| &&
      Sum(a.sumOfRows) == Sum(a.sumOfColumns) == Sum(Cells(t.rows)) &&
      GrandMean(t.rows, |t.columns|) == Average(a.meanOfRows) == Average(a.meanOfColumns)
    ensures forall i, j :: 0 <= i < |t.rows| && 0 <= j < |t.columns| ==>
      Analyze(t, dist).anova.deviations[i][j] == t.rows[i][j] - Analyze(t, dist).results.meanOfRows[i]
  {
    var w := |t.columns|;
    RowAndColumnTotals(t.rows, w);
    GrandMeanOfRowMeans(t.rows, w);
    GrandMeanOfColumnMeans(t.rows, w);
  }

  /** SSW in the ANOVA table is C times the total of the row variances in the results table. */
  lemma AnalyzeWithinRows(t: Table, dist: FisherSnedecor)
    requires Analyzable(t)
    ensures Analyze(t, dist).anova.ssw == Times(|t.columns| as real, Sum(Analyze(t, dist).results.varianceOfRows))
  {
    WithinRowsIsScaledRowVariances(t.rows, |t.columns|);
  }

  /** SSB + SSW and SSB + SSC + SSE are both the total sum of squares. */
  lemma AnalyzePartition(t: Table, dist: FisherSnedecor)
    requires Analyzable(t)
    ensures var a := Analyze(t, dist).anova;
      a.ssb + a.ssw == TotalSumOfSquares(t.rows, |t.columns|) &&
      a.ssb + a.ssc + a.sse == TotalSumOfSquares(t.rows, |t.columns|)
  {
    TotalIsBetweenPlusWithin(t.rows, |t.columns|);
  }

  /** SSE in the ANOVA table is the residual sum of squares of the additive model. */
  lemma AnalyzeResiduals(t: Table, dist: FisherSnedecor)
    requires Analyzable(t)
    ensures Analyze(t, dist).anova.sse == Sum(SquareSums(ResidualTable(t.rows, |t.columns|)))
  {
    ErrorIsResidualSumOfSquares(t.rows, |t.columns|);
  }

  /** SSB and SSC are non-negative and SSE is positive. */
  lemma AnalyzeSigns(t: Table, dist: FisherSnedecor)
    requires Analyzable(t)
    ensures var a := Analyze(t, dist).anova;
      a.ssb >= 0.0 && a.ssc >= 0.0 && a.sse > 0.0
  {
    var rows, w := t.rows, |t.columns|;
    ErrorNonNegative(rows, w);
    TimesNonNegative(w as real, SumOfSquares(Deviations(RowMeans(rows), GrandMean(rows, w))));
    TimesNonNegative(|rows| as real, SumOfSquares(Deviations(ColumnMeans(rows, w), GrandMean(rows, w))));
  }

  lemma Quotient(s: real, d: int, m: real)
    requires d > 0 && m == Divide(s, d as real)
    ensures Times(d as real, m) == s
    ensures s >= 0.0 ==> m >= 0.0
    ensures s > 0.0 ==> m > 0.0
  {
  }

  lemma Ratio(x: real, y: real, f: real)
    requires y > 0.0 && f == Divide(x, y)
    ensures Times(y, f) == x
    ensures x >= 0.0 ==> f >= 0.0
  {
  }

  /** Each mean square times its degrees of freedom is its sum of squares, and SSE = SSW - SSC. */
  lemma MeanSquares(deviations: seq<seq<real>>, ssb: real, ssw: real, ssc: real, r: int, c: int, dist: FisherSnedecor)
    requires r >= 2 && c >= 2 && ssw - ssc != 0.0
    ensures var a := AnovaOfSums(deviations, ssb, ssw, ssc, r, c, dist);
      a.ssb == ssb && a.ssw == ssw && a.ssc == ssc && a.sse == ssw - ssc &&
      Times(a.dfRows as real, a.msb) == ssb && Times(a.dfColumns as real, a.msc) == ssc &&
      Times(a.dfWithinRows as real, a.msw) == ssw && Times(a.dfWithinRows as real, a.mse) == a.sse
  {
    var a := AnovaOfSums(deviations, ssb, ssw, ssc, r, c, dist);
    Quotient(a.ssb, a.dfRows, a.msb);
    Quotient(a.ssc, a.dfColumns, a.msc);
    Quotient(a.ssw, a.dfWithinRows, a.msw);
    Quotient(a.sse, a.dfWithinRows, a.mse);
  }

  /**
   * With SSB and SSC non-negative and SSE positive, MSE is positive, each F
   * ratio times MSE is its mean square, `Fvalue` is `FRows`, and both F
   * ratios are non-negative.
   */
  lemma Ratios(deviations: seq<seq<real>>, ssb: real, ssw: real, ssc: real, r: int, c: int, dist: FisherSnedecor)
    requires r >= 2 && c >= 2 && ssb >= 0.0 && ssc >= 0.0 && ssw - ssc > 0.0
    ensures var a := AnovaOfSums(deviations, ssb, ssw, ssc, r, c, dist);
      a.mse > 0.0 && Times(a.mse, a.fRows) == a.msb && Times(a.mse, a.fColumns) == a.msc &&
      a.fValue == a.fRows && a.fRows >= 0.0 && a.fColumns >= 0.0
  {
    var a := AnovaOfSums(deviations, ssb, ssw, ssc, r, c, dist);
    Quotient(a.ssb, a.dfRows, a.msb);
    Quotient(a.ssc, a.dfColumns, a.msc);
    Quotient(a.sse, a.dfWithinRows, a.mse);
    Ratio(a.msb, a.mse, a.fRows);
    Ratio(a.msc, a.mse, a.fColumns);
  }

  /**
   * The p-values and critical values take the degrees of freedom in the
   * source's order, `fCritat95` with `dfWithinRows + dCol` as the second;
   * the verdict is FAIL exactly when `Fvalue` exceeds `fCritat95`.
   */
  lemma Verdict(deviations: seq<seq<real>>, ssb: real, ssw: real, ssc: real, r: int, c: int, dist: FisherSnedecor)
    requires r >= 2 && c >= 2 && ssw - ssc != 0.0
    ensures var a := AnovaOfSums(deviations, ssb, ssw, ssc, r, c, dist);
      a.pValueRows == 1.0 - dist.cdf(a.dfRows as real, a.dfWithinRows as real, a.fRows) &&
      a.pValueColumns == 1.0 - dist.cdf(a.dfColumns as real, a.dfWithinRows as real, a.fColumns) &&
      a.fCritRows == dist.invCdf(a.dfRows as real, a.dfWithinRows as real, 0.95) &&
      a.fCritColumns == dist.invCdf(a.dfColumns as real, a.dfWithinRows as real, 0.95) &&
      a.fCriticalAt95 == dist.invCdf(a.dfRows as real, (a.dfWithinRows + a.dfColumns) as real, 0.95) &&
      (a.homogeneityTest == FailVerdict <==> a.fValue > a.fCriticalAt95) &&
      (a.homogeneityTest == PassVerdict <==> a.fValue <= a.fCriticalAt95)
  {
  }

  /** The ANOVA of a table: MSE and both F ratios are positive or non-negative as above. */
  lemma AnalyzeRatios(t: Table, dist: FisherSnedecor)
    requires Analyzable(t)
    ensures var a := Analyze(t, dist).anova;
      a.mse > 0.0 && Times(a.mse, a.fRows) == a.msb && Times(a.mse, a.fColumns) == a.msc &&
      a.fValue == a.fRows && a.fRows >= 0.0 && a.fColumns >= 0.0
  {
    var rows, c := t.rows, |t.columns|;
    AnalyzeSigns(t, dist);
    Ratios(DeviationTable(rows), SSB(rows, c), SSW(rows), SSC(rows, c), |rows|, c, dist);
  }
}
