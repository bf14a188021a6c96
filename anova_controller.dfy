/**
 * `AnovaController.FilterOutLiers` after the upload has been read: the
 * rejection of an empty list, the outlier filter over the three attributes,
 * the table of kept observations and the two-way ANOVA over it, gathered in
 * one report.
 */
module AnovaController {
  import opened Statistics
  import opened OutlierFilter
  import opened DataTable
  import opened TwoWayAnova

  const NoDataMessage: string := "No data available in the JSON file."

  /** The report: the standard deviation table, both lists and the results and ANOVA tables. */
  datatype Report = Report(
    standardDeviationTable: Bounds,
    outliers: seq<Observation>,
    dataWithoutOutliers: seq<Observation>,
    resultsTable: ResultsTable,
    anova: AnovaTable)

  datatype Response = BadRequest(message: string) | Ok(report: Report)

  /** The rows of the table built from the observations the filter keeps. */
  function KeptRows(data: seq<Observation>, sqrt: real -> real): (rows: seq<seq<real>>)
    requires |data| > 0 && IsSquareRoot(sqrt)
    ensures |rows| == |FilterOutliers(data, sqrt).kept| && Rectangular(rows, 3)
  {
    RowsOf(Deref(data, FilterOutliers(data, sqrt).kept))
  }

  /** A non-empty grid of three columns whose error sum of squares is not zero. */
  predicate NonZeroError(rows: seq<seq<real>>)
  {
    Rectangular(rows, 3) && |rows| > 0 && SSE(rows, 3) != 0.0
  }

  /**
   * The ANOVA of the table built from the kept observations: R rows, three
   * columns, so dCol = 2 and dfWithinRows = 2 dfRows.
   */
  function AnovaOf(kept: seq<Observation>, dist: FisherSnedecor): (a: Analysis)
    requires |kept| >= 2 && NonZeroError(RowsOf(kept))
    ensures a.anova.dfRows == |kept| - 1 >= 1
    ensures a.anova.dfColumns == 2 && a.anova.dfWithinRows == 2 * a.anova.dfRows
    ensures a.anova.homogeneityTest == FailVerdict <==> a.anova.fValue > a.anova.fCriticalAt95
  {
    var rows := RowsOf(kept);
    Verdict(DeviationTable(rows), SSB(rows, 3), SSW(rows), SSC(rows, 3), |rows|, 3, dist);
    Analyze(Table(AttributeColumns, rows), dist)
  }

  /**
   * An empty list is rejected. Otherwise the report holds the bands of the
   * three attributes, the outliers and the kept observations (a partition of
   * the input, each in input order) and the ANOVA of the kept rows, with
   * dfRows = R - 1 >= 1, dCol = 2 and dfWithinRows = 2 dfRows. A single
   * observation (dfRows = 0) and a zero SSE are excluded, as the source
   * divides by both.
   */
  method FilterOutLiers(data: seq<Observation>, sqrt: real -> real, dist: FisherSnedecor) returns (r: Response)
    requires IsSquareRoot(sqrt)
    requires |data| != 1
    requires |data| >= 2 ==> NonZeroError(KeptRows(data, sqrt))
    ensures data == [] <==> r == BadRequest(NoDataMessage)
    ensures data != [] ==> r.Ok?
    ensures r.Ok? ==>
      var s := FilterOutliers(data, sqrt);
      r.report.standardDeviationTable == s.bounds &&
      r.report.outliers == Deref(data, s.outliers) &&
      r.report.dataWithoutOutliers == Deref(data, s.kept) &&
      |s.kept| >= 2 && Analysis(r.report.resultsTable, r.report.anova) == AnovaOf(Deref(data, s.kept), dist)
    ensures r.Ok? ==>
      (forall i :: 0 <= i < |r.report.outliers| ==> IsOutlier(r.report.outliers[i], r.report.standardDeviationTable)) &&
      (forall i :: 0 <= i < |r.report.dataWithoutOutliers| ==>
        !IsOutlier(r.report.dataWithoutOutliers[i], r.report.standardDeviationTable)) &&
      multiset(r.report.outliers) + multiset(r.report.dataWithoutOutliers) == multiset(data)
    ensures r.Ok? ==>
      r.report.anova.dfRows == |r.report.dataWithoutOutliers| - 1 >= 1 &&
      r.report.anova.dfColumns == 2 && r.report.anova.dfWithinRows == 2 * r.report.anova.dfRows
    ensures r.Ok? ==>
      (r.report.anova.homogeneityTest == FailVerdict <==> r.report.anova.fValue > r.report.anova.fCriticalAt95)
  {
    if |data| == 0 {
      return BadRequest(NoDataMessage);
    }
    var s := FilterOutliers(data, sqrt);
    var outliers := Deref(data, s.outliers);
    var kept := Deref(data, s.kept);
    Partition(data, sqrt);
    ListedOutliers(data, sqrt);
    OutlierBound(data, sqrt);
    var t := ToDataTable(kept);
    assert t == Table(AttributeColumns, RowsOf(kept));
    var analysis := Analyze(t, dist);
    r := Ok(Report(s.bounds, outliers, kept, analysis.results, analysis.anova));
  }
}
