# Two-way ANOVA with outlier filtering

This project models the statistical core of the `two-way-anova-api` web service.
The service has one controller action, `AnovaController.FilterOutLiers`. It takes a
list of observations, each with three `double` attributes `Attribute1`, `Attribute2`
and `Attribute3`. It then:

1. For each attribute, computes the mean and the population standard deviation
   (`CalculateStandardDeviation` over `CalculateVariance`). These give a band of
   mean ± 2 standard deviations.
2. Marks as an outlier every observation with some attribute strictly outside its
   band. The outliers are removed with LINQ `Except`.
3. Copies the kept observations into a `DataTable` with three columns
   (`ToDataTable`).
4. Runs a two-way analysis of variance without replication over that table. The
   R rows are the kept observations and the C = 3 columns are the attributes. It
   computes:
   - row and column sums, means and population variances;
   - the grand mean;
   - SSB, SSW, SSC and SSE = SSW − SSC;
   - the degrees of freedom, mean squares, F ratios and p-values;
   - F critical values at 95 %;
   - a homogeneity verdict, "FAIL" exactly when MSB / MSE exceeds the critical value.
5. Answers with a report holding the bands, the outliers, the kept data, the
   results table and the ANOVA table. An empty list gets a BadRequest instead.

Modules, one per part of the controller:

- `Statistics`: sums, means, deviations, sums of squares, `CalculateVariance`,
  `CalculateStandardDeviation`, the parallel-axis identity.
- `OutlierFilter`: observations, the three bands, the outlier predicate, `Where` and
  `Except` over positions in the input list, and a Chebyshev bound on how many
  outliers there can be.
- `DataTable`: `ToDataTable` as a method with its loop.
- `TwoWayAnova`: the results table, the sums of squares and their identities, and the
  ANOVA table.
- `AnovaController`: the action after the upload has been parsed, with its
  BadRequest and Ok responses.

Arithmetic is over `real`, so there is no rounding. `Math.Sqrt` becomes a parameter
`sqrt` that is required to be the non-negative square root (`IsSquareRoot`).
The F distribution becomes a value of type `FisherSnedecor` that holds two
functions: `cdf`, for the instance method `CumulativeDistribution` at line 235, and
`invCdf`. The source reaches the inverse in two ways: the instance method
`InverseCumulativeDistribution` at line 240 and the static `FisherSnedecor.InvCDF`
at line 128. The model merges the two into `invCdf`, taking for granted that both
compute the same inverse. Arguments are taken in the source's order (d1, d2, then x
or p), and nothing else is assumed about them.

An observation in `Except` is identified by its position in the input list. This
assumes `AnovaData` is a class with default reference equality. That class is not
part of this model. Under that assumption, two equal observations are still two
observations. If `AnovaData` had value equality, `Except` at line 68 would also drop
every kept observation equal to some outlier, and the model would not cover that.

Over exact arithmetic, SSE = SSW − SSC equals the residual sum of squares of the
additive model, Σ (xᵢⱼ − rowMeanᵢ − columnMeanⱼ + grand)². So SSE is never negative
(`TwoWayAnova.ErrorNonNegative`). A negative SSE can come only from floating-point
rounding.

Chebyshev's inequality bounds the outliers. Per attribute, fewer than N/4
observations lie strictly outside mean ± 2σ, so the filter keeps more than N/4 of
the N observations. With N ≤ 4 it keeps them all (the exact threshold is higher:
by Samuelson's inequality five observations never hold an outlier either, which this
model does not prove). Together these mean the ANOVA sees
R ≥ 2 rows exactly when N ≥ 2.

## Model

| member | source | states |
|---|---|---|
| Statistics.Sum | TwoWayAnova/TwoWayAnova/Controllers/AnovaController.cs:74-75 | LINQ `Sum`; its behaviour on concatenations and on non-negative terms is stated by SumAppend and SumOfNonNegatives |
| Statistics.Average | TwoWayAnova/TwoWayAnova/Controllers/AnovaController.cs:42-44 | LINQ `Average` of a non-empty list; N times it is the sum (CountTimesAverage) |
| Statistics.Square | TwoWayAnova/TwoWayAnova/Controllers/AnovaController.cs:207 | `Math.Pow(x, 2)`; non-negative, and positive off zero (SquareNonNegative, SquarePositive) |
| Statistics.Deviations | TwoWayAnova/TwoWayAnova/Controllers/AnovaController.cs:97 | each value less a centre, in order; from the mean they sum to zero (DeviationsFromMeanSumToZero) |
| Statistics.SumOfSquares | TwoWayAnova/TwoWayAnova/Controllers/AnovaController.cs:95-98 | the `Sum(x => Math.Pow(x, 2))` behind SSB, SSW and SSC (also lines 107, 207, 214); non-negative, zero if and only if every term is (SumOfSquaresZero), additive over concatenation (SumOfSquaresAppend) |
| Statistics.Variance | TwoWayAnova/TwoWayAnova/Controllers/AnovaController.cs:211-215 | the population variance is non-negative, and N times it is the sum of squared deviations from the mean |
| Statistics.StandardDeviation | TwoWayAnova/TwoWayAnova/Controllers/AnovaController.cs:204-209 | the standard deviation is non-negative and its square is the variance |
| Statistics.VarianceZero | TwoWayAnova/TwoWayAnova/Controllers/AnovaController.cs:211-215 | the variance is zero if and only if every value equals the mean |
| Statistics.VarianceBySumOfSquares | TwoWayAnova/TwoWayAnova/Controllers/AnovaController.cs:211-215 | N times the variance is Σx² − N·mean² |
| Statistics.ParallelAxis | TwoWayAnova/TwoWayAnova/Controllers/AnovaController.cs:95-98 | squared deviations from any centre g are those from the mean plus N·(mean − g)², the identity behind SSB and SSC |
| Statistics.DeviationsFromMeanSumToZero | TwoWayAnova/TwoWayAnova/Controllers/AnovaController.cs:97 | deviations from the mean sum to zero |
| Statistics.SumOfSquaresZero | TwoWayAnova/TwoWayAnova/Controllers/AnovaController.cs:211-215 | a sum of squares is zero if and only if every term is zero |
| OutlierFilter.Values | TwoWayAnova/TwoWayAnova/Controllers/AnovaController.cs:46-48 | the projection of the list on one attribute keeps its length and order |
| OutlierFilter.ColumnBand | TwoWayAnova/TwoWayAnova/Controllers/AnovaController.cs:42-58 | the band's centre is the attribute's mean, its stdDev is non-negative and squares to the variance, and its limits lie 2 stdDev below and above the mean |
| OutlierFilter.ComputeBounds | TwoWayAnova/TwoWayAnova/Controllers/AnovaController.cs:42-58 | each attribute's band is the band of that attribute's column |
| OutlierFilter.OutlierIffSomeAttributeOutside | TwoWayAnova/TwoWayAnova/Controllers/AnovaController.cs:61-65 | an observation is an outlier if and only if some attribute lies strictly below its lower or strictly above its upper limit |
| OutlierFilter.Outside | TwoWayAnova/TwoWayAnova/Controllers/AnovaController.cs:62-64 | one attribute's test, strictly below the lower or strictly above the upper limit; its meaning for a whole observation is stated by KeptIffWithinAllBands |
| OutlierFilter.IsOutlier | TwoWayAnova/TwoWayAnova/Controllers/AnovaController.cs:61-65 | the predicate of `Where`; its meaning is stated by OutlierIffSomeAttributeOutside and KeptIffWithinAllBands |
| OutlierFilter.KeptIffWithinAllBands | TwoWayAnova/TwoWayAnova/Controllers/AnovaController.cs:61-68 | an observation is kept if and only if each of its attributes lies on or between its band's limits |
| OutlierFilter.WhereOutlier | TwoWayAnova/TwoWayAnova/Controllers/AnovaController.cs:61-65 | `data.Where(...)` over positions; what it selects is stated by WhereOutlierMembers |
| OutlierFilter.ExceptFrom | TwoWayAnova/TwoWayAnova/Controllers/AnovaController.cs:68 | LINQ `Except` with its set of positions already seen; what it yields is stated by ExceptFromMembers |
| OutlierFilter.Except | TwoWayAnova/TwoWayAnova/Controllers/AnovaController.cs:68 | on an increasing first list, the result is increasing and holds exactly the positions of the first list that are not in the second list |
| OutlierFilter.WhereOutlierMembers | TwoWayAnova/TwoWayAnova/Controllers/AnovaController.cs:61-65 | `Where` selects exactly the positions of outliers and keeps their order |
| OutlierFilter.ExceptFromMembers | TwoWayAnova/TwoWayAnova/Controllers/AnovaController.cs:68 | `Except` yields exactly the positions of the first list that are not in the second, in order |
| OutlierFilter.FilterOutliers | TwoWayAnova/TwoWayAnova/Controllers/AnovaController.cs:42-68 | the outlier list holds exactly the positions of outliers and the kept list exactly the others, both increasing and in range |
| OutlierFilter.Partition | TwoWayAnova/TwoWayAnova/Controllers/AnovaController.cs:61-68 | outliers and kept observations are disjoint, their lengths add up to N, and together they are the input as a multiset |
| OutlierFilter.ListedOutliers | TwoWayAnova/TwoWayAnova/Controllers/AnovaController.cs:61-68 | every listed outlier is an outlier and no kept observation is |
| OutlierFilter.Deref | TwoWayAnova/TwoWayAnova/Controllers/AnovaController.cs:65-68 | the observations a position list names, in that list's order |
| OutlierFilter.SquaredDeviationsOutside | TwoWayAnova/TwoWayAnova/Controllers/AnovaController.cs:51-65 | the squared deviations are at least 4σ² per value outside the band, and strictly more when there is one |
| OutlierFilter.TailBound | TwoWayAnova/TwoWayAnova/Controllers/AnovaController.cs:42-65 | fewer than a quarter of an attribute's values lie outside its band (Chebyshev) |
| OutlierFilter.OutlierBound | TwoWayAnova/TwoWayAnova/Controllers/AnovaController.cs:61-68 | at most 3·⌊(N−1)/4⌋ observations are outliers, and 4·kept ≥ N + 3 |
| OutlierFilter.SmallInputsHaveNoOutliers | TwoWayAnova/TwoWayAnova/Controllers/AnovaController.cs:61-65 | with at most four observations there is no outlier |
| OutlierFilter.SmallInputsKeepEverything | TwoWayAnova/TwoWayAnova/Controllers/AnovaController.cs:68 | with at most four observations the kept list is the input |
| DataTable.RowOf | TwoWayAnova/TwoWayAnova/Controllers/AnovaController.cs:227 | the row `Rows.Add(item.Attribute1, item.Attribute2, item.Attribute3)` appends; read back by ObservationsOf in the round trip of ToDataTable |
| DataTable.RowsOf | TwoWayAnova/TwoWayAnova/Controllers/AnovaController.cs:226-228 | one row per observation, in list order, holding its three attributes |
| DataTable.ToDataTable | TwoWayAnova/TwoWayAnova/Controllers/AnovaController.cs:217-231 | the three named columns, then one row per observation in order; reading the rows back gives the input list |
| TwoWayAnova.Cells | TwoWayAnova/TwoWayAnova/Controllers/AnovaController.cs:93 | the `SelectMany` of all cells row by row; R·C of them for a grid (CellCount) |
| TwoWayAnova.Column | TwoWayAnova/TwoWayAnova/Controllers/AnovaController.cs:88 | the values of one column, one per row in row order |
| TwoWayAnova.GrandMean | TwoWayAnova/TwoWayAnova/Controllers/AnovaController.cs:93 | the average of all cells; its meaning is stated by GrandMeanOfRowMeans and GrandMeanOfColumnMeans |
| TwoWayAnova.SSB | TwoWayAnova/TwoWayAnova/Controllers/AnovaController.cs:95 | C times the squared deviations of the row means from the grand mean; stated by TotalIsBetweenPlusWithin and AnalyzeSigns |
| TwoWayAnova.SSW | TwoWayAnova/TwoWayAnova/Controllers/AnovaController.cs:97-98 | the squared deviations of every cell from its row's mean; stated by WithinRowsIsScaledRowVariances and TotalIsBetweenPlusWithin |
| TwoWayAnova.SSC | TwoWayAnova/TwoWayAnova/Controllers/AnovaController.cs:107 | R times the squared deviations of the column means from the grand mean; stated by ErrorIsResidualSumOfSquares (SSW − SSC is the residual sum of squares) and AnalyzeSigns |
| TwoWayAnova.SSE | TwoWayAnova/TwoWayAnova/Controllers/AnovaController.cs:108 | SSW − SSC with no clamping; its meaning is stated by ErrorIsResidualSumOfSquares and ErrorNonNegative |
| TwoWayAnova.SquareSums | TwoWayAnova/TwoWayAnova/Controllers/AnovaController.cs:98 | one sum of squares per row, as `row.Select(deviation => Math.Pow(deviation, 2)).Sum()`; its total is the same by columns (TransposeSquareTotal) |
| TwoWayAnova.RowSums | TwoWayAnova/TwoWayAnova/Controllers/AnovaController.cs:74 | one total per row |
| TwoWayAnova.ColumnSums | TwoWayAnova/TwoWayAnova/Controllers/AnovaController.cs:75 | one total per column, each the sum of that column |
| TwoWayAnova.RowMeans | TwoWayAnova/TwoWayAnova/Controllers/AnovaController.cs:77 | one mean per row |
| TwoWayAnova.ColumnMeans | TwoWayAnova/TwoWayAnova/Controllers/AnovaController.cs:78 | one mean per column, each the average of that column |
| TwoWayAnova.RowVariances | TwoWayAnova/TwoWayAnova/Controllers/AnovaController.cs:80-84 | one population variance per row |
| TwoWayAnova.ColumnVariances | TwoWayAnova/TwoWayAnova/Controllers/AnovaController.cs:86-90 | one population variance per column |
| TwoWayAnova.DeviationTable | TwoWayAnova/TwoWayAnova/Controllers/AnovaController.cs:97 | each row of the deviations is that row less its own mean |
| TwoWayAnova.Transpose | TwoWayAnova/TwoWayAnova/Controllers/AnovaController.cs:75-90 | the columns of a grid: entry (j, i) of the transpose is entry (i, j) of the grid |
| TwoWayAnova.TransposeTotal | TwoWayAnova/TwoWayAnova/Controllers/AnovaController.cs:74-75 | the row totals of the transpose add up to the row totals of the grid |
| TwoWayAnova.TransposeSquareTotal | TwoWayAnova/TwoWayAnova/Controllers/AnovaController.cs:95-108 | squares summed by column and by row give the same total |
| TwoWayAnova.RowAndColumnTotals | TwoWayAnova/TwoWayAnova/Controllers/AnovaController.cs:74-75 | row totals and column totals have the same sum, the sum of all cells |
| TwoWayAnova.WithinRowsIsScaledRowVariances | TwoWayAnova/TwoWayAnova/Controllers/AnovaController.cs:80-84 | SSW is C times the total of the row variances |
| TwoWayAnova.GrandMeanOfRowMeans | TwoWayAnova/TwoWayAnova/Controllers/AnovaController.cs:93 | the grand mean is the mean of the row means |
| TwoWayAnova.GrandMeanOfColumnMeans | TwoWayAnova/TwoWayAnova/Controllers/AnovaController.cs:93 | the grand mean is the mean of the column means |
| TwoWayAnova.TotalIsBetweenPlusWithin | TwoWayAnova/TwoWayAnova/Controllers/AnovaController.cs:95-98 | the total sum of squares about the grand mean is SSB + SSW |
| TwoWayAnova.ColumnOfDeviationsMean | TwoWayAnova/TwoWayAnova/Controllers/AnovaController.cs:97-107 | each column of the deviation table averages to that column's mean less the grand mean |
| TwoWayAnova.ResidualTable | TwoWayAnova/TwoWayAnova/Controllers/AnovaController.cs:107-108 | each residual is its cell less its row mean and its column mean, plus the grand mean |
| TwoWayAnova.ErrorIsResidualSumOfSquares | TwoWayAnova/TwoWayAnova/Controllers/AnovaController.cs:107-108 | SSE = SSW − SSC is the sum of the squared residuals |
| TwoWayAnova.ErrorNonNegative | TwoWayAnova/TwoWayAnova/Controllers/AnovaController.cs:108 | SSE is non-negative, and zero if and only if the table is exactly additive (every residual is zero) |
| TwoWayAnova.TwoWayPartition | TwoWayAnova/TwoWayAnova/Controllers/AnovaController.cs:95-108 | the total sum of squares is SSB + SSC + SSE |
| TwoWayAnova.FDistribution | TwoWayAnova/TwoWayAnova/Controllers/AnovaController.cs:233-236 | the cumulative distribution with dfn and dfd applied to the value; its use for the p-values is stated by Verdict |
| TwoWayAnova.FDistributionCriticalValue | TwoWayAnova/TwoWayAnova/Controllers/AnovaController.cs:238-241 | the inverse distribution with dfn and dfd applied to the probability; its use for the critical values is stated by Verdict |
| TwoWayAnova.Divide | TwoWayAnova/TwoWayAnova/Controllers/AnovaController.cs:104-113 | the double divisions of the mean squares and F ratios (also `F_value` at line 129), over non-zero divisors; their meaning is stated by Quotient and Ratio through MeanSquares and Ratios |
| TwoWayAnova.AnovaOfSums | TwoWayAnova/TwoWayAnova/Controllers/AnovaController.cs:100-102 | dfRows = R − 1 ≥ 1, dCol = C − 1 ≥ 1 and dfWithinRows = dfRows·dCol |
| TwoWayAnova.Analyze | TwoWayAnova/TwoWayAnova/Controllers/AnovaController.cs:74-130 | the degrees of freedom of a table of R rows and C columns |
| TwoWayAnova.MeanSquares | TwoWayAnova/TwoWayAnova/Controllers/AnovaController.cs:104-110 | the table holds the given SSB, SSW and SSC and SSE = SSW − SSC, and each mean square times its degrees of freedom is its sum of squares |
| TwoWayAnova.Ratios | TwoWayAnova/TwoWayAnova/Controllers/AnovaController.cs:112-113 | with SSB, SSC ≥ 0 and SSE > 0, MSE is positive, each F ratio times MSE is its mean square, both are non-negative, and `F_value` is `FRows` |
| TwoWayAnova.Verdict | TwoWayAnova/TwoWayAnova/Controllers/AnovaController.cs:115-130 | the p-values are 1 − CDF and the critical values are InvCDF at 0.95, with the source's degrees of freedom (`dfWithinRows + dCol` for `fCritat95`); the verdict is FAIL exactly when `F_value > fCritat95` and PASS otherwise |
| TwoWayAnova.AnalyzeAggregates | TwoWayAnova/TwoWayAnova/Controllers/AnovaController.cs:74-97 | the results table has one entry per row and per column, row and column totals agree, the grand mean is the mean of both kinds of mean, and the deviations are cells less row means |
| TwoWayAnova.AnalyzeWithinRows | TwoWayAnova/TwoWayAnova/Controllers/AnovaController.cs:80-98 | the table's SSW is C times the total of its row variances |
| TwoWayAnova.AnalyzePartition | TwoWayAnova/TwoWayAnova/Controllers/AnovaController.cs:95-108 | the table's SSB + SSW and SSB + SSC + SSE are both the total sum of squares |
| TwoWayAnova.AnalyzeResiduals | TwoWayAnova/TwoWayAnova/Controllers/AnovaController.cs:107-108 | the table's SSE is the residual sum of squares |
| TwoWayAnova.AnalyzeSigns | TwoWayAnova/TwoWayAnova/Controllers/AnovaController.cs:95-108 | the table's SSB and SSC are non-negative and its SSE is positive |
| TwoWayAnova.AnalyzeRatios | TwoWayAnova/TwoWayAnova/Controllers/AnovaController.cs:104-113 | the table's MSE is positive and its F ratios are non-negative quotients of the mean squares by MSE |
| AnovaController.KeptRows | TwoWayAnova/TwoWayAnova/Controllers/AnovaController.cs:68-71 | the rows of `ToDataTable(dataWithoutOutliers)`: one three-cell row per kept observation |
| AnovaController.AnovaOf | TwoWayAnova/TwoWayAnova/Controllers/AnovaController.cs:71-130 | the ANOVA of the kept observations has dfRows = R − 1 ≥ 1, dCol = 2 and dfWithinRows = 2·dfRows, and its verdict is FAIL exactly when `F_value` exceeds `fCritat95` |
| AnovaController.FilterOutLiers | TwoWayAnova/TwoWayAnova/Controllers/AnovaController.cs:36-130 | an empty list, and only an empty list, gets BadRequest "No data available in the JSON file."; otherwise the answer is Ok with: the bands; the outliers and the kept observations, each correctly classified and together a partition of the input; the ANOVA of the kept rows; and its degrees of freedom and verdict |

## Left out

- Reading the upload and deserializing the JSON, lines 19-34: this is I/O. The model starts from the parsed list, and the "Invalid found." answer for a missing file is not modelled. A JSON `null` reaches the same "No data available in the JSON file." answer through `data == null` at line 36; the model has no null list, and its empty list stands for both.
- Building the anonymous result objects, lines 133-190, and the `Ok` answer at line 191: the `Report` datatype keeps the same values, and its serialization is not modelled. One difference: each `Band` in `Bounds` also holds its attribute's mean, which the `StandardDeviationTable` object at lines 147-158 does not show.
- The exception handlers, lines 193-201: lines 193-196 map `FileNotFoundException` to `NotFound`, and lines 198-201 map any other exception to status 500. The model raises no exceptions.
- The F distribution of the MathNet library, used at lines 128 and 233-241: its cumulative distribution and its inverse are uninterpreted functions passed in a `FisherSnedecor` parameter. `FDistribution` and `FDistributionCriticalValue` apply them to the source's arguments. No property of the F distribution is used.
- `Math.Sqrt`: a parameter required to return the non-negative square root.
- IEEE `double` rounding, NaN and Infinity: the model uses exact reals, and `AnovaController.FilterOutLiers` and `TwoWayAnova.AnovaOfSums` require R ≥ 2 and SSE ≠ 0. The two excluded paths behave differently in the source:
  - With one kept observation (R = 1), dfRows and dfWithinRows are 0. The first F distribution built, at line 235 for the p-value at line 115, gets a zero degree of freedom and throws, so lines 116-130 are never reached. The handler at lines 198-201 turns that into status 500.
  - With R ≥ 2 and SSE = 0, MSE is 0 (line 109). The divisions at lines 104, 105, 109 and 110 divide by degrees of freedom of at least 1 and stay finite. Only the divisions by MSE at lines 112, 113 and 129 give ±Infinity or NaN, without throwing. The p-values and the verdict at line 130 are then computed from those values. An exactly additive table whose row means differ (SSB > 0) and where every intermediate value is exact in binary, such as (1,2,3),(2,3,4), gives `F_value` = +Infinity and "FAIL HOMOGENEITY TEST". An additive table whose row means are all equal (SSB = 0), a constant table among them, gives `F_value` = 0/0 = NaN, and since `NaN > fCritat95` is false, it gives "PASS HOMOGENEITY TEST". The model has no values for these.
- Except: its contract is stated for an increasing first list, a list without repeats. That is what `FilterOutliers` passes, the positions 0..N−1 in order. `ExceptFrom` also models the general case, in which a repeated element is yielded only once, but no lemma states that case.
- `DataTable` internals, `object` boxing and `Convert.ToDouble`: a table is modelled by its column names and its rows of reals.
- `TwoWayAnovaApi/Lambda/LambdaEntryPoint.cs`: AWS Lambda hosting glue, with no logic of its own.
