/**
 * Sums, means and population variances over sequences of reals: the LINQ
 * aggregates `Sum` and `Average` used by the controller, `Math.Pow(x, 2)`,
 * and the controller's two private helpers `CalculateVariance` and
 * `CalculateStandardDeviation`.
 */
module Statistics {

  /** `Enumerable.Sum` over a sequence of reals. */
  function Sum(xs: seq<real>): real
  {
    if xs == [] then 0.0 else xs[0] + Sum(xs[1..])
  }

  /** `Enumerable.Average`: the sum divided by the count. Undefined on an empty sequence. */
  function Average(xs: seq<real>): real
    requires |xs| > 0
  {
    Sum(xs) / |xs| as real
  }

  /**
   * `Math.Pow(x, 2)`. It is written as the product of `x` with `Copy(x)`: on a
   * product whose two factors are the very same term the solver's linear
   * arithmetic gives up, and `Copy` keeps the two factors apart.
   */
  function Square(x: real): real
  {
    x * Copy(x)
  }

  /** The identity on reals; see `Square`. */
  function Copy(x: real): real
  {
    x
  }

  /** `xs.Select(v => v - m)`: the deviation of every value from `m`. */
  function Deviations(xs: seq<real>, m: real): (r: seq<real>)
    ensures |r| == |xs|
    ensures forall i :: 0 <= i < |xs| ==> r[i] == xs[i] - m
  {
    if xs == [] then [] else [xs[0] - m] + Deviations(xs[1..], m)
  }

  /** `xs.Sum(v => Math.Pow(v, 2))`, which is never negative. */
  function SumOfSquares(xs: seq<real>): (r: real)
    ensures r >= 0.0
  {
    if xs == [] then 0.0 else Square(xs[0]) + SumOfSquares(xs[1..])
  }

  /**
   * `CalculateVariance`: the population variance, the mean of the squared
   * deviations from the mean (it divides by the count, not the count minus one).
   */
  function Variance(xs: seq<real>): (r: real)
    requires |xs| > 0
    ensures r >= 0.0
    ensures Times(|xs| as real, r) == SumOfSquares(Deviations(xs, Average(xs)))
  {
    SumOfSquares(Deviations(xs, Average(xs))) / |xs| as real
  }

  /** What `Math.Sqrt` is taken to be: a non-negative square root of every non-negative real. */
  ghost predicate IsSquareRoot(sqrt: real -> real)
  {
    forall x :: 0.0 <= x ==> 0.0 <= sqrt(x) && Square(sqrt(x)) == x
  }

  /** `CalculateStandardDeviation`: the non-negative square root of the population variance. */
  function StandardDeviation(xs: seq<real>, sqrt: real -> real): (r: real)
    requires |xs| > 0
    requires IsSquareRoot(sqrt)
    ensures r >= 0.0
    ensures Square(r) == Variance(xs)
  {
    sqrt(Variance(xs))
  }

  lemma SquareNonNegative(x: real)
    ensures Square(x) >= 0.0
  {
  }

  /** A square is zero only for zero. */
  lemma SquarePositive(x: real)
    requires x != 0.0
    ensures Square(x) > 0.0
  {
  }

  /** Squaring is strictly increasing on the non-negative reals. */
  lemma SquareStrictlyIncreasing(a: real, b: real)
    requires a > b >= 0.0
    ensures Square(a) > Square(b)
  {
    assert Square(a) - Square(b) == (a - b) * (a + b);
    ProductOfPositives(a - b, a + b);
  }

  lemma ProductOfPositives(a: real, b: real)
    requires a > 0.0 && b > 0.0
    ensures a * b > 0.0
  {
  }

  /** The count times the mean is the sum. */
  lemma CountTimesAverage(xs: seq<real>)
    requires |xs| > 0
    ensures Times(|xs| as real, Average(xs)) == Sum(xs)
  {
  }

  /** A sum of squares is zero exactly when every value is zero. */
  lemma {:induction false} SumOfSquaresZero(xs: seq<real>)
    ensures SumOfSquares(xs) == 0.0 <==> forall i :: 0 <= i < |xs| ==> xs[i] == 0.0
  {
    if xs != [] {
      SumOfSquaresZero(xs[1..]);
      assert forall i :: 1 <= i < |xs| ==> xs[i] == xs[1..][i - 1];
      if xs[0] != 0.0 {
        SquarePositive(xs[0]);
      }
    }
  }

  lemma {:induction false} SumAppend(a: seq<real>, b: seq<real>)
    ensures Sum(a + b) == Sum(a) + Sum(b)
  {
    if a == [] {
      assert a + b == b;
    } else {
      assert (a + b)[1..] == a[1..] + b;
      SumAppend(a[1..], b);
    }
  }

  lemma {:induction false} SumOfSquaresAppend(a: seq<real>, b: seq<real>)
    ensures SumOfSquares(a + b) == SumOfSquares(a) + SumOfSquares(b)
  {
    if a == [] {
      assert a + b == b;
    } else {
      assert (a + b)[1..] == a[1..] + b;
      SumOfSquaresAppend(a[1..], b);
    }
  }

  /** The sum of the deviations from `m` is the sum less n times `m`. */
  lemma {:induction false} SumOfDeviations(xs: seq<real>, m: real)
    ensures Sum(Deviations(xs, m)) == Sum(xs) - |xs| as real * m
  {
    if xs != [] {
      assert Deviations(xs, m)[1..] == Deviations(xs[1..], m);
      SumOfDeviations(xs[1..], m);
    }
  }

  /** The deviations from the mean cancel out. */
  lemma DeviationsFromMeanSumToZero(xs: seq<real>, m: real)
    requires |xs| > 0 && m == Average(xs)
    ensures Sum(Deviations(xs, m)) == 0.0
  {
    CountTimesAverage(xs);
    SumOfDeviations(xs, m);
  }

  /** (a - b)^2 = a^2 - 2ab + b^2. */
  lemma SquareOfDifference(a: real, b: real)
    ensures Square(a - b) == Square(a) - 2.0 * a * b + Square(b)
  {
  }

  /**
   * The product a * b as a function application. The solver matches equal
   * arguments of a function but not the factors of a non-linear product, so
   * contracts that other lemmas combine (N times a variance, C times a sum)
   * state their products with `Times`; it is plain multiplication.
   */
  function Times(a: real, b: real): real
  {
    a * b
  }

  lemma ExpandStep(x: real, g: real, y: real, n: real, q: real, s: real, d: real, bigN: real, bigQ: real, bigS: real, bigD: real)
    requires y == x - g && d == q - 2.0 * Times(g, s) + Times(n, Square(g))
    requires bigN == n + 1.0 && bigQ == Square(x) + q && bigS == x + s && bigD == Square(y) + d
    ensures bigD == bigQ - 2.0 * Times(g, bigS) + Times(bigN, Square(g))
  {
    SquareOfDifference(x, g);
  }

  lemma {:induction false} SquaredDeviationsExpand(xs: seq<real>, g: real)
    ensures SumOfSquares(Deviations(xs, g)) == SumOfSquares(xs) - 2.0 * Times(g, Sum(xs)) + Times(|xs| as real, Square(g))
  {
    if xs != [] {
      var d := Deviations(xs, g);
      var t := xs[1..];
      assert d[1..] == Deviations(t, g);
      SquaredDeviationsExpand(t, g);
      ExpandStep(xs[0], g, d[0], |t| as real, SumOfSquares(t), Sum(t), SumOfSquares(d[1..]),
                 |xs| as real, SumOfSquares(xs), Sum(xs), SumOfSquares(d));
    }
  }

  lemma ParallelAxisAlgebra(n: real, m: real, g: real, q: real, s: real)
    requires s == Times(n, m)
    ensures q - 2.0 * Times(g, s) + Times(n, Square(g))
         == (q - 2.0 * Times(m, s) + Times(n, Square(m))) + Times(n, Square(m - g))
  {
    SquareOfDifference(m, g);
    assert m * s == n * Square(m);
  }

  /**
   * The parallel-axis decomposition: the squared deviations from any centre `g`
   * are the squared deviations from the mean `m` plus n times (m - g)^2.
   */
  lemma ParallelAxis(xs: seq<real>, m: real, g: real)
    requires |xs| > 0 && m == Average(xs)
    ensures SumOfSquares(Deviations(xs, g)) == SumOfSquares(Deviations(xs, m)) + Times(|xs| as real, Square(m - g))
  {
    CountTimesAverage(xs);
    SquaredDeviationsExpand(xs, g);
    SquaredDeviationsExpand(xs, m);
    ParallelAxisAlgebra(|xs| as real, m, g, SumOfSquares(xs), Sum(xs));
  }

  /** Reference definition: n times the population variance is the sum of squares less n times the squared mean. */
  lemma VarianceBySumOfSquares(xs: seq<real>, m: real)
    requires |xs| > 0 && m == Average(xs)
    ensures Times(|xs| as real, Variance(xs)) == SumOfSquares(xs) - Times(|xs| as real, Square(m))
  {
    ParallelAxis(xs, m, 0.0);
    DeviationsFromZero(xs);
    assert m - 0.0 == m;
  }

  lemma DeviationsFromZero(xs: seq<real>)
    ensures Deviations(xs, 0.0) == xs
  {
    assert forall i :: 0 <= i < |xs| ==> Deviations(xs, 0.0)[i] == xs[i];
  }

  /** The population variance is zero exactly when every value equals the mean. */
  lemma VarianceZero(xs: seq<real>, m: real)
    requires |xs| > 0 && m == Average(xs)
    ensures Variance(xs) == 0.0 <==> forall i :: 0 <= i < |xs| ==> xs[i] == m
  {
    var d := Deviations(xs, m);
    SumOfSquaresZero(d);
    assert Variance(xs) == 0.0 <==> SumOfSquares(d) == 0.0;
  }

  /** The squares of the values, one by one. */
  function Squares(xs: seq<real>): (r: seq<real>)
    ensures |r| == |xs|
    ensures forall i :: 0 <= i < |xs| ==> r[i] == Square(xs[i])
  {
    if xs == [] then [] else [Square(xs[0])] + Squares(xs[1..])
  }

  lemma {:induction false} SumOfSquaresIsSumOfSquares(xs: seq<real>)
    ensures SumOfSquares(xs) == Sum(Squares(xs))
  {
    if xs != [] {
      assert Squares(xs)[1..] == Squares(xs[1..]);
      SumOfSquaresIsSumOfSquares(xs[1..]);
    }
  }

  lemma TimesAdd(k: real, a: real, b: real, d: real)
    requires d == a + b
    ensures Times(k, d) == Times(k, a) + Times(k, b)
  {
  }

  /** Sum distributes over the pointwise combination a + k b. */
  lemma {:induction false} SumOfSumAndScaled(a: seq<real>, b: seq<real>, c: seq<real>, k: real)
    requires |a| == |b| == |c|
    requires forall i :: 0 <= i < |c| ==> c[i] == a[i] + Times(k, b[i])
    ensures Sum(c) == Sum(a) + Times(k, Sum(b))
  {
    if c != [] {
      assert forall i :: 1 <= i < |c| ==> c[1..][i - 1] == c[i] && a[1..][i - 1] == a[i] && b[1..][i - 1] == b[i];
      SumOfSumAndScaled(a[1..], b[1..], c[1..], k);
      TimesAdd(k, b[0], Sum(b[1..]), Sum(b));
    }
  }

  /** A sum of non-negative values is non-negative, and zero only when every value is. */
  lemma {:induction false} SumOfNonNegatives(xs: seq<real>)
    requires forall i :: 0 <= i < |xs| ==> xs[i] >= 0.0
    ensures Sum(xs) >= 0.0
    ensures Sum(xs) == 0.0 <==> forall i :: 0 <= i < |xs| ==> xs[i] == 0.0
  {
    if xs != [] {
      assert forall i :: 1 <= i < |xs| ==> xs[1..][i - 1] == xs[i];
      SumOfNonNegatives(xs[1..]);
    }
  }

  /** Sum distributes over scaling by k. */
  lemma {:induction false} SumOfScaled(b: seq<real>, c: seq<real>, k: real)
    requires |b| == |c|
    requires forall i :: 0 <= i < |c| ==> c[i] == Times(k, b[i])
    ensures Sum(c) == Times(k, Sum(b))
  {
    if c != [] {
      assert forall i :: 1 <= i < |c| ==> c[1..][i - 1] == c[i] && b[1..][i - 1] == b[i];
      SumOfScaled(b[1..], c[1..], k);
      TimesAdd(k, b[0], Sum(b[1..]), Sum(b));
    }
  }

  lemma TimesNonNegative(c: real, k: real)
    requires c >= 0.0 && k >= 0.0
    ensures Times(c, k) >= 0.0
  {
  }

  lemma {:induction false} DeviationsOfAppend(a: seq<real>, b: seq<real>, m: real)
    ensures Deviations(a + b, m) == Deviations(a, m) + Deviations(b, m)
  {
    if a == [] {
      assert a + b == b;
    } else {
      assert (a + b)[1..] == a[1..] + b;
      DeviationsOfAppend(a[1..], b, m);
    }
  }
}
