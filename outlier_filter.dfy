/**
 * The first stage of `FilterOutLiers`: per attribute, the band mean +- 2 sigma,
 * the list of outliers (`data.Where(...)`) and the list of the other
 * observations (`data.Except(outliers)`).
 *
 * The deserialized list holds distinct objects and `Except` compares them by
 * reference, so an observation is identified here by its position in `data`.
 * `outliers` and `dataWithoutOutliers` are lists of such references.
 */
module OutlierFilter {
  import opened Statistics

  /** `AnovaData`: one observation with its three attributes. */
  datatype Observation = Observation(attribute1: real, attribute2: real, attribute3: real)

  datatype Attribute = Attribute1 | Attribute2 | Attribute3

  function Value(o: Observation, a: Attribute): real
  {
    match a
    case Attribute1 => o.attribute1
    case Attribute2 => o.attribute2
    case Attribute3 => o.attribute3
  }

  /** `data.Select(item => item.AttributeK)`. */
  function Values(data: seq<Observation>, a: Attribute): (r: seq<real>)
    ensures |r| == |data|
    ensures forall i :: 0 <= i < |data| ==> r[i] == Value(data[i], a)
  {
    if data == [] then [] else [Value(data[0], a)] + Values(data[1..], a)
  }

  /** The limits of one attribute, with the mean and deviation they come from. */
  datatype Band = Band(mean: real, stdDev: real, lower: real, upper: real)

  /** `meanAK`, `stdDevAK`, `lowerLimitAK` and `upperLimitAK` for the values of one attribute. */
  function ColumnBand(values: seq<real>, sqrt: real -> real): (b: Band)
    requires |values| > 0 && IsSquareRoot(sqrt)
    ensures b.mean == Average(values)
    ensures b.stdDev >= 0.0 && Square(b.stdDev) == Variance(values)
    ensures b.upper - b.mean == b.mean - b.lower == 2.0 * b.stdDev
    ensures b.lower <= b.mean <= b.upper
  {
    var mean := Average(values);
    var stdDev := StandardDeviation(values, sqrt);
    Band(mean, stdDev, mean - 2.0 * stdDev, mean + 2.0 * stdDev)
  }

  datatype Bounds = Bounds(band1: Band, band2: Band, band3: Band)

  function BandOf(bounds: Bounds, a: Attribute): Band
  {
    match a
    case Attribute1 => bounds.band1
    case Attribute2 => bounds.band2
    case Attribute3 => bounds.band3
  }

  /** The three bands of a non-empty list of observations. */
  function ComputeBounds(data: seq<Observation>, sqrt: real -> real): (b: Bounds)
    requires |data| > 0 && IsSquareRoot(sqrt)
    ensures forall a :: BandOf(b, a) == ColumnBand(Values(data, a), sqrt)
  {
    Bounds(ColumnBand(Values(data, Attribute1), sqrt),
           ColumnBand(Values(data, Attribute2), sqrt),
           ColumnBand(Values(data, Attribute3), sqrt))
  }

  /** Strictly below the lower limit or strictly above the upper one; a value on a limit is inside. */
  predicate Outside(x: real, b: Band)
  {
    x < b.lower || x > b.upper
  }

  /** The predicate of `data.Where(...)`. */
  predicate IsOutlier(o: Observation, bounds: Bounds)
  {
    Outside(o.attribute1, bounds.band1) || Outside(o.attribute2, bounds.band2) || Outside(o.attribute3, bounds.band3)
  }

  /** An observation is an outlier exactly when one of its attributes lies outside that attribute's band. */
  lemma OutlierIffSomeAttributeOutside(o: Observation, bounds: Bounds)
    ensures IsOutlier(o, bounds) <==> exists a :: Outside(Value(o, a), BandOf(bounds, a))
  {
    if IsOutlier(o, bounds) {
      var a := if Outside(o.attribute1, bounds.band1) then Attribute1
               else if Outside(o.attribute2, bounds.band2) then Attribute2
               else Attribute3;
      assert Outside(Value(o, a), BandOf(bounds, a));
    }
  }


  predicate InRange(data: seq<Observation>, refs: seq<nat>)
  {
    forall i :: 0 <= i < |refs| ==> refs[i] < |data|
  }

  /** Strictly increasing references: in list order and without repetition. */
  predicate Increasing(refs: seq<nat>)
  {
    forall i, j :: 0 <= i < j < |refs| ==> refs[i] < refs[j]
  }

  /** The references lo, lo + 1, ..., hi - 1. */
  function Refs(lo: nat, hi: nat): (r: seq<nat>)
    requires lo <= hi
    ensures |r| == hi - lo
    ensures forall i :: 0 <= i < |r| ==> r[i] == lo + i
    decreases hi - lo
  {
    if lo == hi then [] else [lo] + Refs(lo + 1, hi)
  }

  /** `Where(IsOutlier)` over a list of references. */
  function WhereOutlier(data: seq<Observation>, bounds: Bounds, refs: seq<nat>): seq<nat>
    requires InRange(data, refs)
  {
    if refs == [] then []
    else if IsOutlier(data[refs[0]], bounds) then [refs[0]] + WhereOutlier(data, bounds, refs[1..])
    else WhereOutlier(data, bounds, refs[1..])
  }

  /** Keeps exactly the outliers, in the order of `refs`. */
  lemma {:induction false} WhereOutlierMembers(data: seq<Observation>, bounds: Bounds, refs: seq<nat>)
    requires InRange(data, refs)
    ensures InRange(data, WhereOutlier(data, bounds, refs))
    ensures forall r :: r in WhereOutlier(data, bounds, refs) <==> r in refs && IsOutlier(data[r], bounds)
    ensures Increasing(refs) ==> Increasing(WhereOutlier(data, bounds, refs))
  {
    if refs != [] {
      var tail := refs[1..];
      WhereOutlierMembers(data, bounds, tail);
      assert forall r :: r in refs <==> r == refs[0] || r in tail;
      if Increasing(refs) {
        TailOfIncreasing(refs);
        if IsOutlier(data[refs[0]], bounds) {
          ConsIncreasing(refs[0], WhereOutlier(data, bounds, tail));
        }
      }
    }
  }

  /** The tail of an increasing list is increasing and lies above the head. */
  lemma TailOfIncreasing(s: seq<nat>)
    requires Increasing(s) && s != []
    ensures Increasing(s[1..])
    ensures forall r :: r in s[1..] ==> s[0] < r
  {
    forall r | r in s[1..] ensures s[0] < r {
      var j :| 0 <= j < |s[1..]| && s[1..][j] == r;
      assert s[j + 1] == r;
    }
  }

  /** A head below everything in an increasing tail gives an increasing list. */
  lemma ConsIncreasing(x: nat, t: seq<nat>)
    requires Increasing(t)
    requires forall r :: r in t ==> x < r
    ensures Increasing([x] + t)
  {
    var s := [x] + t;
    forall i, j | 0 <= i < j < |s| ensures s[i] < s[j] {
      assert s[j] == t[j - 1];
      assert t[j - 1] in t;
      if i > 0 {
        assert s[i] == t[i - 1];
      }
    }
  }

  /**
   * `Enumerable.Except`: it collects `second` into a set and then yields each
   * element of `first` that the set does not yet hold, adding it as it goes.
   * `seen` is that set.
   */
  function ExceptFrom(first: seq<nat>, seen: set<nat>): seq<nat>
  {
    if first == [] then []
    else if first[0] in seen then ExceptFrom(first[1..], seen)
    else [first[0]] + ExceptFrom(first[1..], seen + {first[0]})
  }

  /**
   * `first.Except(second)`: the seen set starts as the elements of `second`.
   * On an increasing list it keeps exactly the elements not in `second`, in order.
   */
  function Except(first: seq<nat>, second: seq<nat>): (e: seq<nat>)
    ensures Increasing(first) ==> Increasing(e) && forall r :: r in e <==> r in first && r !in second
  {
    var seen := set i | 0 <= i < |second| :: second[i];
    if Increasing(first) then
      ExceptFromMembers(first, seen);
      ExceptFrom(first, seen)
    else
      ExceptFrom(first, seen)
  }

  /** On a list without repetition `Except` is order-preserving removal. */
  lemma {:induction false} ExceptFromMembers(first: seq<nat>, seen: set<nat>)
    requires Increasing(first)
    ensures forall r :: r in ExceptFrom(first, seen) <==> r in first && r !in seen
    ensures Increasing(ExceptFrom(first, seen))
  {
    if first != [] {
      var tail := first[1..];
      TailOfIncreasing(first);
      assert forall r :: r in first <==> r == first[0] || r in tail;
      if first[0] in seen {
        ExceptFromMembers(tail, seen);
      } else {
        var rest := ExceptFrom(tail, seen + {first[0]});
        ExceptFromMembers(tail, seen + {first[0]});
        assert forall r :: r in rest <==> r in tail && r !in seen;
        ConsIncreasing(first[0], rest);
      }
    }
  }

  /** The observations a list of references points to. */
  function Deref(data: seq<Observation>, refs: seq<nat>): (r: seq<Observation>)
    requires InRange(data, refs)
    ensures |r| == |refs|
    ensures forall i :: 0 <= i < |refs| ==> r[i] == data[refs[i]]
  {
    if refs == [] then [] else [data[refs[0]]] + Deref(data, refs[1..])
  }

  /** The two lists `outliers` and `dataWithoutOutliers`, with the bands that split them. */
  datatype Split = Split(bounds: Bounds, outliers: seq<nat>, kept: seq<nat>)

  /**
   * Lines 41-68: the bands of the three attributes, `outliers` and
   * `dataWithoutOutliers`. Both lists are in list order; together they cover
   * every observation once.
   */
  function FilterOutliers(data: seq<Observation>, sqrt: real -> real): (s: Split)
    requires |data| > 0 && IsSquareRoot(sqrt)
    ensures s.bounds == ComputeBounds(data, sqrt)
    ensures InRange(data, s.outliers) && InRange(data, s.kept)
    ensures Increasing(s.outliers) && Increasing(s.kept)
    ensures forall r: nat :: r in s.outliers <==> r < |data| && IsOutlier(data[r], s.bounds)
    ensures forall r: nat :: r in s.kept <==> r < |data| && !IsOutlier(data[r], s.bounds)
  {
    var bounds := ComputeBounds(data, sqrt);
    var all := Refs(0, |data|);
    var outliers := WhereOutlier(data, bounds, all);
    SplitMembers(data, bounds);
    Split(bounds, outliers, Except(all, outliers))
  }

  lemma SplitMembers(data: seq<Observation>, bounds: Bounds)
    ensures var all := Refs(0, |data|);
      var outliers := WhereOutlier(data, bounds, all);
      var kept := Except(all, outliers);
      InRange(data, outliers) && InRange(data, kept) && Increasing(outliers) && Increasing(kept)
      && (forall r: nat :: r in outliers <==> r < |data| && IsOutlier(data[r], bounds))
      && (forall r: nat :: r in kept <==> r < |data| && !IsOutlier(data[r], bounds))
  {
    var all := Refs(0, |data|);
    AllRefs(|data|);
    WhereOutlierMembers(data, bounds, all);
    var outliers := WhereOutlier(data, bounds, all);
    var seen := set i | 0 <= i < |outliers| :: outliers[i];
    assert forall r: nat :: r in seen <==> r in outliers;
    ExceptFromMembers(all, seen);
    var kept := Except(all, outliers);
    assert forall i :: 0 <= i < |kept| ==> kept[i] in kept;
  }

  /** `Refs(0, n)` lists every position below n once, in order. */
  lemma AllRefs(n: nat)
    ensures Increasing(Refs(0, n))
    ensures forall r: nat :: r in Refs(0, n) <==> r < n
  {
    var all := Refs(0, n);
    forall r: nat | r < n ensures r in all {
      assert all[r] == r;
    }
  }

  /** The two lists are disjoint and together hold every observation exactly once. */
  lemma Partition(data: seq<Observation>, sqrt: real -> real)
    requires |data| > 0 && IsSquareRoot(sqrt)
    ensures var s := FilterOutliers(data, sqrt);
      (forall r :: !(r in s.outliers && r in s.kept)) && |s.outliers| + |s.kept| == |data|
      && multiset(Deref(data, s.outliers)) + multiset(Deref(data, s.kept)) == multiset(data)
  {
    var s := FilterOutliers(data, sqrt);
    Merge(data, s.outliers, s.kept, 0);
    assert data[0..] == data;
  }

  /**
   * Two increasing lists that share nothing and together hold the positions
   * lo..|data| - 1 are as long as data[lo..] and point to its observations.
   */
  lemma {:induction false} Merge(data: seq<Observation>, o: seq<nat>, k: seq<nat>, lo: nat)
    requires lo <= |data| && InRange(data, o) && InRange(data, k)
    requires Increasing(o) && Increasing(k)
    requires forall r :: r in o || r in k <==> lo <= r < |data|
    requires forall r :: !(r in o && r in k)
    ensures |o| + |k| == |data| - lo
    ensures multiset(Deref(data, o)) + multiset(Deref(data, k)) == multiset(data[lo..])
    decreases |data| - lo
  {
    if lo == |data| {
      NoMembersMeansEmpty(o);
      NoMembersMeansEmpty(k);
    } else {
      assert data[lo..] == [data[lo]] + data[lo + 1..];
      if lo in o {
        DropHead(data, o, k, lo);
        Merge(data, o[1..], k, lo + 1);
      } else {
        DropHead(data, k, o, lo);
        Merge(data, o, k[1..], lo + 1);
      }
    }
  }

  lemma NoMembersMeansEmpty(s: seq<nat>)
    ensures (forall r :: r !in s) ==> s == []
  {
    if s != [] {
      assert s[0] in s;
    }
  }

  /** The step of `Merge`: position `lo` heads the list that holds it. */
  lemma DropHead(data: seq<Observation>, o: seq<nat>, k: seq<nat>, lo: nat)
    requires lo < |data| && InRange(data, o) && InRange(data, k)
    requires Increasing(o) && Increasing(k)
    requires forall r :: r in o || r in k <==> lo <= r < |data|
    requires forall r :: !(r in o && r in k)
    requires lo in o
    ensures InRange(data, o[1..]) && Increasing(o[1..])
    ensures forall r :: r in o[1..] || r in k <==> lo + 1 <= r < |data|
    ensures forall r :: !(r in o[1..] && r in k)
    ensures Deref(data, o) == [data[lo]] + Deref(data, o[1..])
  {
    HeadIsLeast(o, lo);
  }

  /** In an increasing list whose members are all at least `lo`, a member `lo` comes first. */
  lemma HeadIsLeast(s: seq<nat>, lo: nat)
    requires Increasing(s) && lo in s
    requires forall r :: r in s ==> lo <= r
    ensures s[0] == lo && Increasing(s[1..])
    ensures forall r :: r in s[1..] <==> r in s && r != lo
  {
    assert s[0] in s;
    TailOfIncreasing(s);
    assert forall r :: r in s <==> r == s[0] || r in s[1..];
  }

  /** How many of the values lie outside the band. */
  function CountOutside(xs: seq<real>, b: Band): (c: nat)
    ensures c <= |xs|
  {
    if xs == [] then 0 else (if Outside(xs[0], b) then 1 else 0) + CountOutside(xs[1..], b)
  }

  /** A value more than 2s away from m has a squared deviation above 4 s^2. */
  lemma OutsideSquare(x: real, m: real, s: real)
    requires s >= 0.0 && (x < m - 2.0 * s || x > m + 2.0 * s)
    ensures Square(x - m) > 4.0 * Square(s)
  {
    var a := if x > m then x - m else m - x;
    SquareStrictlyIncreasing(a, 2.0 * s);
    assert Square(x - m) == Square(a);
    assert Square(2.0 * s) == 4.0 * Square(s);
  }

  lemma TimesStep(c: real, c1: real, k: real)
    requires c1 == c + 1.0
    ensures Times(c1, k) == Times(c, k) + k
  {
  }

  /** Every value outside mean +- 2s adds more than 4 s^2 to the squared deviations from the mean. */
  lemma {:induction false} SquaredDeviationsOutside(xs: seq<real>, b: Band, m: real, s: real, k: real)
    requires s >= 0.0 && b.lower == m - 2.0 * s && b.upper == m + 2.0 * s && k == 4.0 * Square(s)
    ensures SumOfSquares(Deviations(xs, m)) >= Times(CountOutside(xs, b) as real, k)
    ensures CountOutside(xs, b) > 0 ==> SumOfSquares(Deviations(xs, m)) > Times(CountOutside(xs, b) as real, k)
  {
    SquareNonNegative(s);
    if xs == [] {
      TimesNonNegative(0.0, k);
    } else {
      var d := Deviations(xs, m);
      var tail := xs[1..];
      assert d[1..] == Deviations(tail, m);
      SquaredDeviationsOutside(tail, b, m, s, k);
      TimesNonNegative(CountOutside(tail, b) as real, k);
      if Outside(xs[0], b) {
        OutsideSquare(xs[0], m, s);
        TimesStep(CountOutside(tail, b) as real, CountOutside(xs, b) as real, k);
      } else {
        assert CountOutside(xs, b) == CountOutside(tail, b);
        SquareNonNegative(d[0]);
      }
    }
  }

  lemma PositiveFactor(a: real, b: real)
    requires b >= 0.0 && a * b > 0.0
    ensures a > 0.0
  {
  }

  lemma ChebyshevAlgebra(v: real, n: real, c: real, ssd: real, k: real)
    requires v >= 0.0 && n > 0.0 && c >= 0.0 && k == 4.0 * v
    requires ssd == Times(n, v) && ssd >= Times(c, k)
    requires c > 0.0 ==> ssd > Times(c, k)
    ensures 4.0 * c < n
  {
    if c > 0.0 {
      assert (n - 4.0 * c) * v > 0.0;
      PositiveFactor(n - 4.0 * c, v);
    }
  }

  /**
   * Chebyshev's bound for the band of one attribute: fewer than a quarter of
   * the values lie strictly outside mean +- 2 sigma.
   */
  lemma TailBound(xs: seq<real>, sqrt: real -> real)
    requires |xs| > 0 && IsSquareRoot(sqrt)
    ensures 4 * CountOutside(xs, ColumnBand(xs, sqrt)) < |xs|
  {
    var b := ColumnBand(xs, sqrt);
    var m, s := b.mean, b.stdDev;
    var k := 4.0 * Square(s);
    SquaredDeviationsOutside(xs, b, m, s, k);
    ChebyshevAlgebra(Variance(xs), |xs| as real, CountOutside(xs, b) as real, SumOfSquares(Deviations(xs, m)), k);
  }

  /** Every outlier at position lo or later lies outside the band of at least one attribute. */
  lemma {:induction false} OutlierCount(data: seq<Observation>, bounds: Bounds, lo: nat)
    requires lo <= |data|
    ensures |WhereOutlier(data, bounds, Refs(lo, |data|))|
         <= CountOutside(Values(data, Attribute1)[lo..], bounds.band1)
          + CountOutside(Values(data, Attribute2)[lo..], bounds.band2)
          + CountOutside(Values(data, Attribute3)[lo..], bounds.band3)
    decreases |data| - lo
  {
    if lo < |data| {
      var refs := Refs(lo, |data|);
      assert refs[1..] == Refs(lo + 1, |data|);
      OutlierCount(data, bounds, lo + 1);
      var v1, v2, v3 := Values(data, Attribute1), Values(data, Attribute2), Values(data, Attribute3);
      assert v1[lo..][1..] == v1[lo + 1..];
      assert v2[lo..][1..] == v2[lo + 1..];
      assert v3[lo..][1..] == v3[lo + 1..];
    }
  }

  /**
   * Each attribute rejects fewer than a quarter of the observations, so at
   * most 3 floor((N - 1) / 4) are outliers and more than a quarter are kept.
   */
  lemma OutlierBound(data: seq<Observation>, sqrt: real -> real)
    requires |data| > 0 && IsSquareRoot(sqrt)
    ensures |FilterOutliers(data, sqrt).outliers| <= 3 * ((|data| - 1) / 4)
    ensures 4 * |FilterOutliers(data, sqrt).kept| >= |data| + 3
  {
    var s := FilterOutliers(data, sqrt);
    Partition(data, sqrt);
    OutlierCount(data, s.bounds, 0);
    var v1, v2, v3 := Values(data, Attribute1), Values(data, Attribute2), Values(data, Attribute3);
    assert v1[0..] == v1 && v2[0..] == v2 && v3[0..] == v3;
    TailBound(v1, sqrt);
    TailBound(v2, sqrt);
    TailBound(v3, sqrt);
    assert BandOf(s.bounds, Attribute1) == s.bounds.band1;
    assert BandOf(s.bounds, Attribute2) == s.bounds.band2;
    assert BandOf(s.bounds, Attribute3) == s.bounds.band3;
    var c1 := CountOutside(v1, s.bounds.band1);
    var c2 := CountOutside(v2, s.bounds.band2);
    var c3 := CountOutside(v3, s.bounds.band3);
    assert c1 <= (|data| - 1) / 4 && c2 <= (|data| - 1) / 4 && c3 <= (|data| - 1) / 4;
  }

  /**
   * With at most four observations none is an outlier. Four is what the
   * Chebyshev bound gives, not the exact threshold: by Samuelson's inequality
   * no value of five observations lies strictly beyond two standard
   * deviations either, and six, such as 5, -1, -1, -1, -1, -1 in one
   * attribute, can hold an outlier.
   */
  lemma SmallInputsHaveNoOutliers(data: seq<Observation>, sqrt: real -> real)
    requires 0 < |data| <= 4 && IsSquareRoot(sqrt)
    ensures FilterOutliers(data, sqrt).outliers == []
  {
    OutlierBound(data, sqrt);
    assert (|data| - 1) / 4 == 0;
  }

  /** With at most four observations every one of them is kept, in order. */
  lemma SmallInputsKeepEverything(data: seq<Observation>, sqrt: real -> real)
    requires 0 < |data| <= 4 && IsSquareRoot(sqrt)
    ensures Deref(data, FilterOutliers(data, sqrt).kept) == data
  {
    var s := FilterOutliers(data, sqrt);
    SmallInputsHaveNoOutliers(data, sqrt);
    Partition(data, sqrt);
    OnlyIncreasingListOfAll(s.kept, |data|);
  }

  /** The only increasing list of n positions below n is 0, 1, ..., n - 1. */
  lemma OnlyIncreasingListOfAll(s: seq<nat>, n: nat)
    requires Increasing(s) && |s| == n
    requires forall i :: 0 <= i < |s| ==> s[i] < n
    ensures forall i :: 0 <= i < |s| ==> s[i] == i
  {
    forall i | 0 <= i < |s| ensures s[i] == i {
      LowerGap(s, i);
      UpperGap(s, i);
    }
  }

  lemma {:induction false} LowerGap(s: seq<nat>, i: nat)
    requires Increasing(s) && i < |s|
    ensures s[0] + i <= s[i]
  {
    if i > 0 {
      LowerGap(s, i - 1);
    }
  }

  lemma {:induction false} UpperGap(s: seq<nat>, i: nat)
    requires Increasing(s) && i < |s|
    ensures s[i] + (|s| - 1 - i) <= s[|s| - 1]
    decreases |s| - i
  {
    if i < |s| - 1 {
      UpperGap(s, i + 1);
    }
  }

  /** Every observation listed in `outliers` is an outlier and none listed in `dataWithoutOutliers` is. */
  lemma ListedOutliers(data: seq<Observation>, sqrt: real -> real)
    requires |data| > 0 && IsSquareRoot(sqrt)
    ensures var s := FilterOutliers(data, sqrt);
      (forall i :: 0 <= i < |s.outliers| ==> IsOutlier(Deref(data, s.outliers)[i], s.bounds)) &&
      (forall i :: 0 <= i < |s.kept| ==> !IsOutlier(Deref(data, s.kept)[i], s.bounds))
  {
    var s := FilterOutliers(data, sqrt);
    forall i | 0 <= i < |s.outliers| ensures IsOutlier(Deref(data, s.outliers)[i], s.bounds) {
      assert s.outliers[i] in s.outliers;
    }
    forall i | 0 <= i < |s.kept| ensures !IsOutlier(Deref(data, s.kept)[i], s.bounds) {
      assert s.kept[i] in s.kept;
    }
  }

  /**
   * An observation is kept exactly when each of its three attributes lies on
   * or between the limits of that attribute's band; a value equal to a limit
   * does not make it an outlier.
   */
  lemma KeptIffWithinAllBands(data: seq<Observation>, sqrt: real -> real, i: nat)
    requires |data| > 0 && IsSquareRoot(sqrt) && i < |data|
    ensures var s := FilterOutliers(data, sqrt);
      i in s.kept <==> forall a :: BandOf(s.bounds, a).lower <= Value(data[i], a) <= BandOf(s.bounds, a).upper
  {
    var s := FilterOutliers(data, sqrt);
    OutlierIffSomeAttributeOutside(data[i], s.bounds);
  }
}
