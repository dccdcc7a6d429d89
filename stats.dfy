/** Exact real-valued versions of the numpy routines the detectors call:
    mean and population standard deviation (np.mean, np.std), minimum and
    maximum, percentile with linear interpolation (np.percentile) and the
    least-squares slope of a degree-one fit against 0, 1, ..., n-1
    (np.polyfit(range(n), ys, 1)[0]). */
module Stats {

  // ---------------------------------------------------------------------
  // Sums, mean, variance

  function Sum(xs: seq<real>): real {
    if xs == [] then 0.0 else xs[0] + Sum(xs[1..])
  }

  /** The sum of i * xs[i]. Shifting the tail's indices up by one adds the
      tail's plain sum, which gives the recursion below. */
  function SumIndexed(xs: seq<real>): real {
    if xs == [] then 0.0 else SumIndexed(xs[1..]) + Sum(xs[1..])
  }

  function Mean(xs: seq<real>): real
    requires |xs| > 0
  {
    Sum(xs) / |xs| as real
  }

  function Square(x: real): real {
    x * x
  }

  /** The sum of (x - m)^2 over xs. */
  function SquaredDeviation(xs: seq<real>, m: real): real {
    if xs == [] then 0.0 else Square(xs[0] - m) + SquaredDeviation(xs[1..], m)
  }

  /** Population variance (numpy's default, ddof = 0). */
  function Variance(xs: seq<real>): (r: real)
    requires |xs| > 0
    ensures r >= 0.0
  {
    SquaredDeviationNonnegative(xs, Mean(xs));
    DivisionSign(SquaredDeviation(xs, Mean(xs)), |xs| as real);
    SquaredDeviation(xs, Mean(xs)) / |xs| as real
  }

  const VolatilityLimit: real := 0.02

  /** std(xs) / mean(xs) < 0.02 stated without a square root: for a positive
      mean it is variance < (0.02 * mean)^2 (lemma VolatilityRatio). */
  predicate LowVolatility(xs: seq<real>)
    requires |xs| > 0
    ensures LowVolatility(xs) ==> Mean(xs) != 0.0
  {
    Variance(xs) < Square(VolatilityLimit * Mean(xs))
  }

  lemma {:induction false} SumBounds(xs: seq<real>, lo: real, hi: real)
    requires forall i :: 0 <= i < |xs| ==> lo <= xs[i] <= hi
    ensures |xs| as real * lo <= Sum(xs) <= |xs| as real * hi
  {
    if xs != [] {
      SumBounds(xs[1..], lo, hi);
    }
  }

  lemma MeanBounds(xs: seq<real>, lo: real, hi: real)
    requires |xs| > 0
    requires forall i :: 0 <= i < |xs| ==> lo <= xs[i] <= hi
    ensures lo <= Mean(xs) <= hi
  {
    SumBounds(xs, lo, hi);
    var n := |xs| as real;
    assert n * lo <= Sum(xs) <= n * hi;
    assert Mean(xs) * n == Sum(xs);
  }

  // Small facts about real multiplication that the solver does not find
  // on its own once other products are in scope.

  lemma MulPositive(a: real, b: real)
    requires a > 0.0 && b > 0.0
    ensures a * b > 0.0
  {
  }

  lemma MulNonnegative(a: real, b: real)
    requires a >= 0.0 && b >= 0.0
    ensures a * b >= 0.0
  {
  }

  /** For a positive divisor, a quotient is below (above) a bound exactly
      when the dividend is below (above) the bound times the divisor. */
  lemma QuotientCompare(x: real, y: real, t: real)
    requires y > 0.0
    ensures x / y < t <==> x < t * y
    ensures x / y > t <==> x > t * y
  {
    var q := x / y;
    assert x == q * y;
    if q < t { MulPositive(t - q, y); }
    if q > t { MulPositive(q - t, y); }
  }

  lemma SquarePositive(a: real)
    requires a > 0.0
    ensures Square(a) > 0.0
  {
    calc {
      Square(a);
    ==
      a * a;
    >  { MulPositive(a, a); }
      0.0;
    }
  }

  lemma SquareScale(c: real, a: real)
    ensures Square(c * a) == Square(c) * Square(a)
  {
  }

  lemma MulLeft(a: real, b: real, c: real)
    requires a <= b && c >= 0.0
    ensures c * a <= c * b
  {
  }

  lemma MulLeftStrict(a: real, b: real, c: real)
    requires a < b && c > 0.0
    ensures c * a < c * b
  {
  }

  /** Squaring is strictly increasing on the non-negative reals. */
  lemma SquareLess(x: real, y: real)
    requires 0.0 <= x < y
    ensures Square(x) < Square(y)
  {
    calc {
      Square(x);
    ==
      x * x;
    <= { MulLeft(x, y, x); }
      x * y;
    < { MulLeftStrict(x, y, y); }
      y * y;
    ==
      Square(y);
    }
  }

  /** Squaring preserves the order of non-negative reals. */
  lemma SquareMonotonic(x: real, y: real)
    requires 0.0 <= x && 0.0 <= y
    ensures x < y <==> Square(x) < Square(y)
    ensures x <= y <==> Square(x) <= Square(y)
  {
    if x < y {
      SquareLess(x, y);
    } else if y < x {
      SquareLess(y, x);
    }
  }

  lemma SquareNonnegative(x: real)
    ensures Square(x) >= 0.0
  {
    if x < 0.0 {
      assert Square(x) == Square(-x);
      MulPositive(-x, -x);
    } else {
      MulNonnegative(x, x);
    }
  }

  lemma {:induction false} SquaredDeviationNonnegative(xs: seq<real>, m: real)
    ensures SquaredDeviation(xs, m) >= 0.0
  {
    if xs != [] {
      SquaredDeviationNonnegative(xs[1..], m);
      SquareNonnegative(xs[0] - m);
    }
  }

  lemma {:induction false} SquaredDeviationAtConstant(xs: seq<real>, c: real)
    requires forall i :: 0 <= i < |xs| ==> xs[i] == c
    ensures SquaredDeviation(xs, c) == 0.0
  {
    if xs != [] {
      SquaredDeviationAtConstant(xs[1..], c);
    }
  }

  /** Equal values have their common value as mean and variance zero. */
  lemma VarianceOfConstant(xs: seq<real>, c: real)
    requires |xs| > 0
    requires forall i :: 0 <= i < |xs| ==> xs[i] == c
    ensures Mean(xs) == c
    ensures Variance(xs) == 0.0
  {
    assert Sum(xs) == |xs| as real * c by { SumsEqual(xs, c); }
    assert Mean(xs) == c by { QuotientOfMultiple(c, |xs| as real); }
    SquaredDeviationAtConstant(xs, c);
  }

  lemma QuotientOfMultiple(b: real, d: real)
    requires d > 0.0
    ensures d * b / d == b
  {
  }

  lemma SquareBound(e: real, d: real)
    requires -d <= e <= d
    ensures 0.0 <= Square(e) <= Square(d)
  {
    var a := if e < 0.0 then -e else e;
    assert Square(a) == Square(e);
    MulNonnegative(a, a);
    SquareMonotonic(a, d);
  }

  lemma {:induction false} SquaredDeviationBound(xs: seq<real>, m: real, d: real)
    requires forall i :: 0 <= i < |xs| ==> -d <= xs[i] - m <= d
    ensures 0.0 <= SquaredDeviation(xs, m) <= |xs| as real * Square(d)
  {
    if xs != [] {
      SquaredDeviationBound(xs[1..], m, d);
      SquareBound(xs[0] - m, d);
    }
  }

  /** The flag detector's ratio test std / mean < 0.02 agrees with
      LowVolatility for the non-negative square root sd of the variance. */
  lemma VolatilityRatio(xs: seq<real>, sd: real)
    requires |xs| > 0 && forall i :: 0 <= i < |xs| ==> xs[i] > 0.0
    requires sd >= 0.0 && Square(sd) == Variance(xs)
    ensures Mean(xs) > 0.0
    ensures sd / Mean(xs) < VolatilityLimit <==> LowVolatility(xs)
  {
    assert Mean(xs) > 0.0 by {
      MeanBounds(xs, SeqMin(xs), SeqMax(xs));
    }
    QuotientCompare(sd, Mean(xs), VolatilityLimit);
    SquareMonotonic(sd, VolatilityLimit * Mean(xs));
  }

  /** Values that all lie within 1% above some positive level have low
      volatility. */
  lemma TightBandIsLowVolatility(xs: seq<real>, lo: real)
    requires |xs| > 0 && lo > 0.0
    requires forall i :: 0 <= i < |xs| ==> lo <= xs[i] <= 1.01 * lo
    ensures Mean(xs) > 0.0 && LowVolatility(xs)
  {
    var m := Mean(xs);
    MeanBounds(xs, lo, 1.01 * lo);
    var d := 0.01 * lo;
    SquaredDeviationBound(xs, m, d);
    var n := |xs| as real;
    var v := Variance(xs);
    assert v * n == SquaredDeviation(xs, m);
    assert v <= Square(d) by {
      if v > Square(d) {
        MulPositive(v - Square(d), n);
      }
    }
    SquareMonotonic(lo, m);
    SquareScale(0.01, lo);
    SquareScale(VolatilityLimit, m);
    SquarePositive(lo);
    assert v <= 0.0001 * Square(lo);
    assert Square(lo) <= Square(m);
    assert Square(VolatilityLimit * m) == 0.0004 * Square(m);
  }

  // ---------------------------------------------------------------------
  // Minimum and maximum

  function SeqMin(xs: seq<real>): (m: real)
    requires |xs| > 0
    ensures m in xs
    ensures forall i :: 0 <= i < |xs| ==> m <= xs[i]
  {
    if |xs| == 1 then xs[0]
    else
      var rest := SeqMin(xs[1..]);
      if xs[0] < rest then xs[0] else rest
  }

  function SeqMax(xs: seq<real>): (m: real)
    requires |xs| > 0
    ensures m in xs
    ensures forall i :: 0 <= i < |xs| ==> xs[i] <= m
  {
    if |xs| == 1 then xs[0]
    else
      var rest := SeqMax(xs[1..]);
      if xs[0] > rest then xs[0] else rest
  }

  // ---------------------------------------------------------------------
  // Sorting and percentiles

  predicate Sorted(s: seq<real>) {
    forall i, j :: 0 <= i < j < |s| ==> s[i] <= s[j]
  }

  lemma PrependSorted(h: real, t: seq<real>)
    requires Sorted(t)
    requires forall k :: 0 <= k < |t| ==> h <= t[k]
    ensures Sorted([h] + t)
  {
  }

  function Insert(x: real, s: seq<real>): (r: seq<real>)
    requires Sorted(s)
    ensures Sorted(r)
    ensures |r| == |s| + 1
    ensures multiset(r) == multiset(s) + multiset{x}
  {
    if s == [] then [x]
    else if x <= s[0] then
      PrependSorted(x, s);
      [x] + s
    else
      var tail := Insert(x, s[1..]);
      assert s == [s[0]] + s[1..];
      assert forall k :: 0 <= k < |tail| ==> s[0] <= tail[k] by {
        forall k | 0 <= k < |tail| ensures s[0] <= tail[k] {
          assert tail[k] in multiset(tail);
          assert tail[k] == x || tail[k] in multiset(s[1..]);
        }
      }
      PrependSorted(s[0], tail);
      [s[0]] + tail
  }

  /** The values in ascending order (insertion sort). */
  function SortReals(xs: seq<real>): (r: seq<real>)
    ensures Sorted(r)
    ensures |r| == |xs|
    ensures multiset(r) == multiset(xs)
  {
    if xs == [] then []
    else
      assert xs == [xs[0]] + xs[1..];
      Insert(xs[0], SortReals(xs[1..]))
  }

  /** The fractional position (n - 1) * p / 100 of the p-th percentile in
      the sorted values. */
  function Rank(n: nat, p: real): real {
    (n as real - 1.0) * p / 100.0
  }

  lemma RankWithin(n: nat, p: real)
    requires n > 0 && 0.0 <= p <= 100.0
    ensures 0 <= Rank(n, p).Floor <= n - 1
    ensures 0.0 <= Rank(n, p) - Rank(n, p).Floor as real < 1.0
  {
    var k := n as real - 1.0;
    MulNonnegative(k, p / 100.0);
    MulNonnegative(k, 1.0 - p / 100.0);
    assert k * (p / 100.0) == Rank(n, p);
    assert 0.0 <= Rank(n, p) <= k;
  }

  /** Linear interpolation from a (at f = 0) to b (at f = 1). */
  function Lerp(a: real, b: real, f: real): real {
    a + f * (b - a)
  }

  lemma Interpolates(a: real, b: real, f: real)
    requires a <= b && 0.0 <= f <= 1.0
    ensures a <= Lerp(a, b, f) <= b
  {
    MulNonnegative(f, b - a);
    MulNonnegative(1.0 - f, b - a);
    assert (1.0 - f) * (b - a) == (b - a) - f * (b - a);
  }

  /** Every element of a rearrangement of xs lies between xs's extremes. */
  lemma RearrangedWithin(xs: seq<real>, s: seq<real>, k: int)
    requires |xs| > 0 && multiset(s) == multiset(xs) && 0 <= k < |s|
    ensures SeqMin(xs) <= s[k] <= SeqMax(xs)
  {
    assert s[k] in multiset(s);
    assert s[k] in xs;
  }

  /** The p-th percentile by linear interpolation between the two sorted
      values around Rank(n, p), as np.percentile computes it by default. */
  function Percentile(xs: seq<real>, p: real): (r: real)
    requires |xs| > 0 && 0.0 <= p <= 100.0
    ensures SeqMin(xs) <= r <= SeqMax(xs)
  {
    var s := SortReals(xs);
    var rank := Rank(|xs|, p);
    RankWithin(|xs|, p);
    var lo := rank.Floor;
    var hi := if lo + 1 < |xs| then lo + 1 else lo;
    var frac := rank - lo as real;
    var below, above := s[lo], s[hi];
    assert below <= above;
    RearrangedWithin(xs, s, lo);
    RearrangedWithin(xs, s, hi);
    Interpolates(below, above, frac);
    Lerp(below, above, frac)
  }

  /** Any percentile of a constant window is that constant. */
  lemma PercentileOfConstant(xs: seq<real>, p: real, c: real)
    requires |xs| > 0 && 0.0 <= p <= 100.0
    requires forall i :: 0 <= i < |xs| ==> xs[i] == c
    ensures Percentile(xs, p) == c
  {
    assert SeqMin(xs) == c && SeqMax(xs) == c;
  }

  // ---------------------------------------------------------------------
  // Least-squares slope against the index positions 0, 1, ..., n-1

  /** 0 + 1 + ... + (n - 1), the sum of the index positions. */
  function IndexSum(n: nat): real {
    if n == 0 then 0.0 else IndexSum(n - 1) + (n - 1) as real
  }

  /** 0^2 + 1^2 + ... + (n - 1)^2. */
  function SquareSum(n: nat): real {
    if n == 0 then 0.0 else SquareSum(n - 1) + (n - 1) as real * (n - 1) as real
  }

  lemma IndexClosedAlgebra(m: real, x: real)
    requires x == m + 1.0
    ensures m * (m - 1.0) / 2.0 + m == x * (x - 1.0) / 2.0
  {
  }

  lemma SquareClosedAlgebra(m: real, x: real)
    requires x == m + 1.0
    ensures (m - 1.0) * m * (2.0 * m - 1.0) / 6.0 + m * m == (x - 1.0) * x * (2.0 * x - 1.0) / 6.0
  {
  }

  lemma {:induction false} IndexSumClosed(n: nat)
    ensures IndexSum(n) == n as real * (n as real - 1.0) / 2.0
  {
    if n > 0 {
      IndexSumClosed(n - 1);
      IndexClosedAlgebra((n - 1) as real, n as real);
    }
  }

  lemma {:induction false} SquareSumClosed(n: nat)
    ensures SquareSum(n) == (n as real - 1.0) * n as real * (2.0 * n as real - 1.0) / 6.0
  {
    if n > 0 {
      SquareSumClosed(n - 1);
      SquareClosedAlgebra((n - 1) as real, n as real);
    }
  }

  /** n * sum(i * y_i) - sum(i) * sum(y_i): the numerator of the slope. */
  function Covariation(ys: seq<real>): real {
    |ys| as real * SumIndexed(ys) - IndexSum(|ys|) * Sum(ys)
  }

  /** n * sum(i^2) - sum(i)^2 over the positions 0..n-1: the denominator
      of the slope, which is n^2 (n^2 - 1) / 12 (lemma DenominatorClosed). */
  function SlopeDenominator(n: nat): real {
    n as real * SquareSum(n) - IndexSum(n) * IndexSum(n)
  }

  /** The slope of the least-squares line through the points (i, ys[i]). */
  function Slope(ys: seq<real>): (r: real)
    requires |ys| >= 2
    ensures r > 0.0 <==> Covariation(ys) > 0.0
    ensures r < 0.0 <==> Covariation(ys) < 0.0
  {
    DenominatorPositive(|ys|);
    DivisionSign(Covariation(ys), SlopeDenominator(|ys|));
    Covariation(ys) / SlopeDenominator(|ys|)
  }

  lemma SpreadAlgebra(x: real, t: real, q: real)
    requires t == x * (x - 1.0) / 2.0 && q == (x - 1.0) * x * (2.0 * x - 1.0) / 6.0
    ensures x * q - t * t == x * x * (x * x - 1.0) / 12.0
  {
  }

  /** The denominator in closed form. */
  lemma DenominatorClosed(n: nat)
    ensures SlopeDenominator(n) == n as real * n as real * (n as real * n as real - 1.0) / 12.0
  {
    IndexSumClosed(n);
    SquareSumClosed(n);
    SpreadAlgebra(n as real, IndexSum(n), SquareSum(n));
  }

  lemma ClosedPositive(x: real)
    requires x >= 2.0
    ensures x * x * (x * x - 1.0) / 12.0 > 0.0
  {
    MulLeft(2.0, x, x);
    MulPositive(x * x, x * x - 1.0);
  }

  lemma DenominatorPositive(n: nat)
    requires n >= 2
    ensures SlopeDenominator(n) > 0.0
  {
    DenominatorClosed(n);
    ClosedPositive(n as real);
  }

  lemma ScaleStep(p: real, m: real, q: real, y: real)
    requires q == p + m
    ensures q * y == p * y + m * y
  {
  }

  lemma CovariationStepAlgebra(x: real, m: real, si': real, s': real, t': real, si: real, s: real, t: real, y: real)
    requires x == m + 1.0 && si' == si + s && s' == y + s && t' == t + m
    ensures x * si' - t' * s' == (m * si - t * s) + (si - t * y) + (s - m * y)
  {
  }

  /** Prepending y to t adds sum_j (j + 1) * (t[j] - y) to the numerator,
      written here as (SumIndexed(t) - IndexSum(|t|) * y) + (Sum(t) - |t| * y). */
  lemma CovariationStep(ys: seq<real>)
    requires |ys| > 0
    ensures Covariation(ys)
         == Covariation(ys[1..])
            + (SumIndexed(ys[1..]) - IndexSum(|ys[1..]|) * ys[0])
            + (Sum(ys[1..]) - |ys[1..]| as real * ys[0])
  {
    var t := ys[1..];
    assert IndexSum(|ys|) == IndexSum(|t|) + |t| as real;
    CovariationStepAlgebra(|ys| as real, |t| as real, SumIndexed(ys), Sum(ys), IndexSum(|ys|),
                           SumIndexed(t), Sum(t), IndexSum(|t|), ys[0]);
  }

  lemma {:induction false} SumsAbove(t: seq<real>, y: real)
    requires forall j :: 0 <= j < |t| ==> t[j] > y
    ensures Sum(t) >= |t| as real * y
    ensures |t| > 0 ==> Sum(t) > |t| as real * y
    ensures SumIndexed(t) >= IndexSum(|t|) * y
  {
    if t != [] {
      var m := (|t| - 1) as real;
      SumsAbove(t[1..], y);
      ScaleStep(IndexSum(|t| - 1), m, IndexSum(|t|), y);
      ScaleStep(m, 1.0, |t| as real, y);
    }
  }

  lemma {:induction false} SumsBelow(t: seq<real>, y: real)
    requires forall j :: 0 <= j < |t| ==> t[j] < y
    ensures Sum(t) <= |t| as real * y
    ensures |t| > 0 ==> Sum(t) < |t| as real * y
    ensures SumIndexed(t) <= IndexSum(|t|) * y
  {
    if t != [] {
      var m := (|t| - 1) as real;
      SumsBelow(t[1..], y);
      ScaleStep(IndexSum(|t| - 1), m, IndexSum(|t|), y);
      ScaleStep(m, 1.0, |t| as real, y);
    }
  }

  lemma {:induction false} SumsEqual(t: seq<real>, y: real)
    requires forall j :: 0 <= j < |t| ==> t[j] == y
    ensures Sum(t) == |t| as real * y
    ensures SumIndexed(t) == IndexSum(|t|) * y
  {
    if t != [] {
      var m := (|t| - 1) as real;
      SumsEqual(t[1..], y);
      ScaleStep(IndexSum(|t| - 1), m, IndexSum(|t|), y);
      ScaleStep(m, 1.0, |t| as real, y);
    }
  }

  lemma {:induction false} CovariationOfConstant(ys: seq<real>, c: real)
    requires forall i :: 0 <= i < |ys| ==> ys[i] == c
    ensures Covariation(ys) == 0.0
  {
    if ys != [] {
      CovariationStep(ys);
      SumsEqual(ys[1..], ys[0]);
      CovariationOfConstant(ys[1..], c);
    }
  }

  /** Flat points have slope zero. */
  lemma SlopeOfConstant(ys: seq<real>, c: real)
    requires |ys| >= 2
    requires forall i :: 0 <= i < |ys| ==> ys[i] == c
    ensures Slope(ys) == 0.0
  {
    CovariationOfConstant(ys, c);
  }

  predicate StrictlyIncreasing(ys: seq<real>) {
    forall i, j :: 0 <= i < j < |ys| ==> ys[i] < ys[j]
  }

  predicate StrictlyDecreasing(ys: seq<real>) {
    forall i, j :: 0 <= i < j < |ys| ==> ys[i] > ys[j]
  }

  lemma {:induction false} CovariationOfIncreasing(ys: seq<real>)
    requires |ys| > 0 && StrictlyIncreasing(ys)
    ensures Covariation(ys) >= 0.0
    ensures |ys| >= 2 ==> Covariation(ys) > 0.0
  {
    if |ys| == 1 {
      CovariationOfSingleton(ys);
    } else {
      assert forall j :: 0 <= j < |ys[1..]| ==> ys[1..][j] > ys[0];
      assert StrictlyIncreasing(ys[1..]);
      CovariationOfIncreasing(ys[1..]);
      SumsAbove(ys[1..], ys[0]);
      CovariationStepPositive(ys);
    }
  }

  /** Prepending a point below every later point, to a tail of non-negative
      covariation, gives positive covariation. */
  lemma CovariationStepPositive(ys: seq<real>)
    requires |ys| > 1 && Covariation(ys[1..]) >= 0.0
    requires SumIndexed(ys[1..]) >= IndexSum(|ys[1..]|) * ys[0]
    requires Sum(ys[1..]) > |ys[1..]| as real * ys[0]
    ensures Covariation(ys) > 0.0
  {
    CovariationStep(ys);
  }

  lemma {:induction false} CovariationOfDecreasing(ys: seq<real>)
    requires |ys| > 0 && StrictlyDecreasing(ys)
    ensures Covariation(ys) <= 0.0
    ensures |ys| >= 2 ==> Covariation(ys) < 0.0
  {
    if |ys| == 1 {
      CovariationOfSingleton(ys);
    } else {
      assert forall j :: 0 <= j < |ys[1..]| ==> ys[1..][j] < ys[0];
      assert StrictlyDecreasing(ys[1..]);
      CovariationOfDecreasing(ys[1..]);
      SumsBelow(ys[1..], ys[0]);
      CovariationStepNegative(ys);
    }
  }

  /** The mirror of CovariationStepPositive. */
  lemma CovariationStepNegative(ys: seq<real>)
    requires |ys| > 1 && Covariation(ys[1..]) <= 0.0
    requires SumIndexed(ys[1..]) <= IndexSum(|ys[1..]|) * ys[0]
    requires Sum(ys[1..]) < |ys[1..]| as real * ys[0]
    ensures Covariation(ys) < 0.0
  {
    CovariationStep(ys);
  }

  /** Strictly rising points have a positive least-squares slope. */
  lemma SlopeOfIncreasing(ys: seq<real>)
    requires |ys| >= 2 && StrictlyIncreasing(ys)
    ensures Slope(ys) > 0.0
  {
    CovariationOfIncreasing(ys);
  }

  /** Strictly falling points have a negative least-squares slope. */
  lemma SlopeOfDecreasing(ys: seq<real>)
    requires |ys| >= 2 && StrictlyDecreasing(ys)
    ensures Slope(ys) < 0.0
  {
    CovariationOfDecreasing(ys);
  }

  lemma ZeroTerms(n: real, si: real, t: real, s: real)
    requires si == 0.0 && t == 0.0
    ensures n * si - t * s == 0.0
  {
  }

  /** A single point has no covariation with its position. */
  lemma CovariationOfSingleton(ys: seq<real>)
    requires |ys| == 1
    ensures Covariation(ys) == 0.0
  {
    assert ys[1..] == [];
    assert SumIndexed(ys) == 0.0;
    assert IndexSum(|ys|) == 0.0;
    ZeroTerms(|ys| as real, SumIndexed(ys), IndexSum(|ys|), Sum(ys));
  }

  lemma DivisionSign(x: real, d: real)
    requires d > 0.0
    ensures x > 0.0 <==> x / d > 0.0
    ensures x < 0.0 <==> x / d < 0.0
    ensures x >= 0.0 <==> x / d >= 0.0
  {
    var q := x / d;
    assert x == q * d;
    if q > 0.0 { MulPositive(q, d); }
    if q < 0.0 { MulPositive(-q, d); }
  }
}
