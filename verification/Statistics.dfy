/** Sums over samples and the radicand of the standard deviation that the program computes from them. */
module Statistics {

  function Sum(xs: seq<int>): int {
    if xs == [] then 0 else xs[0] + Sum(xs[1..])
  }

  function SumOfSquares(xs: seq<int>): int {
    if xs == [] then 0 else xs[0] * xs[0] + SumOfSquares(xs[1..])
  }

  lemma {:induction false} SumConcat(xs: seq<int>, ys: seq<int>)
    ensures Sum(xs + ys) == Sum(xs) + Sum(ys)
    ensures SumOfSquares(xs + ys) == SumOfSquares(xs) + SumOfSquares(ys)
  {
    if xs == [] {
      assert xs + ys == ys;
    } else {
      SumConcat(xs[1..], ys);
      assert (xs + ys)[1..] == xs[1..] + ys;
    }
  }

  /** What Stdev takes the square root of; it returns 0 without a root for two samples or less. */
  function Radicand(sum: int, sum2: int, n: int): real
    requires n > 2
  {
    (sum2 as real - (sum * sum) as real / n as real) / (n - 1) as real
  }

  lemma ExpandDifference(s: int, n: int, x: int)
    ensures (s - n * x) * (s - n * x) == s * s - 2 * (n * (s * x)) + n * (n * (x * x))
  {
  }

  lemma ExpandSum(s: int, q: int, n: int, x: int)
    ensures (n + 1) * (q + x * x) == n * q + n * (x * x) + q + x * x
    ensures (s + x) * (s + x) == s * s + 2 * (s * x) + x * x
  {
  }

  /** q + n x^2 is at least 2 s x. */
  lemma CrossTerm(s: int, q: int, n: int, x: int)
    requires n > 0 && n * q >= s * s
    ensures q + n * (x * x) - 2 * (s * x) >= 0
  {
    SquarePositive(s - n * x);
    ExpandDifference(s, n, x);
    var y := q + n * (x * x) - 2 * (s * x);
    assert n * y == n * q + n * (n * (x * x)) - 2 * (n * (s * x));
    PositiveFactor(n, y);
  }

  /** One more sample: the sum of squares grows at least as fast as the square of the sum over the count. */
  lemma SquareStep(s: int, q: int, n: int, x: int)
    requires n >= 0 && n * q >= s * s && q >= 0
    ensures (n + 1) * (q + x * x) >= (s + x) * (s + x)
  {
    ExpandSum(s, q, n, x);
    if n == 0 {
      assert s == 0 by {
        if s != 0 {
          SquarePositive(s);
        }
      }
    } else {
      CrossTerm(s, q, n, x);
    }
  }

  lemma SquarePositive(x: int)
    ensures x * x >= 0
    ensures x != 0 ==> x * x > 0
  {
  }

  lemma PositiveFactor(n: int, y: int)
    requires n > 0 && n * y >= 0
    ensures y >= 0
  {
  }

  lemma {:induction false} SumsOfSamples(xs: seq<int>)
    ensures SumOfSquares(xs) >= 0
    ensures |xs| * SumOfSquares(xs) >= Sum(xs) * Sum(xs)
  {
    if xs != [] {
      SumsOfSamples(xs[1..]);
      SquareStep(Sum(xs[1..]), SumOfSquares(xs[1..]), |xs| - 1, xs[0]);
      SquarePositive(xs[0]);
    }
  }

  /** Count, sum and sum of squares of real samples never make Stdev take the root of a negative number. */
  lemma RadicandNeverNegative(xs: seq<int>)
    requires |xs| > 2
    ensures Radicand(Sum(xs), SumOfSquares(xs), |xs|) >= 0.0
  {
    var n, s, q := |xs|, Sum(xs), SumOfSquares(xs);
    SumsOfSamples(xs);
    ScaledQuotient(n, q, s * s);
    NonnegativeQuotient(q as real - (s * s) as real / n as real, (n - 1) as real);
  }

  lemma ScaledQuotient(n: int, q: int, s2: int)
    requires n > 0 && n * q >= s2
    ensures s2 as real / n as real <= q as real
  {
    var rn, d := n as real, q as real - s2 as real / n as real;
    assert (n * q) as real == rn * q as real;
    assert s2 as real / rn * rn == s2 as real;
    assert d * rn >= 0.0;
    NonnegativeFactor(d, rn);
  }

  lemma NonnegativeFactor(d: real, r: real)
    requires r > 0.0 && d * r >= 0.0
    ensures d >= 0.0
  {
  }

  lemma NonnegativeQuotient(a: real, b: real)
    requires a >= 0.0 && b > 0.0
    ensures a / b >= 0.0
  {
  }

  /** The same for the samples between two readings of running totals. */
  lemma DifferenceOfTotals(xs: seq<int>, ys: seq<int>, sum: int, sum2: int)
    requires sum == Sum(xs + ys) - Sum(xs) && sum2 == SumOfSquares(xs + ys) - SumOfSquares(xs) && |ys| > 2
    ensures Radicand(sum, sum2, |ys|) >= 0.0
  {
    SumConcat(xs, ys);
    RadicandNeverNegative(ys);
  }

  /** The same for the samples of two directions taken together. */
  lemma UnionOfSamples(xs: seq<int>, ys: seq<int>, sum: int, sum2: int)
    requires sum == Sum(xs) + Sum(ys) && sum2 == SumOfSquares(xs) + SumOfSquares(ys) && |xs| + |ys| > 2
    ensures Radicand(sum, sum2, |xs| + |ys|) >= 0.0
  {
    SumConcat(xs, ys);
    RadicandNeverNegative(xs + ys);
  }

  // ---- the sample variance ----

  /** The sum of the squared distances from e. */
  function Distances(xs: seq<int>, e: real): real {
    if xs == [] then 0.0 else (xs[0] as real - e) * (xs[0] as real - e) + Distances(xs[1..], e)
  }

  lemma ExpandStep(x: real, e: real, q: real, s: real, n: real)
    ensures (x - e) * (x - e) + (q - 2.0 * e * s + n * e * e) == (x * x + q) - 2.0 * e * (x + s) + (n + 1.0) * e * e
  {
    assert (x - e) * (x - e) == x * x - 2.0 * (e * x) + e * e;
    assert 2.0 * e * (x + s) == 2.0 * (e * x) + 2.0 * e * s;
    assert (n + 1.0) * e * e == n * e * e + e * e;
  }

  /** The distances of n numbers with sum s and sum of squares q. */
  function Expanded(n: real, s: real, q: real, e: real): real {
    q - 2.0 * e * s + n * e * e
  }

  lemma ExpandedMore(n: real, s: real, q: real, e: real, x: real)
    ensures (x - e) * (x - e) + Expanded(n, s, q, e) == Expanded(n + 1.0, x + s, x * x + q, e)
  {
    ExpandStep(x, e, q, s, n);
  }

  lemma SquareAsReal(x: int)
    ensures (x * x) as real == x as real * x as real
  {
  }

  lemma {:induction false} DistancesExpand(xs: seq<int>, e: real)
    ensures Distances(xs, e) == Expanded(|xs| as real, Sum(xs) as real, SumOfSquares(xs) as real, e)
  {
    if xs != [] {
      var x, rest := xs[0] as real, xs[1..];
      DistancesExpand(rest, e);
      ExpandedMore(|rest| as real, Sum(rest) as real, SumOfSquares(rest) as real, e, x);
      SquareAsReal(xs[0]);
    }
  }

  /** d over one less than k. */
  function OverAllButOne(d: real, k: int): real
    requires k > 1
  {
    d / (k - 1) as real
  }

  predicate IsMean(mean: real, sum: int, k: int) {
    mean * k as real == sum as real
  }

  /** What Stdev takes the root of is the sample variance: the squared distances from the mean, over one less than their number. */
  lemma RadicandIsVariance(xs: seq<int>, mean: real)
    requires |xs| > 2 && IsMean(mean, Sum(xs), |xs|)
    ensures Radicand(Sum(xs), SumOfSquares(xs), |xs|) == OverAllButOne(Distances(xs, mean), |xs|)
  {
    DistancesExpand(xs, mean);
    VarianceOf(Sum(xs), SumOfSquares(xs), |xs|, mean, Distances(xs, mean));
  }

  lemma VarianceOf(sum: int, sum2: int, k: int, mean: real, d: real)
    requires k > 2 && IsMean(mean, sum, k)
    requires d == Expanded(k as real, sum as real, sum2 as real, mean)
    ensures Radicand(sum, sum2, k) == OverAllButOne(d, k)
  {
    var n, s, q, m := k as real, sum as real, sum2 as real, (k - 1) as real;
    SquareAsReal(sum);
    var s2 := (sum * sum) as real;
    VarianceFrom(n, s, s2, q, mean, d, m, (q - s2 / n) / m);
  }

  lemma VarianceFrom(n: real, s: real, s2: real, q: real, mean: real, d: real, m: real, r: real)
    requires n > 0.0 && m > 0.0 && mean * n == s && s2 == s * s && r == (q - s2 / n) / m
    requires d == Expanded(n, s, q, mean)
    ensures r == d / m
  {
    SquareOverCount(s, n, mean);
    assert n * mean * mean == s * mean && 2.0 * mean * s == 2.0 * (mean * s);
  }

  lemma SquareOverCount(s: real, n: real, mean: real)
    requires n > 0.0 && mean * n == s
    ensures s * s / n == mean * s
  {
    var r := s * s / n;
    assert r * n == s * s;
    assert (mean * s) * n == s * s;
    assert (r - mean * s) * n == 0.0;
  }
}
