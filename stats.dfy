/**
 * The statistics and comparison engine of js/stats.js (repeated verbatim in script.js):
 * per-series descriptive statistics, the overlap-only pairwise comparison, the Pearson
 * correlation with its zero-denominator policy, and the four-bucket variance classifier.
 *
 * Numbers are `real`. `Math.sqrt` is a parameter `sqrt` of which only `IsSqrt` is assumed.
 * A quotient whose divisor is zero is `None`: JavaScript yields NaN or +Infinity there
 * (every numerator divided this way is non-negative), and both fail every `<` threshold.
 */
module Stats {
  import opened Wrappers

  /** What the model relies on about `Math.sqrt`: on non-negative arguments it is the non-negative square root. */
  ghost predicate IsSqrt(sqrt: real -> real) {
    forall x: real :: 0.0 <= x ==> 0.0 <= sqrt(x) && sqrt(x) * sqrt(x) == x
  }

  // ---------------------------------------------------------------- products, sums and extremes

  /** `u * v`. Its sign facts are proved here once, so that the lemmas below combine them linearly. */
  function Prod(u: real, v: real): (r: real)
    ensures u == v ==> r >= 0.0
    ensures u == v && (u < 0.0 || u > 0.0) ==> r > 0.0
    ensures u == 0.0 || v == 0.0 ==> r == 0.0
  {
    u * v
  }

  /** `data.reduce((a, b) => a + b, 0)`. */
  function Sum(s: seq<real>): real {
    if s == [] then 0.0 else Sum(s[..|s| - 1]) + s[|s| - 1]
  }

  /** `sum / data.length`. */
  function Mean(s: seq<real>): real
    requires |s| > 0
  {
    Sum(s) / |s| as real
  }

  /** `Σ x[i] * y[i]`; with `x == y` this is the `reduce((a, b) => a + b * b, 0)` sum of squares. */
  function Dot(x: seq<real>, y: seq<real>): real
    requires |x| == |y|
  {
    if x == [] then 0.0 else Dot(x[..|x| - 1], y[..|y| - 1]) + x[|x| - 1] * y[|y| - 1]
  }

  /** `Σ (x[i] - c) * (y[i] - d)`; with `x == y` and `c == d` the sum of squared deviations from `c`. */
  function CDot(x: seq<real>, y: seq<real>, c: real, d: real): real
    requires |x| == |y|
  {
    if x == [] then 0.0 else CDot(x[..|x| - 1], y[..|y| - 1], c, d) + Prod(x[|x| - 1] - c, y[|y| - 1] - d)
  }

  function Abs(x: real): (r: real)
    ensures r >= 0.0 && (r == x || r == -x)
  {
    if x < 0.0 then -x else x
  }

  /** `Math.min(...s)` on a non-empty series. */
  function Min(s: seq<real>): (m: real)
    requires |s| > 0
    ensures m in s
    ensures forall i | 0 <= i < |s| :: m <= s[i]
  {
    if |s| == 1 then s[0]
    else
      var m := Min(s[..|s| - 1]);
      if s[|s| - 1] < m then s[|s| - 1] else m
  }

  /** `Math.max(...s)` on a non-empty series. */
  function Max(s: seq<real>): (m: real)
    requires |s| > 0
    ensures m in s
    ensures forall i | 0 <= i < |s| :: s[i] <= m
  {
    if |s| == 1 then s[0]
    else
      var m := Max(s[..|s| - 1]);
      if s[|s| - 1] > m then s[|s| - 1] else m
  }

  /** The population variance: squared deviations from the mean, divided by N (not N - 1). */
  function PopVariance(s: seq<real>): real
    requires |s| > 0
  {
    CDot(s, s, Mean(s), Mean(s)) / |s| as real
  }

  /** If every element lies in `[lo, hi]`, the sum lies in `[N * lo, N * hi]`. */
  lemma {:induction false} SumBounds(s: seq<real>, lo: real, hi: real)
    requires forall i | 0 <= i < |s| :: lo <= s[i] <= hi
    ensures |s| as real * lo <= Sum(s) <= |s| as real * hi
  {
    if s != [] {
      SumBounds(s[..|s| - 1], lo, hi);
    }
  }

  /** If every element lies in `[lo, hi]`, so does the mean. */
  lemma MeanBounds(s: seq<real>, lo: real, hi: real)
    requires |s| > 0
    requires forall i | 0 <= i < |s| :: lo <= s[i] <= hi
    ensures lo <= Mean(s) <= hi
    ensures Mean(s) * |s| as real == Sum(s)
  {
    SumBounds(s, lo, hi);
    QuotientBetween(Sum(s), |s| as real, lo, hi);
  }

  /** The mean of a series lies between its minimum and its maximum. */
  lemma MeanBetweenMinAndMax(s: seq<real>)
    requires |s| > 0
    ensures Min(s) <= Mean(s) <= Max(s)
    ensures Mean(s) * |s| as real == Sum(s)
  {
    MeanBounds(s, Min(s), Max(s));
  }

  /** A sum of squares is never negative. */
  lemma {:induction false} SquaresNonNegative(s: seq<real>, c: real)
    ensures CDot(s, s, c, c) >= 0.0
  {
    if s != [] {
      SquaresNonNegative(s[..|s| - 1], c);
    }
  }

  /** A sum of squared deviations is non-negative, and positive exactly when some element differs from `c`. */
  lemma {:induction false} SquaredDeviations(s: seq<real>, c: real)
    ensures CDot(s, s, c, c) >= 0.0
    ensures CDot(s, s, c, c) > 0.0 <==> exists i | 0 <= i < |s| :: s[i] != c
  {
    if s != [] {
      var init, e := s[..|s| - 1], s[|s| - 1];
      SquaredDeviations(init, c);
      if e != c {
        assert s[|s| - 1] != c;
      } else {
        if exists i | 0 <= i < |s| :: s[i] != c {
          var i :| 0 <= i < |s| && s[i] != c;
          assert init[i] == s[i];
        }
        if exists i | 0 <= i < |init| :: init[i] != c {
          var i :| 0 <= i < |init| && init[i] != c;
          assert s[i] == init[i];
        }
      }
    }
  }

  /** The population variance is non-negative, and positive exactly when some element differs from the mean. */
  lemma VarianceFacts(s: seq<real>)
    requires |s| > 0
    ensures PopVariance(s) >= 0.0
    ensures PopVariance(s) > 0.0 <==> exists i | 0 <= i < |s| :: s[i] != Mean(s)
  {
    SquaredDeviations(s, Mean(s));
    QuotientSign(CDot(s, s, Mean(s), Mean(s)), |s| as real);
  }

  // ---------------------------------------------------------------- calculateStats

  /** The record `calculateStats` returns. `variance` holds the coefficient of variation in percent
      (the source's name for it); it is `None` when the mean is zero. */
  datatype SeriesStats = SeriesStats(avg: real, min: real, max: real, variance: Option<real>, range: real)

  function CalculateStats(data: seq<real>, sqrt: real -> real): (st: SeriesStats)
    requires |data| > 0 && IsSqrt(sqrt)
    ensures st.min in data && st.max in data
    ensures forall i | 0 <= i < |data| :: st.min <= data[i] <= st.max
    ensures st.range == st.max - st.min && st.range >= 0.0
    ensures st.avg == Mean(data) && st.min <= st.avg <= st.max
    ensures st.variance == CoefficientOfVariation(data, sqrt)
  {
    MeanBetweenMinAndMax(data);
    SeriesStats(Mean(data), Min(data), Max(data), CoefficientOfVariation(data, sqrt), Max(data) - Min(data))
  }

  /** `(stdDev / avg) * 100`, or `None` where the mean is zero: times the mean it is 100 times the
      population standard deviation, and it is zero exactly for a constant series. */
  function CoefficientOfVariation(data: seq<real>, sqrt: real -> real): (cv: Option<real>)
    requires |data| > 0 && IsSqrt(sqrt)
    ensures cv.None? <==> Mean(data) == 0.0
    ensures cv.Some? ==>
      var sd := cv.value * Mean(data) / 100.0;
      sd >= 0.0 && sd * sd == PopVariance(data)
    ensures cv.Some? ==> (cv.value != 0.0 <==> exists i | 0 <= i < |data| :: data[i] != Mean(data))
  {
    var avg, v := Mean(data), PopVariance(data);
    VarianceFacts(data);
    RootPositive(v, sqrt);
    if avg == 0.0 then None
    else
      CvFacts(sqrt(v), avg, v);
      Some(sqrt(v) / avg * 100.0)
  }

  /** `Math.sqrt` of a non-negative value: non-negative, squaring back, and positive exactly for positive values. */
  lemma RootPositive(v: real, sqrt: real -> real)
    requires IsSqrt(sqrt) && v >= 0.0
    ensures sqrt(v) >= 0.0 && sqrt(v) * sqrt(v) == v
    ensures sqrt(v) > 0.0 <==> v > 0.0
  {
    var sd := sqrt(v);
    assert sd >= 0.0 && sd * sd == v;
    assert Prod(sd, sd) == v;
  }

  /** `(stdDev / avg) * 100` undone gives back the standard deviation, and it is zero exactly when the
      variance is. */
  lemma CvFacts(sd: real, avg: real, v: real)
    requires avg != 0.0 && sd >= 0.0 && sd * sd == v && (sd > 0.0 <==> v > 0.0)
    ensures var back := sd / avg * 100.0 * avg / 100.0;
      back == sd && back >= 0.0 && back * back == v
    ensures sd / avg * 100.0 != 0.0 <==> v > 0.0
  {
    var q := sd / avg;
    assert q * avg == sd;
  }

  // ---------------------------------------------------------------- calculateCorrelation

  /** `dot - sx * sy / n`: the one-pass formula the source uses for both spreads and the numerator. */
  function Uncentred(dot: real, sx: real, sy: real, n: real): real
    requires n > 0.0
  {
    dot - sx * sy / n
  }

  /** `pSum - sum1 * sum2 / n`, the numerator of the correlation. */
  function CoNumerator(x: seq<real>, y: seq<real>): real
    requires |x| == |y| > 0
  {
    Uncentred(Dot(x, y), Sum(x), Sum(y), |x| as real)
  }

  /** `sumSq - sum * sum / n` for one series. */
  function Spread(x: seq<real>): real
    requires |x| > 0
  {
    Uncentred(Dot(x, x), Sum(x), Sum(x), |x| as real)
  }

  /** The product of the two spreads, whose square root is the denominator. */
  function SpreadProduct(x: seq<real>, y: seq<real>): real
    requires |x| == |y| > 0
  {
    Prod(Spread(x), Spread(y))
  }

  /** `calculateCorrelation(x, y)`. */
  function Correlation(x: seq<real>, y: seq<real>, sqrt: real -> real): real
    requires |x| == |y| > 0 && IsSqrt(sqrt)
  {
    RootRatio(CoNumerator(x, y), SpreadProduct(x, y), sqrt)
  }

  /** The correlation lies in [-1, 1]; it is 0 when the denominator is; otherwise it times the
      denominator is the numerator. */
  lemma CorrelationFacts(x: seq<real>, y: seq<real>, sqrt: real -> real)
    requires |x| == |y| > 0 && IsSqrt(sqrt)
    ensures var r, p := Correlation(x, y, sqrt), SpreadProduct(x, y);
      && -1.0 <= r <= 1.0
      && (p == 0.0 ==> r == 0.0)
      && (p > 0.0 ==> Prod(r, sqrt(p)) == CoNumerator(x, y))
  {
    CorrelationSquares(x, y);
  }

  /** `denominator === 0 ? 0 : numerator / denominator` with `denominator = Math.sqrt(p)`: 0 when `p` is,
      multiplying back to the numerator when `p` is positive, and in [-1, 1] when `p` bounds the
      numerator's square. */
  function RootRatio(num: real, p: real, sqrt: real -> real): (r: real)
    requires IsSqrt(sqrt)
    ensures p == 0.0 ==> r == 0.0
    ensures p > 0.0 ==> Prod(r, sqrt(p)) == num
    ensures Prod(num, num) <= p ==> -1.0 <= r <= 1.0
  {
    RootRatioFacts(num, p, sqrt);
    if sqrt(p) == 0.0 then 0.0 else num / sqrt(p)
  }

  lemma RootRatioFacts(num: real, p: real, sqrt: real -> real)
    requires IsSqrt(sqrt)
    ensures p == 0.0 ==> sqrt(p) == 0.0
    ensures p > 0.0 ==> sqrt(p) > 0.0 && Prod(num / sqrt(p), sqrt(p)) == num
    ensures Prod(num, num) <= p && sqrt(p) != 0.0 ==> -1.0 <= num / sqrt(p) <= 1.0
  {
    if p >= 0.0 {
      RootPositive(p, sqrt);
      var den := sqrt(p);
      if p > 0.0 {
        var q := num / den;
        assert q * den == num;
        if Prod(num, num) <= p {
          AbsFromSquares(num, den);
          QuotientBounds(num, den);
        }
      }
    }
  }

  lemma AbsFromSquares(a: real, b: real)
    requires b > 0.0 && Prod(a, a) <= b * b
    ensures -b <= a <= b
  {
    assert a * a <= b * b;
    if a >= 0.0 {
      assert (b - a) * (b + a) == b * b - a * a;
      MulCancel(0.0, b - a, b + a);
    } else {
      assert (b + a) * (b - a) == b * b - a * a;
      MulCancel(0.0, b + a, b - a);
    }
  }

  lemma QuotientBounds(num: real, den: real)
    requires den > 0.0 && -den <= num <= den
    ensures -1.0 <= num / den <= 1.0
    ensures num / den * den == num
  {
    var q := num / den;
    assert q * den == num;
    MulCancel(-1.0, q, den);
    MulCancel(q, 1.0, den);
  }

  /** `t^2 a - 2 t b + e`: with `a, b, e` the centred sums, the value at `t` of `Σ (t (x[i] - c) - (y[i] - d))^2`. */
  function Quad(a: real, b: real, e: real, t: real): real {
    t * t * a - 2.0 * t * b + e
  }

  /** The quadratic of the centred sums is a sum of squares, so it is never negative. */
  lemma {:induction false} QuadNonNegative(x: seq<real>, y: seq<real>, c: real, d: real, t: real)
    requires |x| == |y|
    ensures Quad(CDot(x, x, c, c), CDot(x, y, c, d), CDot(y, y, d, d), t) >= 0.0
  {
    if x == [] {
      assert Quad(0.0, 0.0, 0.0, t) == 0.0;
    } else {
      var a, b := x[|x| - 1] - c, y[|y| - 1] - d;
      var px, py := x[..|x| - 1], y[..|y| - 1];
      assert CDot(x, x, c, c) == CDot(px, px, c, c) + Prod(a, a);
      assert CDot(x, y, c, d) == CDot(px, py, c, d) + Prod(a, b);
      assert CDot(y, y, d, d) == CDot(py, py, d, d) + Prod(b, b);
      QuadNonNegative(px, py, c, d, t);
      QuadOfSquare(a, b, t);
      QuadAdd(CDot(px, px, c, c), Prod(a, a), CDot(px, py, c, d), Prod(a, b), CDot(py, py, d, d), Prod(b, b), t);
    }
  }

  lemma QuadOfSquare(a: real, b: real, t: real)
    ensures Quad(Prod(a, a), Prod(a, b), Prod(b, b), t) == Prod(t * a - b, t * a - b)
  {
  }

  lemma QuadAdd(a1: real, a2: real, b1: real, b2: real, e1: real, e2: real, t: real)
    ensures Quad(a1 + a2, b1 + b2, e1 + e2, t) == Quad(a1, b1, e1, t) + Quad(a2, b2, e2, t)
  {
  }

  /** Cauchy-Schwarz for centred sums: `(Σ a b)^2 <= (Σ a^2) (Σ b^2)`. */
  lemma CauchySchwarz(x: seq<real>, y: seq<real>, c: real, d: real)
    requires |x| == |y|
    ensures Prod(CDot(x, y, c, d), CDot(x, y, c, d)) <= Prod(CDot(x, x, c, c), CDot(y, y, d, d))
  {
    var a, b, e := CDot(x, x, c, c), CDot(x, y, c, d), CDot(y, y, d, d);
    SquaredDeviations(x, c);
    SquaredDeviations(y, d);
    if a > 0.0 {
      QuadNonNegative(x, y, c, d, b / a);
      PositiveDiscriminant(a, b, e);
    } else if b != 0.0 {
      var t := (e + 1.0) / (2.0 * b);
      QuadNonNegative(x, y, c, d, t);
      DegenerateDiscriminant(a, b, e, t);
    } else {
      NonNegativeProduct(a, e);
    }
  }

  /** `Σ (x[i] - c) (y[i] - d)` multiplied out over `n` terms with the given plain sums. */
  function Expanded(dot: real, sx: real, sy: real, n: real, c: real, d: real): real {
    dot - d * sx - c * sy + n * c * d
  }

  /** `CDot` expanded into the plain sums the source folds. */
  lemma {:induction false} CDotExpand(x: seq<real>, y: seq<real>, c: real, d: real)
    requires |x| == |y|
    ensures CDot(x, y, c, d) == Expanded(Dot(x, y), Sum(x), Sum(y), |x| as real, c, d)
  {
    if x != [] {
      CDotExpand(x[..|x| - 1], y[..|y| - 1], c, d);
      CDotExpandStep(x, y, c, d);
    }
  }

  /** One step of `CDotExpand`: the expansion of the prefixes extends to the whole sequences. */
  lemma CDotExpandStep(x: seq<real>, y: seq<real>, c: real, d: real)
    requires |x| == |y| > 0
    requires var px, py := x[..|x| - 1], y[..|y| - 1];
      CDot(px, py, c, d) == Expanded(Dot(px, py), Sum(px), Sum(py), |px| as real, c, d)
    ensures CDot(x, y, c, d) == Expanded(Dot(x, y), Sum(x), Sum(y), |x| as real, c, d)
  {
    var px, py := x[..|x| - 1], y[..|y| - 1];
    ExpandStep(CDot(px, py, c, d), Dot(px, py), Sum(px), Sum(py), |px| as real, x[|x| - 1], y[|y| - 1], c, d,
               CDot(x, y, c, d), Dot(x, y), Sum(x), Sum(y), |x| as real);
  }

  /** The source's uncentred sums equal the centred ones. */
  lemma Centred(x: seq<real>, y: seq<real>)
    requires |x| == |y| > 0
    ensures CoNumerator(x, y) == CDot(x, y, Mean(x), Mean(y))
    ensures Spread(x) == CDot(x, x, Mean(x), Mean(x))
  {
    CDotExpand(x, y, Mean(x), Mean(y));
    CentreEquation(Dot(x, y), Sum(x), Sum(y), |x| as real, Mean(x), Mean(y));
    CDotExpand(x, x, Mean(x), Mean(x));
    CentreEquation(Dot(x, x), Sum(x), Sum(x), |x| as real, Mean(x), Mean(x));
  }

  /** The quantity under the square root is non-negative and bounds the numerator's square. */
  lemma CorrelationSquares(x: seq<real>, y: seq<real>)
    requires |x| == |y| > 0
    ensures SpreadProduct(x, y) >= 0.0
    ensures Prod(CoNumerator(x, y), CoNumerator(x, y)) <= SpreadProduct(x, y)
  {
    Centred(x, y);
    Centred(y, x);
    SquaresNonNegative(x, Mean(x));
    SquaresNonNegative(y, Mean(y));
    CauchySchwarz(x, y, Mean(x), Mean(y));
    NonNegativeProduct(Spread(x), Spread(y));
  }

  lemma {:induction false} DotSymmetric(x: seq<real>, y: seq<real>)
    requires |x| == |y|
    ensures Dot(x, y) == Dot(y, x)
  {
    if x != [] {
      DotSymmetric(x[..|x| - 1], y[..|y| - 1]);
    }
  }

  /** The correlation is symmetric in its two series. */
  lemma CorrelationSymmetric(x: seq<real>, y: seq<real>, sqrt: real -> real)
    requires |x| == |y| > 0 && IsSqrt(sqrt)
    ensures Correlation(x, y, sqrt) == Correlation(y, x, sqrt)
  {
    DotSymmetric(x, y);
    assert CoNumerator(x, y) == CoNumerator(y, x);
    assert SpreadProduct(x, y) == SpreadProduct(y, x);
  }

  /** A series that is constant over the overlap makes the denominator zero, so the correlation is 0. */
  lemma ConstantSeriesCorrelation(x: seq<real>, y: seq<real>, sqrt: real -> real)
    requires |x| == |y| > 0 && IsSqrt(sqrt)
    requires forall i | 0 <= i < |x| :: x[i] == x[0]
    ensures Correlation(x, y, sqrt) == 0.0
  {
    MeanBounds(x, x[0], x[0]);
    SquaredDeviations(x, Mean(x));
    Centred(x, y);
    assert Spread(x) == 0.0;
  }

  // ---------------------------------------------------------------- calculateDifferences

  function MinLength(a: seq<real>, b: seq<real>): nat {
    if |a| < |b| then |a| else |b|
  }

  /** The per-element absolute differences over the overlap. */
  function AbsDiffs(a: seq<real>, b: seq<real>): (ds: seq<real>)
    ensures |ds| == MinLength(a, b)
    ensures forall i | 0 <= i < |ds| :: ds[i] == Abs(a[i] - b[i])
  {
    seq(MinLength(a, b), i requires 0 <= i < MinLength(a, b) => Abs(a[i] - b[i]))
  }

  /** The running maximum of `s`, starting from 0 as `maxDiff` does. */
  function MaxOr0(s: seq<real>): (m: real)
    ensures m >= 0.0
    ensures forall i | 0 <= i < |s| :: s[i] <= m
    ensures m == 0.0 || m in s
  {
    if s == [] then 0.0
    else
      var m := MaxOr0(s[..|s| - 1]);
      if s[|s| - 1] > m then s[|s| - 1] else m
  }

  /** `x / base * 100`, `None` where JavaScript divides by zero. */
  function Percent(x: real, base: real): (p: Option<real>)
    ensures p.None? <==> base == 0.0
    ensures p.Some? ==> p.value * base == 100.0 * x
  {
    if base == 0.0 then None
    else
      var q := x / base;
      assert q * base == x;
      Some(q * 100.0)
  }

  /** The record `calculateDifferences` returns. */
  datatype DiffMetrics = DiffMetrics(
    avgDiff: real,
    avgDiffPercent: Option<real>,
    seriesAvgDiff: real,
    seriesDiffPercent: Option<real>,
    maxDiff: real,
    correlation: real)

  /** What `calculateDifferences` computes, as a function of the two series. */
  function Differences(data1: seq<real>, data2: seq<real>, sqrt: real -> real): DiffMetrics
    requires |data1| > 0 && |data2| > 0 && IsSqrt(sqrt)
  {
    var m := MinLength(data1, data2);
    var ds := AbsDiffs(data1, data2);
    var avgDiff := Mean(ds);
    var avg1, avg2 := Mean(data1), Mean(data2);
    var avgValue := (avg1 + avg2) / 2.0;
    var seriesAvgDiff := Abs(avg1 - avg2);
    DiffMetrics(
      avgDiff,
      Percent(avgDiff, avgValue),
      seriesAvgDiff,
      Percent(seriesAvgDiff, avgValue),
      MaxOr0(ds),
      Correlation(data1[..m], data2[..m], sqrt))
  }

  /** What the metrics mean: `maxDiff` is the largest difference over the overlap (or 0), `avgDiff` their
      mean, `seriesAvgDiff` compares the whole-series means, and the correlation lies in [-1, 1]. */
  lemma DifferencesFacts(data1: seq<real>, data2: seq<real>, sqrt: real -> real)
    requires |data1| > 0 && |data2| > 0 && IsSqrt(sqrt)
    ensures var dm, m := Differences(data1, data2, sqrt), MinLength(data1, data2);
      && (forall i | 0 <= i < m :: Abs(data1[i] - data2[i]) <= dm.maxDiff)
      && (dm.maxDiff == 0.0 || exists i | 0 <= i < m :: dm.maxDiff == Abs(data1[i] - data2[i]))
      && 0.0 <= dm.avgDiff <= dm.maxDiff
      && dm.avgDiff == Mean(AbsDiffs(data1, data2))
      && dm.seriesAvgDiff == Abs(Mean(data1) - Mean(data2))
      && (dm.avgDiffPercent.None? <==> Mean(data1) + Mean(data2) == 0.0)
      && (dm.seriesDiffPercent.None? <==> Mean(data1) + Mean(data2) == 0.0)
      && -1.0 <= dm.correlation <= 1.0
  {
    var dm, m := Differences(data1, data2, sqrt), MinLength(data1, data2);
    CorrelationFacts(data1[..m], data2[..m], sqrt);
    MaxDiffAttained(AbsDiffs(data1, data2), data1, data2);
    MeanBounds(AbsDiffs(data1, data2), 0.0, dm.maxDiff);
  }

  /** The running maximum of the differences bounds each of them and, unless it is 0, is one of them. */
  lemma MaxDiffAttained(ds: seq<real>, data1: seq<real>, data2: seq<real>)
    requires ds == AbsDiffs(data1, data2)
    ensures forall i | 0 <= i < |ds| :: Abs(data1[i] - data2[i]) <= MaxOr0(ds)
    ensures MaxOr0(ds) == 0.0 || exists i | 0 <= i < |ds| :: MaxOr0(ds) == Abs(data1[i] - data2[i])
  {
    if MaxOr0(ds) != 0.0 {
      var i :| 0 <= i < |ds| && ds[i] == MaxOr0(ds);
      assert MaxOr0(ds) == Abs(data1[i] - data2[i]);
    }
  }

  /** `calculateDifferences`: one pass over the overlap for the absolute differences, then the averages,
      percentages and the correlation of the overlap. */
  method CalculateDifferences(data1: seq<real>, data2: seq<real>, sqrt: real -> real) returns (dm: DiffMetrics)
    requires |data1| > 0 && |data2| > 0 && IsSqrt(sqrt)
    ensures dm == Differences(data1, data2, sqrt)
    ensures forall i | 0 <= i < MinLength(data1, data2) :: Abs(data1[i] - data2[i]) <= dm.maxDiff
    ensures 0.0 <= dm.avgDiff <= dm.maxDiff
  {
    var minLength := MinLength(data1, data2);
    var sumAbsDiff, maxDiff := SumAndMaxDiff(data1, data2);
    var avgDiff := sumAbsDiff / minLength as real;
    var avg1 := Sum(data1) / |data1| as real;
    var avg2 := Sum(data2) / |data2| as real;
    var avgValue := (avg1 + avg2) / 2.0;
    var avgDiffPercent := Percent(avgDiff, avgValue);
    var seriesAvgDiff := Abs(avg1 - avg2);
    var seriesDiffPercent := Percent(seriesAvgDiff, avgValue);
    var correlation := Correlation(data1[..minLength], data2[..minLength], sqrt);
    dm := DiffMetrics(avgDiff, avgDiffPercent, seriesAvgDiff, seriesDiffPercent, maxDiff, correlation);
    assert dm == Differences(data1, data2, sqrt) by {
      DifferencesOfTotals(data1, data2, sqrt, sumAbsDiff, maxDiff);
    }
    DifferencesFacts(data1, data2, sqrt);
  }

  /** The loop of `calculateDifferences`: it pushes each absolute difference of the overlap, adds it to
      `sumAbsDiff` and raises `maxDiff` to it when it is larger. */
  method SumAndMaxDiff(data1: seq<real>, data2: seq<real>) returns (sumAbsDiff: real, maxDiff: real)
    ensures sumAbsDiff == Sum(AbsDiffs(data1, data2)) && maxDiff == MaxOr0(AbsDiffs(data1, data2))
  {
    var minLength := MinLength(data1, data2);
    var differences: seq<real> := [];
    sumAbsDiff, maxDiff := 0.0, 0.0;
    ghost var all := AbsDiffs(data1, data2);
    for i := 0 to minLength
      invariant differences == all[..i]
      invariant sumAbsDiff == Sum(differences)
      invariant maxDiff == MaxOr0(differences)
    {
      var diff := Abs(data1[i] - data2[i]);
      DiffsPrefix(data1, data2, i);
      RunningTotals(differences, diff);
      differences := differences + [diff];
      sumAbsDiff := sumAbsDiff + diff;
      if diff > maxDiff {
        maxDiff := diff;
      }
    }
    assert differences == all;
  }

  /** The first `i + 1` differences extend the first `i` by the next one. */
  lemma DiffsPrefix(data1: seq<real>, data2: seq<real>, i: nat)
    requires i < MinLength(data1, data2)
    ensures AbsDiffs(data1, data2)[..i + 1] == AbsDiffs(data1, data2)[..i] + [Abs(data1[i] - data2[i])]
  {
    var all := AbsDiffs(data1, data2);
    assert all[..i + 1] == all[..i] + [all[i]];
  }

  /** One more difference adds to the sum and may raise the running maximum. */
  lemma RunningTotals(s: seq<real>, x: real)
    ensures Sum(s + [x]) == Sum(s) + x
    ensures MaxOr0(s + [x]) == if x > MaxOr0(s) then x else MaxOr0(s)
  {
    assert (s + [x])[..|s|] == s;
  }

  /** `Differences` in terms of the two totals the loop keeps. */
  lemma DifferencesOfTotals(data1: seq<real>, data2: seq<real>, sqrt: real -> real, total: real, peak: real)
    requires |data1| > 0 && |data2| > 0 && IsSqrt(sqrt)
    requires total == Sum(AbsDiffs(data1, data2)) && peak == MaxOr0(AbsDiffs(data1, data2))
    ensures var m := MinLength(data1, data2);
      var avg1, avg2 := Sum(data1) / |data1| as real, Sum(data2) / |data2| as real;
      var avgValue := (avg1 + avg2) / 2.0;
      Differences(data1, data2, sqrt)
        == DiffMetrics(total / m as real, Percent(total / m as real, avgValue), Abs(avg1 - avg2),
                       Percent(Abs(avg1 - avg2), avgValue), peak, Correlation(data1[..m], data2[..m], sqrt))
  {
    var ds := AbsDiffs(data1, data2);
    assert Mean(ds) == total / MinLength(data1, data2) as real;
    assert Mean(data1) == Sum(data1) / |data1| as real && Mean(data2) == Sum(data2) / |data2| as real;
  }

  /** Swapping the two series changes none of the difference metrics. */
  lemma DifferencesSymmetric(data1: seq<real>, data2: seq<real>, sqrt: real -> real)
    requires |data1| > 0 && |data2| > 0 && IsSqrt(sqrt)
    ensures Differences(data1, data2, sqrt) == Differences(data2, data1, sqrt)
  {
    var m := MinLength(data1, data2);
    assert AbsDiffs(data1, data2) == AbsDiffs(data2, data1) by {
      forall i | 0 <= i < m ensures Abs(data1[i] - data2[i]) == Abs(data2[i] - data1[i]) { }
    }
    CorrelationSymmetric(data1[..m], data2[..m], sqrt);
  }

  /** Elements of the longer series beyond the overlap change neither the per-element metrics nor the
      correlation; only the whole-series averages see them. */
  lemma DifferencesIgnoreTail(data1: seq<real>, data2: seq<real>, extra: seq<real>, sqrt: real -> real)
    requires |data1| >= |data2| > 0 && IsSqrt(sqrt)
    ensures var before, after := Differences(data1, data2, sqrt), Differences(data1 + extra, data2, sqrt);
      after.avgDiff == before.avgDiff && after.maxDiff == before.maxDiff && after.correlation == before.correlation
  {
    var m := |data2|;
    assert MinLength(data1 + extra, data2) == m == MinLength(data1, data2);
    assert AbsDiffs(data1 + extra, data2) == AbsDiffs(data1, data2) by {
      forall i | 0 <= i < m ensures (data1 + extra)[i] == data1[i] { }
    }
    assert (data1 + extra)[..m] == data1[..m];
  }

  // ---------------------------------------------------------------- real-arithmetic steps

  lemma MulCancel(u: real, w: real, z: real)
    requires z > 0.0 && u * z <= w * z
    ensures u <= w
  {
  }

  /** `n * lo <= x <= n * hi` with `n > 0` puts `x / n` in `[lo, hi]`, and `x / n * n == x`. */
  lemma QuotientBetween(x: real, n: real, lo: real, hi: real)
    requires n > 0.0 && n * lo <= x <= n * hi
    ensures lo <= x / n <= hi && x / n * n == x
  {
    var q := x / n;
    assert q * n == x;
    MulCancel(lo, q, n);
    MulCancel(q, hi, n);
  }

  /** Dividing by a positive number keeps the sign. */
  lemma QuotientSign(x: real, n: real)
    requires n > 0.0
    ensures x / n * n == x
    ensures x >= 0.0 ==> x / n >= 0.0
    ensures x > 0.0 <==> x / n > 0.0
  {
    var q := x / n;
    assert q * n == x;
  }

  lemma NonNegativeProduct(a: real, b: real)
    requires a >= 0.0 && b >= 0.0
    ensures Prod(a, b) >= 0.0
  {
  }

  /** The `t = b / a` instance of the quadratic gives `b^2 <= a * e`. */
  lemma PositiveDiscriminant(a: real, b: real, e: real)
    requires a > 0.0 && Quad(a, b, e, b / a) >= 0.0
    ensures Prod(b, b) <= Prod(a, e)
  {
    var t := b / a;
    assert t * a == b;
    var u := t * b;
    assert t * t * a == u by { Regroup(t, t, a); }
    assert 2.0 * t * b == 2.0 * u by { Regroup(2.0, t, b); }
    assert Quad(a, b, e, t) == u - 2.0 * u + e;
    assert a * e >= a * u by { ScaleLeft(a, e, u); }
    assert a * u == b * b by { Regroup(a, t, b); }
    ProdOrder(b * b, a * u, a * e, b, a, e);
  }

  lemma ProdOrder(bb: real, au: real, ae: real, b: real, a: real, e: real)
    requires bb == b * b && ae == a * e && au == bb && ae >= au
    ensures Prod(b, b) <= Prod(a, e)
  {
  }

  lemma Regroup(x: real, y: real, z: real)
    ensures x * y * z == x * (y * z) && x * y == y * x
  {
  }

  lemma ScaleLeft(a: real, u: real, w: real)
    requires a > 0.0 && u >= w
    ensures a * u >= a * w
  {
    assert a * u - a * w == a * (u - w);
  }

  /** With no spread in the first series and `b != 0`, the quadratic is negative at `t = (e + 1) / (2 b)`,
      so that case cannot arise. */
  lemma DegenerateDiscriminant(a: real, b: real, e: real, t: real)
    requires a >= 0.0 && !(a > 0.0) && b != 0.0 && t == (e + 1.0) / (2.0 * b)
    ensures Quad(a, b, e, t) < 0.0
  {
    assert a == 0.0;
    assert t * (2.0 * b) == e + 1.0;
  }

  lemma ExpandStep(cd: real, dot: real, sx: real, sy: real, n: real, u: real, v: real, c: real, d: real,
                    cd': real, dot': real, sx': real, sy': real, n': real)
    requires cd == Expanded(dot, sx, sy, n, c, d)
    requires cd' == cd + Prod(u - c, v - d) && dot' == dot + u * v
    requires sx' == sx + u && sy' == sy + v && n' == n + 1.0
    ensures cd' == Expanded(dot', sx', sy', n', c, d)
  {
  }

  /** With `c = sx / n` and `d = sy / n`: `dot - d sx - c sy + n c d == dot - sx sy / n`. */
  lemma CentreAlgebra(dot: real, sx: real, sy: real, n: real)
    requires n > 0.0
    ensures dot - (sy / n) * sx - (sx / n) * sy + n * (sx / n) * (sy / n) == dot - sx * sy / n
  {
    var mx, my := sx / n, sy / n;
    assert mx * n == sx && my * n == sy;
    var q := sx * sy / n;
    assert q * n == sx * sy;
    assert (n * mx * my) * n == sx * sy;
    assert q == n * mx * my;
    assert my * sx == n * mx * my;
    assert mx * sy == n * mx * my;
  }

  lemma CentreEquation(dot: real, sx: real, sy: real, n: real, c: real, d: real)
    requires n > 0.0 && c == sx / n && d == sy / n
    ensures Expanded(dot, sx, sy, n, c, d) == Uncentred(dot, sx, sy, n)
  {
    CentreAlgebra(dot, sx, sy, n);
  }

  /** A non-negative product with a negative factor forces the other factor to be non-positive. */
  lemma CvSign(sd: real, cv: real, avg: real)
    requires sd >= 0.0 && sd == cv * avg / 100.0 && avg < 0.0
    ensures cv <= 0.0
  {
    assert cv * avg >= 0.0;
  }

  // ---------------------------------------------------------------- getVarianceLevel

  /** The four qualitative buckets, in increasing order. */
  datatype Level = VeryLow | Low | Medium | High {
    /** The `level` text. */
    function Name(): string {
      match this
      case VeryLow => "Very Low"
      case Low => "Low"
      case Medium => "Medium"
      case High => "High"
    }

    /** The `class` text: Very Low and Low share one. */
    function CssClass(): string {
      match this
      case VeryLow | Low => "low-variance"
      case Medium => "medium-variance"
      case High => "high-variance"
    }

    function Rank(): nat {
      match this
      case VeryLow => 0
      case Low => 1
      case Medium => 2
      case High => 3
    }
  }

  function GetVarianceLevel(variance: real): (l: Level)
    ensures l == VeryLow <==> variance < 5.0
    ensures l == Low <==> 5.0 <= variance < 10.0
    ensures l == Medium <==> 10.0 <= variance < 20.0
    ensures l == High <==> 20.0 <= variance
  {
    if variance < 5.0 then VeryLow
    else if variance < 10.0 then Low
    else if variance < 20.0 then Medium
    else High
  }

  /** `getVarianceLevel` applied to a value that may be JavaScript's NaN or +Infinity (`None`):
      every comparison with those fails, so they fall through to High. */
  function LevelOf(variance: Option<real>): (l: Level)
    ensures variance.None? ==> l == High
  {
    match variance
    case None => High
    case Some(v) => GetVarianceLevel(v)
  }

  /** The classifier is monotone: a larger variability never gets a lower bucket. */
  lemma VarianceLevelMonotone(v: real, w: real)
    requires v <= w
    ensures GetVarianceLevel(v).Rank() <= GetVarianceLevel(w).Rank()
  {
  }

  /** Only Very Low and Low share a CSS class; all other pairs of buckets are told apart. */
  lemma VarianceClassSharing(l: Level, k: Level)
    ensures l.CssClass() == k.CssClass() <==> l == k || (l.Rank() <= 1 && k.Rank() <= 1)
  {
  }

  /** A series whose mean is negative has a non-positive coefficient of variation, so however much it
      fluctuates it is classified Very Low. */
  lemma NegativeMeanReadsAsVeryLow(data: seq<real>, sqrt: real -> real)
    requires |data| > 0 && IsSqrt(sqrt) && Mean(data) < 0.0
    ensures CalculateStats(data, sqrt).variance.Some?
    ensures CalculateStats(data, sqrt).variance.value <= 0.0
    ensures LevelOf(CalculateStats(data, sqrt).variance) == VeryLow
  {
    var st := CalculateStats(data, sqrt);
    CvSign(st.variance.value * st.avg / 100.0, st.variance.value, st.avg);
  }
}
