/**
 * The conclusion `updateStats` (script.js) writes under the statistics: a variance bucket per
 * series and for their average, a stability sentence chosen by the average coefficient of
 * variation, and a performance sentence chosen by the percent difference of the series means.
 *
 * Each value the source reads back with `parseFloat` is the full-precision `real` here; `None`
 * stands for the NaN or +Infinity JavaScript produces, which fails every `<` comparison.
 */
module Verdict {
  import opened Wrappers
  import opened Stats

  /** The three stability sentences. */
  datatype Stability = Stable | Moderate | Fluctuating

  /** The performance sentences: "very similarly", "better"/"lower" than the other, "Significant". */
  datatype Performance = Similar | Better | Lower | SignificantGap

  /** `(cv1 + cv2) / 2`; NaN or +Infinity on either side gives NaN or +Infinity. */
  function AverageVariability(cv1: Option<real>, cv2: Option<real>): (v: Option<real>)
    ensures v.Some? <==> cv1.Some? && cv2.Some?
    ensures v.Some? ==> v.value + v.value == cv1.value + cv2.value
    ensures v.Some? ==> (cv1.value <= v.value <= cv2.value || cv2.value <= v.value <= cv1.value)
  {
    if cv1.Some? && cv2.Some? then Some((cv1.value + cv2.value) / 2.0) else None
  }

  /** The stability sentence: below 10 stable, below 20 moderate, otherwise significant fluctuation. */
  function StabilityOf(v: Option<real>): (s: Stability)
    ensures s == Stable <==> v.Some? && v.value < 10.0
    ensures s == Moderate <==> v.Some? && 10.0 <= v.value < 20.0
    ensures s == Fluctuating <==> v.None? || v.value >= 20.0
  {
    if v.Some? && v.value < 10.0 then Stable
    else if v.Some? && v.value < 20.0 then Moderate
    else Fluctuating
  }

  /** The stability sentence agrees with the bucket printed beside it: stable exactly for the two low
      buckets, moderate for Medium and significant fluctuation for High. */
  lemma StabilityMatchesLevel(v: Option<real>)
    ensures StabilityOf(v) == Stable <==> LevelOf(v).Rank() <= 1
    ensures StabilityOf(v) == Moderate <==> LevelOf(v) == Medium
    ensures StabilityOf(v) == Fluctuating <==> LevelOf(v) == High
  {
  }

  /** The performance sentence for percent difference `p` of the means `avg1` and `avg2`. */
  function PerformanceOf(p: Option<real>, avg1: real, avg2: real): (r: Performance)
    ensures r == Similar <==> p.Some? && p.value < 5.0
    ensures r == Better <==> p.Some? && 5.0 <= p.value < 10.0 && avg1 > avg2
    ensures r == Lower <==> p.Some? && 5.0 <= p.value < 10.0 && avg1 <= avg2
    ensures r == SignificantGap <==> p.None? || p.value >= 10.0
  {
    if p.Some? && p.value < 5.0 then Similar
    else if p.Some? && p.value < 10.0 then (if avg1 > avg2 then Better else Lower)
    else SignificantGap
  }

  /** Everything the conclusion selects. */
  datatype Conclusion = Conclusion(
    level1: Level,
    level2: Level,
    averageVariability: Option<real>,
    averageLevel: Level,
    stability: Stability,
    performance: Performance)

  /** The conclusion for two series' statistics and their difference metrics: the buckets of the two
      coefficients of variation and of their midpoint, a stability sentence that agrees with the
      midpoint's bucket, and a performance sentence chosen by the percent difference of the means. */
  function Conclude(stats1: SeriesStats, stats2: SeriesStats, dm: DiffMetrics): (c: Conclusion)
    ensures c.level1 == LevelOf(stats1.variance) && c.level2 == LevelOf(stats2.variance)
    ensures c.averageVariability.Some? <==> stats1.variance.Some? && stats2.variance.Some?
    ensures c.averageVariability.Some? ==>
      c.averageVariability.value + c.averageVariability.value == stats1.variance.value + stats2.variance.value
    ensures c.averageLevel == LevelOf(c.averageVariability)
    ensures c.stability == Stable <==> c.averageLevel.Rank() <= 1
    ensures c.stability == Moderate <==> c.averageLevel == Medium
    ensures c.stability == Fluctuating <==> c.averageLevel == High
    ensures var p := dm.seriesDiffPercent;
      && (c.performance == Similar <==> p.Some? && p.value < 5.0)
      && (c.performance == Better <==> p.Some? && 5.0 <= p.value < 10.0 && stats1.avg > stats2.avg)
      && (c.performance == Lower <==> p.Some? && 5.0 <= p.value < 10.0 && stats1.avg <= stats2.avg)
  {
    var v := AverageVariability(stats1.variance, stats2.variance);
    StabilityMatchesLevel(v);
    Conclusion(
      LevelOf(stats1.variance),
      LevelOf(stats2.variance),
      v,
      LevelOf(v),
      StabilityOf(v),
      PerformanceOf(dm.seriesDiffPercent, stats1.avg, stats2.avg))
  }

  /** The "better"/"lower" band never sees equal means: there `seriesAvgDiff` is 0, so the percent is
      0 ("very similarly"), or NaN ("Significant") when both means are 0. */
  lemma BandNeedsDistinctMeans(data1: seq<real>, data2: seq<real>, sqrt: real -> real)
    requires |data1| > 0 && |data2| > 0 && IsSqrt(sqrt)
    requires Mean(data1) == Mean(data2)
    ensures var r := PerformanceOf(Differences(data1, data2, sqrt).seriesDiffPercent, Mean(data1), Mean(data2));
      (Mean(data1) == 0.0 ==> r == SignificantGap) && (Mean(data1) != 0.0 ==> r == Similar)
  {
    var x, base := Abs(Mean(data1) - Mean(data2)), (Mean(data1) + Mean(data2)) / 2.0;
    assert Differences(data1, data2, sqrt).seriesDiffPercent == Percent(x, base);
    if base != 0.0 {
      ZeroQuotient(Percent(x, base).value, base, x);
    }
  }

  /** Swapping the two series mirrors the conclusion: the per-series buckets trade places, the
      stability sentence stays, and "better" and "lower" trade places. */
  lemma ConclusionMirrors(data1: seq<real>, data2: seq<real>, sqrt: real -> real)
    requires |data1| > 0 && |data2| > 0 && IsSqrt(sqrt)
    ensures var s1, s2 := CalculateStats(data1, sqrt), CalculateStats(data2, sqrt);
      var c, d := Conclude(s1, s2, Differences(data1, data2, sqrt)), Conclude(s2, s1, Differences(data2, data1, sqrt));
      && d.level1 == c.level2 && d.level2 == c.level1
      && d.averageLevel == c.averageLevel && d.stability == c.stability
      && (c.performance == Better <==> d.performance == Lower)
      && (c.performance == Lower <==> d.performance == Better)
      && (c.performance == Similar <==> d.performance == Similar)
  {
    var s1, s2 := CalculateStats(data1, sqrt), CalculateStats(data2, sqrt);
    DifferencesSymmetric(data1, data2, sqrt);
    assert s1.avg == Mean(data1) && s2.avg == Mean(data2);
    if Mean(data1) == Mean(data2) {
      BandNeedsDistinctMeans(data1, data2, sqrt);
    }
  }

  lemma ZeroQuotient(p: real, base: real, x: real)
    requires p * base == 100.0 * x && x == 0.0 && base != 0.0
    ensures p < 5.0
  {
    if p > 0.0 {
      if base > 0.0 {
        assert p * base > 0.0;
      } else {
        assert p * base < 0.0;
      }
    }
  }
}
