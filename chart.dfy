/**
 * The chart data `drawChart` (js/chart.js) hands to the charting library: the x labels, the flat
 * min/max range arrays, the ordered dataset list that depends on the `showRange` flag, the shared
 * y-axis maximum, the tooltip filter, and the `afterBuildTicks` hook that merges the first series' min
 * and max into the axis ticks and sorts them.
 */
module Chart {
  import opened Wrappers
  import opened Text
  import opened Stats
  import opened Colors

  // ---------------------------------------------------------------- labels and range arrays

  /** `Array.from({ length: n }, (_, i) => `#${i + 1}`)`. */
  function Labels(n: nat): (ls: seq<string>)
    ensures |ls| == n
    ensures forall i | 0 <= i < n :: ls[i] == "#" + Dec(i + 1)
  {
    seq(n, i requires 0 <= i < n => "#" + Dec(i + 1))
  }

  /** No two points share a label. */
  lemma LabelsDistinct(n: nat)
    ensures forall i, j | 0 <= i < j < n :: Labels(n)[i] != Labels(n)[j]
  {
    forall i, j | 0 <= i < j < n ensures Labels(n)[i] != Labels(n)[j] {
      DecInjective(i + 1, j + 1);
      var a, b := Labels(n)[i], Labels(n)[j];
      assert a[1..] == Dec(i + 1) && b[1..] == Dec(j + 1);
    }
  }

  /** `Array(n).fill(v)`. */
  function Fill(n: nat, v: real): (s: seq<real>)
    ensures |s| == n
    ensures forall i | 0 <= i < n :: s[i] == v
  {
    seq(n, _ => v)
  }

  // ---------------------------------------------------------------- datasets

  /** The `fill` option: `'+1'` (up to the next dataset), `false`, or `true` (down to the origin). */
  datatype FillMode = FillToNext | NoFill | FillToOrigin

  /** The fields of a dataset the rest of the page depends on (`caption` is its `label`); widths, radii
      and tension are styling. */
  datatype Dataset = Dataset(
    caption: string,
    data: seq<real>,
    borderColor: string,
    backgroundColor: string,
    fill: FillMode,
    order: nat,
    isRange: bool,
    yAxisID: string)

  const LeftAxis: string := "y"
  const RightAxis: string := "y2"
  const Transparent: string := "transparent"

  /** The upper edge of a series' min-max band, `${name} Range (${min}-${max})`; `show` is JavaScript's
      number-to-string conversion. */
  function RangeMaxDataset(name: string, st: SeriesStats, n: nat, color: ColorConfig, axis: string,
                           show: real -> string): Dataset
  {
    Dataset(name + " Range (" + show(st.min) + "-" + show(st.max) + ")", Fill(n, st.max), Transparent,
            color.RangeBackground(), FillToNext, 4, true, axis)
  }

  /** The lower edge of a series' min-max band, `${name} Min`. */
  function RangeMinDataset(name: string, st: SeriesStats, n: nat, color: ColorConfig, axis: string): Dataset {
    Dataset(name + " Min", Fill(n, st.min), Transparent, color.RangeBackground(), NoFill, 5, true, axis)
  }

  /** A series' own line: filled down to the origin unless the band is shown. It has no `isRange`. */
  function SeriesDataset(name: string, data: seq<real>, color: ColorConfig, showRange: bool, order: nat,
                         axis: string): Dataset
  {
    Dataset(name, data, color.Primary(), if showRange then color.Background() else color.FillArea(),
            if showRange then NoFill else FillToOrigin, order, false, axis)
  }

  /** What `drawChart` pushes for one series: its band (when shown), then its line. */
  function SeriesGroup(showRange: bool, name: string, data: seq<real>, st: SeriesStats, n: nat,
                       color: ColorConfig, order: nat, axis: string, show: real -> string): seq<Dataset>
  {
    (if showRange then [RangeMaxDataset(name, st, n, color, axis, show), RangeMinDataset(name, st, n, color, axis)]
     else [])
    + [SeriesDataset(name, data, color, showRange, order, axis)]
  }

  /** The whole dataset list: series 1 on the left axis, then series 2 on the right axis. */
  function DatasetList(showRange: bool, data1: seq<real>, data2: seq<real>, name1: string, name2: string,
                       st1: SeriesStats, st2: SeriesStats, colors: Palette, show: real -> string): seq<Dataset>
  {
    var n := if |data1| >= |data2| then |data1| else |data2|;
    SeriesGroup(showRange, name1, data1, st1, n, colors.series1, 1, LeftAxis, show)
    + SeriesGroup(showRange, name2, data2, st2, n, colors.series2, 2, RightAxis, show)
  }

  /** Without the band the list is the two series lines; with it, six entries: band top, band bottom and
      line of series 1, then the same for series 2. */
  lemma DatasetListShape(showRange: bool, data1: seq<real>, data2: seq<real>, name1: string, name2: string,
                         st1: SeriesStats, st2: SeriesStats, colors: Palette, show: real -> string)
    ensures var ds, n := DatasetList(showRange, data1, data2, name1, name2, st1, st2, colors, show),
                         if |data1| >= |data2| then |data1| else |data2|;
      var line1 := SeriesDataset(name1, data1, colors.series1, showRange, 1, LeftAxis);
      var line2 := SeriesDataset(name2, data2, colors.series2, showRange, 2, RightAxis);
      && (!showRange ==> ds == [line1, line2])
      && (showRange ==> ds == [RangeMaxDataset(name1, st1, n, colors.series1, LeftAxis, show),
                               RangeMinDataset(name1, st1, n, colors.series1, LeftAxis),
                               line1,
                               RangeMaxDataset(name2, st2, n, colors.series2, RightAxis, show),
                               RangeMinDataset(name2, st2, n, colors.series2, RightAxis),
                               line2])
  {
  }

  /** The first half of the list belongs to series 1 and sits on axis `y`, the second half belongs to
      series 2 and sits on axis `y2`; exactly one entry of each half is not a range entry. */
  lemma DatasetAxes(showRange: bool, data1: seq<real>, data2: seq<real>, name1: string, name2: string,
                    st1: SeriesStats, st2: SeriesStats, colors: Palette, show: real -> string)
    ensures var ds := DatasetList(showRange, data1, data2, name1, name2, st1, st2, colors, show);
      && |ds| == (if showRange then 6 else 2)
      && (forall i | 0 <= i < |ds| :: ds[i].yAxisID == (if i < |ds| / 2 then LeftAxis else RightAxis))
      && (forall i | 0 <= i < |ds| :: !ds[i].isRange <==> i == |ds| / 2 - 1 || i == |ds| - 1)
  {
    DatasetListShape(showRange, data1, data2, name1, name2, st1, st2, colors, show);
  }

  /** Each band edge has one entry per label, and the band encloses every point of its series. */
  lemma RangeBandEnclosesSeries(data: seq<real>, n: nat, name: string, color: ColorConfig, axis: string,
                                sqrt: real -> real, show: real -> string)
    requires |data| > 0 && IsSqrt(sqrt)
    ensures var st := CalculateStats(data, sqrt);
      var top, bottom := RangeMaxDataset(name, st, n, color, axis, show).data, RangeMinDataset(name, st, n, color, axis).data;
      && |top| == n && |bottom| == n
      && forall i, j | 0 <= i < n && 0 <= j < |data| :: bottom[i] <= data[j] <= top[i]
  {
  }

  // ---------------------------------------------------------------- tooltip

  /** The tooltip filter `!tooltipItem.dataset.isRange`, applied to a list of datasets. */
  function TooltipDatasets(ds: seq<Dataset>): (r: seq<Dataset>)
    ensures |r| <= |ds|
    ensures forall d | d in r :: d in ds && !d.isRange
    ensures forall d | d in ds && !d.isRange :: d in r
  {
    if ds == [] then []
    else
      var rest := TooltipDatasets(ds[1..]);
      assert forall d | d in ds[1..] :: d in ds;
      assert forall d | d in ds :: d == ds[0] || d in ds[1..];
      if ds[0].isRange then rest else [ds[0]] + rest
  }

  lemma {:induction false} TooltipAppend(a: seq<Dataset>, b: seq<Dataset>)
    ensures TooltipDatasets(a + b) == TooltipDatasets(a) + TooltipDatasets(b)
  {
    if a != [] {
      assert (a + b)[0] == a[0] && (a + b)[1..] == a[1..] + b;
      TooltipAppend(a[1..], b);
      assert TooltipDatasets(a) == (if a[0].isRange then [] else [a[0]]) + TooltipDatasets(a[1..]);
    } else {
      assert a + b == b;
    }
  }

  /** Whether the band is shown or not, the tooltip lists the two series lines, in order, with the same
      labels and data. */
  lemma TooltipShowsSeriesLines(showRange: bool, data1: seq<real>, data2: seq<real>, name1: string,
                                name2: string, st1: SeriesStats, st2: SeriesStats, colors: Palette,
                                show: real -> string)
    ensures var t := TooltipDatasets(DatasetList(showRange, data1, data2, name1, name2, st1, st2, colors, show));
      && t == [SeriesDataset(name1, data1, colors.series1, showRange, 1, LeftAxis),
               SeriesDataset(name2, data2, colors.series2, showRange, 2, RightAxis)]
      && t[0].caption == name1 && t[0].data == data1 && t[1].caption == name2 && t[1].data == data2
  {
    var n := if |data1| >= |data2| then |data1| else |data2|;
    var band1 := if showRange then [RangeMaxDataset(name1, st1, n, colors.series1, LeftAxis, show),
                                    RangeMinDataset(name1, st1, n, colors.series1, LeftAxis)] else [];
    var band2 := if showRange then [RangeMaxDataset(name2, st2, n, colors.series2, RightAxis, show),
                                    RangeMinDataset(name2, st2, n, colors.series2, RightAxis)] else [];
    var line1 := SeriesDataset(name1, data1, colors.series1, showRange, 1, LeftAxis);
    var line2 := SeriesDataset(name2, data2, colors.series2, showRange, 2, RightAxis);
    assert DatasetList(showRange, data1, data2, name1, name2, st1, st2, colors, show)
        == (band1 + [line1]) + (band2 + [line2]);
    TooltipOfBands(band1, line1, band2, line2);
  }

  /** Two bands of range entries, each followed by a line: the tooltip keeps the two lines. */
  lemma TooltipOfBands(band1: seq<Dataset>, line1: Dataset, band2: seq<Dataset>, line2: Dataset)
    requires (forall d | d in band1 :: d.isRange) && (forall d | d in band2 :: d.isRange)
    requires !line1.isRange && !line2.isRange
    ensures TooltipDatasets((band1 + [line1]) + (band2 + [line2])) == [line1, line2]
  {
    TooltipAppend(band1 + [line1], band2 + [line2]);
    TooltipOfBand(band1, line1);
    TooltipOfBand(band2, line2);
  }

  /** A band of range entries followed by a line: the tooltip keeps the line alone. */
  lemma TooltipOfBand(band: seq<Dataset>, line: Dataset)
    requires (forall d | d in band :: d.isRange) && !line.isRange
    ensures TooltipDatasets(band + [line]) == [line]
  {
    TooltipAppend(band, [line]);
    assert TooltipDatasets(band) == [];
    assert TooltipDatasets([line]) == [line] by {
      assert [line][1..] == [];
    }
  }

  // ---------------------------------------------------------------- the shared y-axis maximum

  /** `Math.ceil(x)`. */
  function Ceil(x: real): (c: int)
    ensures x <= c as real < x + 1.0
  {
    -((-x).Floor)
  }

  /** `Math.max(a, b)`. */
  function Larger(a: real, b: real): (m: real)
    ensures m == a || m == b
    ensures a <= m && b <= m
  {
    if a >= b then a else b
  }

  /** `Math.ceil(Math.max(stats1.max, stats2.max) * 1.1)`, used as the maximum of both axes. */
  function YAxisMax(st1: SeriesStats, st2: SeriesStats): int {
    Ceil(Larger(st1.max, st2.max) * 1.1)
  }

  /** When the larger maximum is not negative, the shared maximum is at least it, so no point of either
      series lies above the top of its axis. */
  lemma AxisMaxCoversData(data1: seq<real>, data2: seq<real>, sqrt: real -> real)
    requires |data1| > 0 && |data2| > 0 && IsSqrt(sqrt)
    requires Larger(CalculateStats(data1, sqrt).max, CalculateStats(data2, sqrt).max) >= 0.0
    ensures var top := YAxisMax(CalculateStats(data1, sqrt), CalculateStats(data2, sqrt)) as real;
      (forall i | 0 <= i < |data1| :: data1[i] <= top) && (forall i | 0 <= i < |data2| :: data2[i] <= top)
  {
    var st1, st2 := CalculateStats(data1, sqrt), CalculateStats(data2, sqrt);
    var g := Larger(st1.max, st2.max);
    assert g <= g * 1.1;
  }

  /** The ten percent of headroom points the wrong way for a negative maximum: once the larger maximum
      is at most -10, the top of both axes lies below the highest point (-11 for a maximum of -10). */
  lemma NegativeMaximumLosesHeadroom(st1: SeriesStats, st2: SeriesStats)
    requires Larger(st1.max, st2.max) <= -10.0
    ensures YAxisMax(st1, st2) as real < Larger(st1.max, st2.max)
    ensures Larger(st1.max, st2.max) == -10.0 ==> YAxisMax(st1, st2) == -11
  {
    var g := Larger(st1.max, st2.max);
    assert g * 1.1 <= g - 1.0;
    if g == -10.0 {
      assert g * 1.1 == -11.0;
    }
  }

  // ---------------------------------------------------------------- afterBuildTicks

  predicate Sorted(s: seq<real>) {
    forall i, j | 0 <= i < j < |s| :: s[i] <= s[j]
  }

  /** `[...new Set([min, max])]`: the two values in order, once each. */
  function Unique(min: real, max: real): (u: seq<real>)
    ensures min in u && max in u && forall v | v in u :: v == min || v == max
    ensures forall i, j | 0 <= i < j < |u| :: u[i] != u[j]
  {
    if min == max then [min] else [min, max]
  }

  /** The values of `vals` that `existing` lacks, in order: what the `forEach` pushes. */
  function Absent(vals: seq<real>, existing: seq<real>): (r: seq<real>)
    ensures forall v | v in r :: v in vals && v !in existing
    ensures forall v | v in vals && v !in existing :: v in r
  {
    if vals == [] then []
    else
      var rest := Absent(vals[..|vals| - 1], existing);
      var v := vals[|vals| - 1];
      assert forall w | w in vals :: w in vals[..|vals| - 1] || w == v;
      if v in existing then rest else rest + [v]
  }

  /** The ticks after the pushes and before the sort. */
  function MergeTicks(ticks: seq<real>, min: real, max: real): seq<real> {
    ticks + Absent(Unique(min, max), ticks)
  }

  /** The merge adds each of `min` and `max` that is missing, once, and nothing else. */
  lemma MergeTicksCounts(ticks: seq<real>, min: real, max: real)
    ensures var r := MergeTicks(ticks, min, max);
      forall v :: multiset(r)[v] == multiset(ticks)[v] + (if (v == min || v == max) && v !in ticks then 1 else 0)
  {
    var a := Absent(Unique(min, max), ticks);
    assert multiset(MergeTicks(ticks, min, max)) == multiset(ticks) + multiset(a);
    assert Absent([], ticks) == [];
    assert Absent([min], ticks) == (if min in ticks then [] else [min]) by {
      assert [min][..0] == [];
    }
    if min != max {
      assert [min, max][..1] == [min];
      assert a == (if min in ticks then [] else [min]) + (if max in ticks then [] else [max]);
    }
  }

  /** `x` inserted into a sorted list at its place. */
  function Insert(x: real, s: seq<real>): (r: seq<real>)
    requires Sorted(s)
    ensures Sorted(r) && multiset(r) == multiset(s) + multiset{x}
  {
    if s == [] then [x]
    else if x <= s[0] then [x] + s
    else
      var rest := Insert(x, s[1..]);
      assert s == [s[0]] + s[1..];
      InsertBelow(x, s, rest);
      [s[0]] + rest
  }

  /** Putting the first element of a sorted list in front of something made of its tail and of a larger
      value keeps the order. */
  lemma InsertBelow(x: real, s: seq<real>, rest: seq<real>)
    requires |s| > 0 && Sorted(s) && s[0] < x && Sorted(rest)
    requires multiset(rest) == multiset(s[1..]) + multiset{x}
    ensures Sorted([s[0]] + rest)
  {
    forall k | 0 <= k < |rest| ensures s[0] <= rest[k] {
      assert rest[k] in multiset(rest);
      if rest[k] != x {
        assert rest[k] in multiset(s[1..]);
        assert rest[k] in s[1..];
      }
    }
    var r := [s[0]] + rest;
    forall i, j | 0 <= i < j < |r| ensures r[i] <= r[j] {
      assert r[j] == rest[j - 1];
      if i > 0 {
        assert r[i] == rest[i - 1];
      }
    }
  }

  /** The ascending order the sort with comparator `aVal - bVal` leaves. */
  function SortTicks(s: seq<real>): (r: seq<real>)
    ensures Sorted(r) && multiset(r) == multiset(s)
  {
    if s == [] then []
    else
      assert s == [s[0]] + s[1..];
      Insert(s[0], SortTicks(s[1..]))
  }

  /** Two sorted lists with the same elements are equal, so any correct sort leaves the ticks as
      `SortTicks` does, whatever algorithm the engine uses. */
  lemma {:induction false} SortedPermutationUnique(a: seq<real>, b: seq<real>)
    requires Sorted(a) && Sorted(b) && multiset(a) == multiset(b)
    ensures a == b
  {
    if a != [] {
      assert |b| == |multiset(b)| == |multiset(a)| == |a|;
      SortedHeadsEqual(a, b);
      SameTails(a, b);
      SortedTail(a);
      SortedTail(b);
      SortedPermutationUnique(a[1..], b[1..]);
      assert a == [a[0]] + a[1..] && b == [b[0]] + b[1..];
    } else {
      assert |b| == |multiset(b)| == 0;
    }
  }

  /** Sorted permutations of each other start with the same, smallest element. */
  lemma SortedHeadsEqual(a: seq<real>, b: seq<real>)
    requires |a| > 0 && |b| > 0 && Sorted(a) && Sorted(b) && multiset(a) == multiset(b)
    ensures a[0] == b[0]
  {
    assert a[0] in multiset(b) && b[0] in multiset(a);
    assert a[0] in b && b[0] in a;
  }

  /** Removing the same first element from two permutations of each other leaves permutations. */
  lemma SameTails(a: seq<real>, b: seq<real>)
    requires |a| > 0 && |b| > 0 && a[0] == b[0] && multiset(a) == multiset(b)
    ensures multiset(a[1..]) == multiset(b[1..])
  {
    assert a == [a[0]] + a[1..] && b == [b[0]] + b[1..];
    assert multiset(a) == multiset{a[0]} + multiset(a[1..]);
    assert multiset(b) == multiset{b[0]} + multiset(b[1..]);
    assert multiset(a[1..]) == multiset(a) - multiset{a[0]};
    assert multiset(b[1..]) == multiset(b) - multiset{b[0]};
  }

  lemma SortedTail(s: seq<real>)
    requires |s| > 0 && Sorted(s)
    ensures Sorted(s[1..])
  {
    forall i, j | 0 <= i < j < |s| - 1 ensures s[1..][i] <= s[1..][j] {
      assert s[1..][i] == s[i + 1] && s[1..][j] == s[j + 1];
    }
  }

  /** After the hook the ticks are sorted, hold every original tick and both extremes, and each extreme
      that was missing was added exactly once. */
  lemma AfterBuildTicksSpec(ticks: seq<real>, min: real, max: real)
    ensures var r := SortTicks(MergeTicks(ticks, min, max));
      && Sorted(r)
      && min in r && max in r
      && (forall t | t in ticks :: t in r)
      && (forall v :: multiset(r)[v] == multiset(ticks)[v] + (if (v == min || v == max) && v !in ticks then 1 else 0))
  {
    var m := MergeTicks(ticks, min, max);
    var r := SortTicks(m);
    MergeTicksCounts(ticks, min, max);
    assert forall v | v in ticks :: multiset(r)[v] >= 1;
    assert multiset(r)[min] >= 1 && multiset(r)[max] >= 1;
  }

  /** An axis whose `ticks` list the hook extends and sorts in place: only the tick values are kept. */
  class TickAxis {
    var ticks: seq<real>

    constructor(initial: seq<real>)
      ensures ticks == initial
    {
      ticks := initial;
    }

    /** `afterBuildTicks(axis)` for the first series' `min` and `max`. */
    method AfterBuildTicks(min: real, max: real)
      modifies this
      ensures ticks == SortTicks(MergeTicks(old(ticks), min, max))
    {
      var existing := ticks;
      var unique := Unique(min, max);
      for k := 0 to |unique|
        invariant ticks == existing + Absent(unique[..k], existing)
      {
        assert unique[..k + 1][..k] == unique[..k];
        if unique[k] !in existing {
          ticks := ticks + [unique[k]];
        }
      }
      assert unique[..|unique|] == unique;
      ticks := SortTicks(ticks);
    }
  }

  // ---------------------------------------------------------------- the chart and the range flag

  /** What the chart is built from: labels, datasets, and the maxima of axes `y` and `y2`. */
  datatype ChartData = ChartData(labels: seq<string>, datasets: seq<Dataset>, leftMax: int, rightMax: int)

  /** The globals `showRange` and `chart`. */
  class ChartView {
    var showRange: bool
    var chart: Option<ChartData>

    constructor()
      ensures !showRange && chart == None
    {
      showRange := false;
      chart := None;
    }

    /** `toggleRange()`: flip the flag. */
    method ToggleRange()
      modifies this
      ensures showRange == !old(showRange) && chart == old(chart)
    {
      showRange := !showRange;
    }

    /** `drawChart(data1, data2, name1, name2)` with `COLORS` as `colors`: replace the chart by one
        built from the labels, the datasets pushed in order, and the shared axis maximum. */
    method DrawChart(data1: seq<real>, data2: seq<real>, name1: string, name2: string, colors: Palette,
                     sqrt: real -> real, show: real -> string)
      requires |data1| > 0 && |data2| > 0 && IsSqrt(sqrt)
      modifies this
      ensures showRange == old(showRange)
      ensures var st1, st2 := CalculateStats(data1, sqrt), CalculateStats(data2, sqrt);
        var n := if |data1| >= |data2| then |data1| else |data2|;
        chart == Some(ChartData(Labels(n), DatasetList(showRange, data1, data2, name1, name2, st1, st2, colors, show),
                                YAxisMax(st1, st2), YAxisMax(st1, st2)))
    {
      var maxLength := if |data1| >= |data2| then |data1| else |data2|;
      var labels := Labels(maxLength);
      var stats1 := CalculateStats(data1, sqrt);
      var stats2 := CalculateStats(data2, sqrt);
      var yAxisMax := YAxisMax(stats1, stats2);
      var datasets: seq<Dataset> := [];
      if showRange {
        datasets := datasets + [RangeMaxDataset(name1, stats1, maxLength, colors.series1, LeftAxis, show),
                                RangeMinDataset(name1, stats1, maxLength, colors.series1, LeftAxis)];
      }
      datasets := datasets + [SeriesDataset(name1, data1, colors.series1, showRange, 1, LeftAxis)];
      ghost var group1 := datasets;
      assert group1 == SeriesGroup(showRange, name1, data1, stats1, maxLength, colors.series1, 1, LeftAxis, show);
      ghost var band2: seq<Dataset> := [];
      if showRange {
        band2 := [RangeMaxDataset(name2, stats2, maxLength, colors.series2, RightAxis, show),
                  RangeMinDataset(name2, stats2, maxLength, colors.series2, RightAxis)];
        datasets := datasets + [RangeMaxDataset(name2, stats2, maxLength, colors.series2, RightAxis, show),
                                RangeMinDataset(name2, stats2, maxLength, colors.series2, RightAxis)];
      }
      assert datasets == group1 + band2;
      datasets := datasets + [SeriesDataset(name2, data2, colors.series2, showRange, 2, RightAxis)];
      assert datasets == group1 + (band2 + [SeriesDataset(name2, data2, colors.series2, showRange, 2, RightAxis)]);
      chart := Some(ChartData(labels, datasets, yAxisMax, yAxisMax));
    }
  }

  /** Toggling twice restores the flag. */
  method ToggleRangeTwice(view: ChartView)
    modifies view
    ensures view.showRange == old(view.showRange) && view.chart == old(view.chart)
  {
    view.ToggleRange();
    view.ToggleRange();
  }
}
