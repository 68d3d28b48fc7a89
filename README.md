# chart_performance in Dafny

chart_performance is a one-page tool that compares two series of performance numbers. This project models the logic under its DOM code and proves properties of that model:

- **Statistics engine** (`calculateStats`, `calculateDifferences`, `calculateCorrelation`, `getVarianceLevel`): per-series mean, minimum, maximum, range and coefficient of variation; the overlap-only comparison of two series, with the loop that keeps the absolute differences, their sum and their running maximum; the Pearson correlation, which is 0 on a zero denominator; and the four variance buckets.
- **`handleCompare` input gate**: trim the inputs, stop on blank input, split on whitespace, convert with `Number`, drop NaN, stop on an empty series, and default the display names.
- **`updateStats` conclusion**: the variance buckets, the stability sentence and the performance sentence.
- **Colour codecs**: `createColorConfig` (the `rgb()`/`rgba()` forms of section 5.1 of CSS Color Module Level 4), `hexToRgb` (the hex form of section 5.2, with an optional `#`) and `rgbToHex`, with its 32-bit shifts and `toString(16)`. Both round trips are proved.
- **Colour state**: the global `COLORS` and `COLOR_SCHEMES` that `setColorScheme`, `updateCustomColors` and `applyCustomColors` change, and the initial table.
- **`drawChart` data**: the x labels, the min/max range arrays, the ordered dataset list chosen by `showRange`, the shared axis maximum and the tooltip filter.
- **`afterBuildTicks`**: the hook that merges the first series' min and max into the axis ticks and sorts them. `toggleRange` is the flip of the `showRange` flag.

Modules follow the source files:

| module | models |
|---|---|
| `Stats` | js/stats.js, and its verbatim copy in script.js |
| `Verdict` | the conclusion in script.js `updateStats` |
| `Compare` | the `handleCompare` gate, identical in script.js and js/app.js |
| `Colors` | js/constants.js, including the class `ColorState` for its globals |
| `App` | `rgbToHex`, the custom-colour dialog and `applyCustomColors` in js/app.js |
| `Chart` | js/chart.js, including the class `ChartView` for the globals `showRange` and `chart`, and the class `TickAxis` |
| `Text` | helpers: whitespace, decimal and hex digits, integer printing and parsing |
| `Wrappers` | helper: `Option` |

Numbers are modelled as `real`:

- `Math.sqrt` is a parameter `sqrt`. The model assumes only `IsSqrt`: on a non-negative argument it returns the non-negative root.
- `Number` is a parameter `toNumber` that returns a finite value, NaN or an infinity.
- JavaScript's number-to-string in the range-band labels is a parameter `show`.
- A division by zero gives `None`. In JavaScript it gives NaN or +Infinity, and both fail every `<` threshold. That is why a `None` coefficient of variation counts as High, and a `None` percent counts as "Significant".

## Model

| member | source | states |
|---|---|---|
| Stats.Min | js/stats.js:7 | `Math.min(...data)` is an element of the series and at most every element |
| Stats.Max | js/stats.js:8 | `Math.max(...data)` is an element of the series and at least every element |
| Stats.MeanBetweenMinAndMax | js/stats.js:5-8 | the mean lies between the minimum and the maximum, and mean × N is the sum |
| Stats.VarianceFacts | js/stats.js:11 | the population variance is ≥ 0, and > 0 exactly when some element differs from the mean |
| Stats.CalculateStats | js/stats.js:4-22 | min and max are elements of the series and bound every element; range = max − min ≥ 0; avg is the mean and lies in [min, max]; variance is the coefficient of variation |
| Stats.CoefficientOfVariation | js/stats.js:10-13 | undefined (NaN/Infinity) exactly when the mean is 0; otherwise cv × mean / 100 is a non-negative square root of the population variance, and cv ≠ 0 exactly when the series is not constant |
| Stats.RootRatio | js/stats.js:71-74 | `den === 0 ? 0 : num / den` with `den = sqrt(p)`: is 0 when p = 0, times den gives num back when p > 0, and lies in [−1, 1] whenever num² ≤ p |
| Stats.Centred | js/stats.js:63-71 | the one-pass sums `pSum − sum1·sum2/n` and `sumSq − sum²/n` equal the centred sums of products and of squares |
| Stats.CauchySchwarz | js/stats.js:70-71 | (Σ(x−c)(y−d))² ≤ Σ(x−c)² · Σ(y−d)² |
| Stats.CorrelationSquares | js/stats.js:63-71 | the quantity under the square root is ≥ 0 and bounds the square of the numerator |
| Stats.CorrelationFacts | js/stats.js:62-75 | in [−1, 1]; 0 when the denominator is 0; otherwise value × denominator = numerator |
| Stats.CorrelationSymmetric | js/stats.js:62-75 | swapping the two series leaves the correlation unchanged |
| Stats.ConstantSeriesCorrelation | js/stats.js:71-73 | a constant series has zero spread, so the correlation is 0 |
| Stats.AbsDiffs | js/stats.js:26-33 | exactly min(len1, len2) differences, the i-th being abs(data1[i] − data2[i]) |
| Stats.MaxOr0 | js/stats.js:29-35 | the running maximum from 0 is ≥ 0, bounds every element, and is 0 or an element |
| Stats.SumAndMaxDiff | js/stats.js:27-36 | the loop leaves `sumAbsDiff` = sum of the differences and `maxDiff` = their running maximum from 0 (loop invariants over the pushed `differences`) |
| Stats.CalculateDifferences | js/stats.js:25-59 | the computed record equals `Differences`; `maxDiff` bounds every difference over the overlap; 0 ≤ avgDiff ≤ maxDiff |
| Stats.DifferencesFacts | js/stats.js:31-49 | maxDiff bounds every difference and is 0 or attained; 0 ≤ avgDiff ≤ maxDiff; avgDiff is the mean difference; seriesAvgDiff compares the whole-series means; both percents are undefined exactly when the mean sum is 0; correlation in [−1, 1] |
| Stats.MaxDiffAttained | js/stats.js:35 | the running maximum bounds every abs(data1[i] − data2[i]) and, unless 0, equals one of them |
| Stats.Percent | js/stats.js:42-46 | `(x / base) * 100` is undefined exactly when base = 0, and otherwise times base gives 100·x |
| Stats.DifferencesSymmetric | js/stats.js:26-49 | swapping data1 and data2 changes no metric |
| Stats.DifferencesIgnoreTail | js/stats.js:26-49 | extra elements past the overlap change neither avgDiff, maxDiff nor the correlation |
| Stats.GetVarianceLevel | js/stats.js:78-83 | Very Low iff < 5, Low iff in [5, 10), Medium iff in [10, 20), High iff ≥ 20 |
| Stats.VarianceLevelMonotone | js/stats.js:78-83 | a larger value never gets a lower bucket |
| Stats.VarianceClassSharing | js/stats.js:79-82 | two buckets share a CSS class exactly when they are equal or both among Very Low and Low |
| Stats.LevelOf | script.js:229-233 | NaN or +Infinity read back by `parseFloat` is classified High |
| Stats.NegativeMeanReadsAsVeryLow | js/stats.js:13 | a negative mean gives a coefficient of variation ≤ 0, hence Very Low, however much the series fluctuates |
| Verdict.AverageVariability | script.js:231 | the average is defined iff both values are, is their midpoint, and lies between them |
| Verdict.StabilityOf | script.js:243-245 | stable iff v < 10, moderate iff v in [10, 20), significant iff v ≥ 20 or NaN |
| Verdict.StabilityMatchesLevel | script.js:242-245 | the stability sentence agrees with the average bucket: stable for Very Low/Low, moderate for Medium, significant for High |
| Verdict.PerformanceOf | script.js:248-250 | similar iff p < 5; better iff p in [5, 10) and avg1 > avg2; lower iff p in [5, 10) and avg1 ≤ avg2; significant iff p ≥ 10 or NaN |
| Verdict.Conclude | script.js:229-250 | the average is defined iff both coefficients are and is their midpoint; the stability sentence is "stable" iff the average bucket is Very Low or Low, "moderate" iff Medium, "significant" iff High; the performance sentence is "similar" iff the percent is < 5, "better"/"lower" iff it is in [5, 10) with the first mean above / not above the second |
| Verdict.BandNeedsDistinctMeans | script.js:248-250 | with equal means the sentence is "very similarly", or "Significant" when both means are 0; "better"/"lower" never applies |
| Verdict.ConclusionMirrors | script.js:229-250 | swapping the series swaps the per-series buckets and "better"/"lower", and keeps the average bucket, the stability and "similar" |
| Compare.ContentEnd | script.js:259-260 | the end of the content: everything after it is whitespace and the character before it is not |
| Compare.Trim | script.js:259-260 | the result has no whitespace at either end, is empty iff the input is all whitespace, and is the input with only whitespace cut from both ends |
| Compare.TrimIdempotent | js/app.js:137-140 | trimming twice is trimming once |
| Compare.FirstSpace | script.js:270 | the first whitespace index: no whitespace before it |
| Compare.SplitNoSpaces | script.js:270-271 | no piece of `split(/\s+/)` contains whitespace |
| Compare.SplitFlatten | script.js:270-271 | the pieces, concatenated, are exactly the non-whitespace characters of the input, in order |
| Compare.SplitTrimmedTokens | script.js:270-271 | a trimmed, non-blank input splits into non-empty pieces only |
| Compare.ParseTokens | script.js:270-271 | `map(Number).filter(n => !isNaN(n))` keeps no NaN and is no longer than the tokens |
| Compare.ParseTokensAppend | script.js:270-271 | conversion works piece by piece, so the order of the tokens is the order of the values |
| Compare.ParseTokensMembers | script.js:270-271 | a value is in the result iff it is not NaN and is the conversion of some token |
| Compare.ParseTokensKeepsAll | script.js:270-271 | when no token converts to NaN, nothing is dropped and the k-th value is the k-th conversion |
| Compare.Reals | js/app.js:148-149 | the series is all real exactly when no value is an infinity, and then the values are those reals in order |
| Compare.DisplayName | script.js:261-262 | a blank name gives the default, otherwise the trimmed, non-empty name |
| Compare.HandleCompare | js/app.js:136-159 | each outcome as an iff: blank or whitespace-only input stops first; then a series that parses to nothing; then a parsed infinity; and exactly the remaining inputs are compared, with the statistics, differences and conclusion of the parsed series under the defaulted names |
| Compare.ComparedValuesComeFromTokens | script.js:258-276 | every value that reaches the statistics is the conversion of some token, and the tokens are the non-empty, whitespace-free pieces of the trimmed input |
| Compare.SeriesValueFromToken | script.js:270-271 | for one input: the k-th parsed real comes from a non-empty, whitespace-free token |
| Colors.ConfigSharesChannels | js/constants.js:14-23 | `primary` is `rgb(` channels `)`, and every `rgba` field repeats the same channel text followed by its opacity |
| Colors.HexToRgb | js/constants.js:122-129 | accepts exactly an optional `#` and six hex digits of either case, and every channel is in 0..255 |
| Colors.HexText | js/app.js:130 | the `#rrggbb` text is 7 characters: `#` and six lower-case hex digits, two per channel |
| Colors.HexToRgbOfHexText | js/constants.js:122-129 | `hexToRgb` reads back the colour its hex text was printed from |
| Colors.HexTextOfHexToRgb | js/constants.js:122-129 | printing what `hexToRgb` read gives back its six digits in lower case |
| Colors.FindScheme | js/constants.js:90 | `find` by id: the first entry with the id, or none exactly when no entry has it |
| Colors.InitialIdsDistinct | js/constants.js:29-77 | the nine initial ids are pairwise distinct |
| Colors.InitialSchemesWellFormed | js/constants.js:27-83 | nine entries, distinct ids, and exactly one custom entry, the last, with id "custom" |
| Colors.FindSchemeUnique | js/constants.js:90 | in a well-formed table `find` returns the one entry with the id |
| Colors.ReplaceCustomKeepsShape | js/constants.js:107-110 | replacing the custom entry's colours keeps the table well formed |
| Colors.ColorState.constructor | js/constants.js:27-86 | the initial table, and `COLORS` showing entry 0 |
| Colors.ColorState.SetColorScheme | js/constants.js:89-99 | returns true iff some entry has the id; then `COLORS` takes the first match's colours, otherwise nothing changes; the table never changes |
| Colors.ColorState.UpdateCustomColors | js/constants.js:102-119 | with both hex values valid and a custom entry, only that entry changes, to the new configs, and `COLORS` shows them; otherwise nothing changes |
| App.LeadGroup | js/app.js:125 | a `(\d+)` capture is non-empty digits and, with the following text, rebuilds the input |
| App.SpacedGroup | js/app.js:125 | `\s*(\d+)`: whitespace, non-empty digits and the rest rebuild the input |
| App.MatchRgb | js/app.js:125 | only strings of the `rgb(d,\s*d,\s*d)` form match, and the captures are their digit groups |
| App.MatchRgbComplete | js/app.js:125 | every string of that form matches, with its three digit groups captured |
| App.ToInt32 | js/app.js:130 | wrapping into the signed 32-bit range leaves 0 ≤ x < 2³¹ unchanged |
| App.JsHex | js/app.js:130 | `toString(16)`: lower-case hex digits that `parseInt(_, 16)` reads back as the value, after a minus sign for a negative value |
| App.RgbToHex | js/app.js:124-133 | a string that does not match gives `#667eea`; every result starts with `#` |
| App.PackedValue | js/app.js:130 | for channels in 0..255 no shift wraps: the packed value is 2²⁴ plus the 24-bit colour |
| App.ChannelDigits | js/app.js:130 | six zero-padded hex digits of the 24-bit colour are two digits per channel |
| App.PackedHex | js/app.js:130 | `slice(1)` of the packed value's hex text is exactly the six digits of the colour |
| App.RgbToHexOfForm | js/app.js:124-130 | for in-range digit groups, `rgbToHex` gives `#` and six lower-case hex digits, the colour's hex text |
| App.PrimaryMatches | js/constants.js:16 | `createColorConfig(r, g, b).primary` matches the `rgbToHex` pattern, with r, g, b as its groups |
| App.RgbToHexOfPrimary | js/app.js:124-130 | `rgbToHex(primary)` is well formed: `#` and six lower-case hex digits for the colour |
| App.PrimaryRoundTrip | js/constants.js:122-129 | `hexToRgb(rgbToHex(createColorConfig(r, g, b).primary))` is `{r, g, b}` for channels in 0..255 |
| App.PickerRoundTrip | js/app.js:78-79 | a picked hex colour, stored and shown again, comes back as its own digits in lower case |
| App.DialogColors | js/app.js:75-79 | nothing exactly when there is no custom entry; otherwise, for in-range channels, the `#rrggbb` hex text of the custom entry's two colours |
| App.InitialDialogColors | js/app.js:75-79 | on the initial table the dialog shows `#667eea` and `#f093fb` |
| App.ApplyCustomColors | js/app.js:98-106 | with valid hex values the custom entry and `COLORS` take them, and the dialog shows them back in lower case; otherwise the table stays and `COLORS` shows the custom entry as it was; the table stays well formed |
| Text.HexNatValue | js/app.js:130 | `parseInt(_, 16)` reads back what `toString(16)` printed for a non-negative number |
| Text.HexNatDigits | js/app.js:130 | `toString(16)` of a non-negative number prints only lower-case hex digits |
| Text.ParseDecOfDec | js/app.js:127-129 | `parseInt` reads back the decimal text a template literal prints |
| Text.ParseHexOfFixedHex | js/constants.js:125-127 | `parseInt(_, 16)` reads back a zero-padded hex field |
| Text.FixedHexOfParseHex | js/constants.js:125-127 | printing a parsed hex field gives back its digits in lower case |
| Chart.Labels | js/chart.js:15-16 | n labels, label i being `#` followed by i + 1 (DrawChart passes n = max(len1, len2)) |
| Chart.LabelsDistinct | js/chart.js:16 | no two points share a label |
| Chart.Fill | js/chart.js:27-30 | `Array(n).fill(v)`: n copies of v |
| Chart.RangeBandEnclosesSeries | js/chart.js:27-30 | both band edges have one entry per label, and the band encloses every point of its series |
| Chart.DatasetListShape | js/chart.js:33-139 | without the band the list is the two series lines; with it, six entries in the source's push order |
| Chart.DatasetAxes | js/chart.js:33-139 | 2 or 6 entries; the first half is on axis `y` and the second on `y2`; exactly the last of each half is not a range entry |
| Chart.ChartView.DrawChart | js/chart.js:7-146 | the chart is replaced by the labels, the pushed datasets and the same maximum on both axes; the flag is unchanged |
| Chart.TooltipDatasets | js/chart.js:173-176 | the filter keeps exactly the non-range datasets |
| Chart.TooltipShowsSeriesLines | js/chart.js:173-176 | with or without the band, the tooltip lists the two series lines in order |
| Chart.Ceil | js/chart.js:24 | `Math.ceil(x)` is the least integer ≥ x |
| Chart.Larger | js/chart.js:23 | `Math.max(a, b)` is one of them and at least both |
| Chart.AxisMaxCoversData | js/chart.js:22-24 | when the larger maximum is ≥ 0, no point of either series lies above the shared axis maximum |
| Chart.NegativeMaximumLosesHeadroom | js/chart.js:24 | whenever the larger maximum is ≤ −10, the axis top lies below the highest point; for a larger maximum of −10 it is −11 |
| Chart.Unique | js/chart.js:239-240 | `[...new Set([min, max])]` holds min and max, each once, and nothing else |
| Chart.Absent | js/chart.js:242-246 | the pushed values are exactly those of the set that the ticks lack |
| Chart.MergeTicksCounts | js/chart.js:238-246 | the merge adds each of min and max that is missing, once, and nothing else |
| Chart.Insert | js/chart.js:249-253 | inserting into a sorted list keeps it sorted and adds exactly that element |
| Chart.SortTicks | js/chart.js:249-253 | the result is sorted and a permutation of the ticks |
| Chart.SortedPermutationUnique | js/chart.js:249-253 | two sorted permutations of the same ticks are equal, so any correct sort gives the same list |
| Chart.AfterBuildTicksSpec | js/chart.js:234-254 | the ticks end sorted and hold every original tick and both extremes; each missing extreme is added exactly once |
| Chart.TickAxis.AfterBuildTicks | js/chart.js:234-254 | the in-place hook leaves the sorted merge of the old ticks and the extremes |
| Chart.ChartView.ToggleRange | js/app.js:4-5 | `showRange` is negated; the chart is unchanged |
| Chart.ToggleRangeTwice | js/app.js:4-5 | toggling twice restores the flag |

## Left out

- DOM reads and writes, `alert`, the modal show/hide functions and the event listeners (js/app.js:6-95, 107-120, 168-195; script.js:208-227, 290-313): UI wiring with no logic. The picker values arrive as method parameters.
- Chart.js construction, styling options, the font/colour/grid callbacks, the tooltip `label` and `afterBody` callbacks, and `chart.destroy()`: they configure a library that is not part of this model. `DrawChart` keeps only the labels, the datasets and the two axis maxima.
- Dataset widths, radii, tension and point colours: styling. The `Dataset` record keeps the fields the rest of the page depends on.
- `toFixed` rounding and IEEE floating point: values are exact reals. The thresholds compare full-precision values, where the page compares the values `parseFloat` reads back from the two-decimal text. `1.1` in the axis maximum is the exact real.
- Verdict.PerformanceOf: the "better"/"lower" choice compares the full-precision means, while script.js:249 compares `parseFloat(stats1.avg) > parseFloat(stats2.avg)` on the two-decimal text. Means of 0.004 and 0.0038 differ by about 5.13 %; the page reads both as 0.00 and says "lower", where the model says "better".
- Stats.Min, Stats.Max: `Math.min(...data)` and `Math.max(...data)` (js/stats.js:7-8) spread the array into call arguments, which throws a `RangeError` for arrays past the engine's argument limit. The model has no such limit.
- `Math.sqrt`, `Number` and number-to-string: parameters, as described above. `Number`'s token syntax (hex literals, exponents, `Infinity`) is not modelled.
- Compare.HandleCompare: a parsed series that holds an infinity ends in `InfiniteValue`. The page goes on to compute with IEEE infinities, which are not modelled.
- `parseInt` beyond 2⁵³: digit groups parse to exact integers. Large values are handled only through the 32-bit shifts that `ToInt32` models.
- The `showRange` handler's redraw call to `handleCompare`: `ToggleRange` only flips the flag.
- The engine's sort algorithm in `afterBuildTicks`: the model sorts by insertion, and `SortedPermutationUnique` shows that every correct sort gives the same list. Ticks are kept as their values; Chart.js tick objects are not modelled.
- The second copy of the statistics functions in script.js (lines 4-83): it is the same code as js/stats.js and is modelled once, in `Stats`.
- `COLORS` initially refers to entry 0 of the table itself, where `setColorScheme` stores copies. The model stores values, so it does not capture that aliasing. Any later change to entry 0 would show through `COLORS` in the source, but no code changes entry 0.
- `createColorConfig` returns an object with seven strings. `ColorConfig` stores the three channels and derives the seven strings from them as member functions. The strings are the same; they are only computed on demand.
- Stats.CalculateDifferences: the loop is a separate method, `SumAndMaxDiff`, which computes the same values in the same order. The `differences` array it pushes to is a local sequence, because the source never reads it back.
