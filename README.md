# Chart-pattern engine, modelled in Dafny

This project models `PatternDetector`, the chart-pattern engine of the
pattern-analysis app, over exact real prices. The engine takes a window of
candles. Only the high, low and close of each candle matter. It runs six
detectors in a fixed order and concatenates the trade signals they report:

- double top;
- double bottom;
- head and shoulders;
- triangle;
- flag;
- support/resistance.

Each signal carries a pattern, a direction, a fixed confidence, an entry at
the last close, a stop-loss, a target and a fixed risk/reward ratio.

Modules:

- `PatternTypes` (`types.dfy`): candles, signals and each pattern's fixed
  constants, plus three predicates on a signal:
  - `HasFixedConstants`;
  - `StopProtects`: the stop lies on the losing side of the entry;
  - `TargetProfits`: the target lies on the winning side.
- `Extrema` (`extrema.dfy`): the strict two-wide peak/trough scan that all
  three reversal detectors share. The scan is a method with a loop, proved
  equal to a recursive specification function.
- `Stats` (`stats.dfy`): exact versions of the numpy routines the
  detectors call:
  - sum, mean and population variance;
  - minimum and maximum;
  - an insertion sort;
  - percentile with linear interpolation;
  - the closed-form least-squares slope of a degree-one fit against the
    index positions.
- `Reversals` (`reversals.dfy`): double top, double bottom, and head and
  shoulders. Each is a method whose loops mirror the loops of
  `detect_double_top`, `detect_double_bottom` and `detect_head_shoulders`,
  and each is proved equal to a specification function. Lemmas state what
  every emitted signal satisfies, and that the output lists, in scan order
  and once each, the signals of exactly the qualifying pairs or triples.
- `Continuations` (`continuations.dfy`): triangle and flag, as functions
  with lemmas.
- `Levels` (`levels.dfy`): support/resistance, as functions with lemmas.
- `Engine` (`engine.dfy`): the global floor of 20 candles and the
  concatenation. The method `DetectPatterns` is proved equal to the
  specification function `PatternSignals`.

Ratio tests are handled in three ways:

- The pair tolerance of the double top and bottom,
  `abs(p1 - p2) / avg < 0.02`, and the nearness test of
  `detect_support_resistance`, `abs(price - level) / level < 0.02`, are
  written multiplied out, as `diff < tol * base`. `Reversals.WithinIsRatio`
  and `Levels.NearIsRatio` prove each equivalent to the quotient when the
  base is positive.
- The flag's price change `(last - first) / first` is kept as a quotient
  (`Continuations.PriceChange`). `Continuations.StrongMoveMeans` derives the
  multiplied-out reading: the last close is more than 5% above or below
  the first.
- The flag's volatility test `np.std(...) / np.mean(...) < 0.02` is written
  as `variance < (0.02 * mean)^2` (`Stats.LowVolatility`).
  `Stats.VolatilityRatio` proves the two agree when every value is
  positive.

A head-and-shoulders signal is the only one whose target is not always on
the profit side of its entry. Its target is the measured move below the
neckline, 2·neckline − head. A close far enough below the neckline already
lies under that target. `Reversals.ShouldersTargetCanExceedEntry` gives a
concrete case. The target is always below the neckline.

## Model

| member | source | states |
|---|---|---|
| Extrema.FindExtrema | detector.py:49-53 | the scan loop returns exactly the specification list of qualifying indices in scan order, for peaks and for troughs |
| Extrema.ExtremaCharacterized | detector.py:92-96 | every recorded index lies in 2..n-3, strictly beats the two values on each side and carries its own value; recorded indices strictly increase; every qualifying index is recorded |
| Extrema.ExtremaPositive | detector.py:135-139 | extrema of a positive series have positive prices |
| Extrema.UnimodalPeaks | detector.py:49-53 | a strictly rising-then-falling series has exactly one peak, at its maximum, unless the maximum is within two places of an end, in which case it has none |
| Reversals.WithinIsRatio | detector.py:61-64 | for positive prices the multiplied-out tolerance test is the same as the ratio test abs(p1 - p2) / avg < tol |
| Reversals.DetectDoubleTop | detector.py:39-80 | the two loops, the peak scan and then the scan over adjacent pairs, return exactly the double-top specification list |
| Reversals.DoubleTopProperties | detector.py:56-78 | nothing below 20 candles; at most one signal per adjacent pair of peaks; each signal is a bearish double top entered at the last close, below 98% of the higher peak of a pair within 2%, with stop above and target below the entry; every qualifying pair yields its signal; the list holds exactly the firing pairs' signals, once each, in scan order |
| Reversals.DetectDoubleBottom | detector.py:82-123 | the trough scan and the pair loop return exactly the double-bottom specification list |
| Reversals.DoubleBottomProperties | detector.py:99-121 | nothing below 20 candles; at most one signal per adjacent pair of troughs; each is a bullish double bottom entered above 102% of the lower trough of a pair within 2%, with stop below and target above the entry; every qualifying pair yields its signal; the list holds exactly the firing pairs' signals, once each, in scan order |
| Reversals.TwinSignalOriented | detector.py:64-78 | a firing pair of positive extrema gives a signal with its fixed constants, its stop on the losing side and its target on the winning side |
| Reversals.TwinScanFacts | detector.py:56-59 | the scan over the first k pairs emits at most k signals in total; each comes from a pair that fires; every pair that fires contributes its signal (one signal per pair, in order, is Reversals.TwinScanExact) |
| Reversals.TwinScanExact | detector.py:56-78 | the pair scan's output has one entry per firing pair, in strictly increasing pair order; entry m is the signal of the m-th firing pair; every firing pair is listed |
| Reversals.DoubleTopListing | detector.py:56-78 | from 20 candles on, the double-top list is exactly the signals of the firing adjacent peak pairs, once each and in scan order |
| Reversals.DoubleBottomListing | detector.py:99-121 | from 20 candles on, the double-bottom list is exactly the signals of the firing adjacent trough pairs, once each and in scan order |
| Reversals.DetectHeadShoulders | detector.py:125-171 | the peak scan and the triple loop return exactly the head-and-shoulders specification list |
| Reversals.HeadShouldersProperties | detector.py:141-169 | nothing below 30 candles; at most one signal per consecutive triple of peaks; each comes from a triple whose head beats both shoulders and whose shoulders are within 3%, is entered at the last close below the neckline with its stop above the entry, and targets a price below the neckline; every qualifying triple yields one; the list holds exactly the firing triples' signals, once each, in scan order |
| Reversals.ShouldersScanExact | detector.py:141-169 | the triple scan's output has one entry per firing triple, in strictly increasing triple order; entry m is the signal of the m-th firing triple; every firing triple is listed |
| Reversals.HeadShouldersListing | detector.py:141-169 | from 30 candles on, the head-and-shoulders list is exactly the signals of the firing consecutive peak triples, once each and in scan order |
| Reversals.ShouldersSignalShape | detector.py:156-166 | a firing triple gives a bearish signal with entry below the neckline, stop above the entry and target below the neckline |
| Reversals.ShouldersTargetCanExceedEntry | detector.py:159-166 | a concrete triple that fires while its measured-move target lies above its entry |
| Continuations.DetectTriangle | detector.py:173-217 | at most one signal, and only from 20 candles on; it is an ascending or descending triangle entered at the last close with its fixed constants |
| Continuations.TriangleOutcome | detector.py:180-215 | at most one signal; nothing below 20 candles; ascending exactly when the high trend is flat and the low trend rises; descending exactly when the ascending test fails and the low trend is flat with a falling high trend; otherwise nothing |
| Continuations.TriangleOriented | detector.py:198-212 | for positive, well-formed candles a triangle signal is entered at the last close with its fixed constants, stop on the losing side and target on the winning side |
| Continuations.FlatTopRisingBottom | detector.py:188-193 | constant highs over strictly rising lows in the last 20 candles give an ascending triangle |
| Continuations.FlatBottomFallingTop | detector.py:188-205 | constant lows under strictly falling highs in the last 20 candles give a descending triangle |
| Stats.Slope | detector.py:188-189 | the least-squares slope is positive exactly when the covariation of the values with their positions is positive, and negative exactly when it is negative |
| Stats.SlopeOfConstant | detector.py:188 | the least-squares slope of a constant series is zero |
| Stats.SlopeOfIncreasing | detector.py:189 | a strictly increasing series has a positive least-squares slope |
| Stats.SlopeOfDecreasing | detector.py:188 | a strictly decreasing series has a negative least-squares slope |
| Stats.DenominatorClosed | detector.py:188-189 | the slope denominator n·Σi² − (Σi)² over the positions 0..n-1 equals n²(n²−1)/12 |
| Stats.IndexSumClosed | detector.py:188 | the positions 0..n-1 sum to n(n-1)/2 |
| Continuations.DetectFlag | detector.py:219-262 | at most one signal, and only from 15 candles on; it is a bull or bear flag entered at the last close with its fixed constants |
| Continuations.FlagOutcome | detector.py:224-260 | nothing below 15 candles; a bull flag exactly when the move is strong and upward and the consolidation quiet; a bear flag exactly when it is strong, not upward and quiet; otherwise nothing |
| Continuations.FlagShape | detector.py:239-260 | at most one signal, either a bull flag or a bear flag |
| Continuations.StrongMoveMeans | detector.py:229-231 | the move is strong exactly when the last of the 15 closes is more than 5% above or below the first, and it is upward exactly when the last close exceeds the first |
| Continuations.ConsolidatingIsRatio | detector.py:233-236 | for a population standard deviation sd of the last 8 closes, sd / mean < 0.02 holds exactly when the squared volatility test holds |
| Stats.MeanBounds | detector.py:234 | the mean lies within any bounds that hold for every value |
| Stats.SeqMin | detector.py:245 | the minimum is one of the values and is at most every value |
| Stats.SeqMax | detector.py:256 | the maximum is one of the values and is at least every value |
| Stats.Variance | detector.py:234 | the population variance is never negative |
| Stats.VarianceOfConstant | detector.py:234 | a constant series has that constant as its mean and zero variance |
| Stats.LowVolatility | detector.py:234-236 | the volatility test passes only for a nonzero mean |
| Stats.VolatilityRatio | detector.py:234 | for values that are all positive, sd / mean < 0.02 is the same as variance < (0.02·mean)² |
| Stats.TightBandIsLowVolatility | detector.py:234-236 | values that all lie within 1% above a positive level pass the volatility test |
| Continuations.FlagOriented | detector.py:244-257 | a flag signal is entered at the last close with its fixed constants, stop on the losing side and target on the winning side |
| Continuations.TightBullFlag | detector.py:228-249 | a rise of more than 5% over 15 closes whose last 8 stay within a 1% band gives a bull flag |
| Continuations.TightBearFlag | detector.py:228-260 | a fall of more than 5% over 15 closes whose last 8 stay within a 1% band gives a bear flag |
| Stats.SortReals | detector.py:278 | the sort is sorted, keeps the length and is a permutation of its input |
| Stats.Percentile | detector.py:278 | the interpolated percentile lies between the minimum and the maximum of the window |
| Stats.PercentileOfConstant | detector.py:282 | any percentile of a constant window is that constant |
| Levels.NearIsRatio | detector.py:285 | for a positive level the multiplied-out nearness test is the same as abs(price - level) / level < 0.02 |
| Levels.DetectSupportResistance | detector.py:264-310 | at most two signals, and only from 20 candles on; each is a support or resistance signal entered at the last close with its fixed constants |
| Levels.LevelSignals | detector.py:284-308 | at most two signals, each entered at the given close with its fixed constants and a support or resistance pattern |
| Levels.LevelSignalsOutcome | detector.py:284-308 | a support signal exactly when the close is near the support; a resistance signal exactly when it is near the resistance; nothing else; support before resistance when both fire |
| Levels.LevelsOutcome | detector.py:271-308 | nothing below 20 candles; otherwise a support signal exactly when the last close is within 2% of the 25th percentile of the last 20 lows, a resistance signal exactly when it is within 2% of the 75th percentile of the last 20 highs, nothing else, and support first |
| Levels.LevelsWithinWindow | detector.py:277-282 | both levels are positive and lie between the minimum and the maximum of their window |
| Levels.LevelSignalShape | detector.py:290-305 | near a positive level, both level signals have their stop on the losing side and their target on the winning side |
| Levels.LevelsOriented | detector.py:284-308 | every support/resistance signal is entered at the last close with its fixed constants, stop on the losing side and target on the winning side |
| Levels.FlatRange | detector.py:277-282 | over constant lows and constant highs, the support is the low and the resistance is the high |
| Levels.BounceOffFlatFloor | detector.py:284-298 | a close within 2% of a flat floor, under a flat ceiling more than 5% above the floor, gives the support signal alone |
| Engine.DetectPatterns | detector.py:11-37 | the method returns nothing below 20 candles and otherwise the six detector outputs concatenated in run order, as the specification function states |
| Engine.SignalsInRunOrder | detector.py:30-35 | the reported signals are grouped by detector in run order: double tops, double bottoms, head and shoulders, triangle, flag, support, resistance |
| Engine.SignalCount | detector.py:13-35 | nothing below 20 candles; never more signals than the pair and triple counts of the peak and trough lists plus four |
| Engine.SignalsOriented | detector.py:30-35 | for positive, well-formed candles every reported signal is entered at the last close with its fixed constants and its stop on the losing side, and every signal other than head and shoulders has its target on the winning side |

## Left out

- The technical indicators (SMA, EMA, RSI, Bollinger bands, detector.py:20-27) are not modelled. They are calls into the `ta` library, and no detector reads their results.
- Building the pandas DataFrame is not modelled. The input is a sequence of candle records.
- The timestamps, opens and volumes are not modelled, because no detector reads them.
- The human-readable descriptions, including the two-decimal formatting of the levels, are not modelled.
- app.py is not part of this model. It holds the data fetching, the polling thread and the web routes.
- Floating-point rounding is not modelled. Prices and thresholds are exact reals.
- Non-positive prices are excluded from 20 candles on. Every detector that divides by a price requires positive prices; below the floor of 20 the engine reports nothing and demands nothing. detector.py guards no divisor against zero, and the float infinities or NaNs it would then produce are not modelled.
- Stats.Slope: only sign facts are proved: the slope has the sign of the covariation, it is zero for a constant series, and it has the sign of a strictly monotone series. That the fit of an exact line recovers its gradient is not proved: it needs nonlinear real arithmetic over the recursive sums, which the solver does not handle reliably.
- Continuations.Consolidating: the square root in the standard deviation is not computed. The test is stated on the variance, and ConsolidatingIsRatio relates it to any non-negative sd whose square is the variance.
- Continuations.TriangleOriented and Engine.SignalsOriented require well-formed candles (low ≤ close ≤ high). `detect_patterns` never checks this.
- Engine.SignalsOriented does not claim a profitable target for head and shoulders, because that does not hold (Reversals.ShouldersTargetCanExceedEntry).
