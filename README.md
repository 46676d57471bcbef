# Z-score spread analysis, modelled in Dafny

`analyze_spread` downloads the close prices of two tickers and then computes
five columns on the downloaded table:

1. **Spread**: close of ticker 1 minus close of ticker 2, row by row.
2. **Mean**: the rolling mean of the spread over the trailing 30 rows.
3. **Std**: the rolling sample standard deviation (divisor n − 1) over the same window.
   A window with fewer than 30 defined spreads gives not-a-number in both.
4. **Z-Score**: `(Spread − Mean) / Std`.
5. **Signal**: set to 0 on every row, then overwritten in place with +1 where
   `Z-Score < −2` (buy) and with −1 where `Z-Score > 2` (sell).

The model works on exact reals (`real`), not on floats. The price, Spread, Mean
and Std cells are `Option<real>` and the Z-Score cells `Option<ZScore>`; `None`
plays the part of both a missing close price and a not-a-number cell. The
Signal cells are plain integers. Dafny has no real square root, so the Std column is
carried as its square, the sample variance. A defined Z-score is carried as the
pair (spread − mean, variance). The threshold tests are written on squares: the
Z-score is above 2 exactly when the deviation is positive and
deviation² > 4 · variance. `QuotientAbove` and `QuotientBelow` prove that these
tests agree with the quotient `deviation / sd` for every positive `sd` whose
square is the variance. The window length is a parameter `w ≥ 2` in the lemmas.
`Window = 30` and `Threshold = 2` are the instance the code uses.

Files:

- `wrappers.dfy`: the `Option` type.
- `stats.dfy` (module `Stats`): sum, mean, the sum of squared deviations and the
  sample variance of a finite sample, with their lemmas.
- `spread.dfy` (module `SpreadAnalysis`): the spread, rolling-window, Z-score and
  per-row signal functions, and `Analyze`, the whole table.
- `spread_properties.dfy` (module `SpreadProperties`): what the pipeline guarantees.
- `signal.dfy` (module `SignalAssignment`): the Signal column built in place on
  an array, as the code builds it, and `AnalyzeSpread`, the computational body.

A zero standard deviation makes the code divide by zero. With exact
arithmetic the division is always 0 / 0, which is not-a-number and gives
signal 0. It is never x / 0 with x ≠ 0, which would be ±infinity and would give
a signal (`ZeroVarianceMeansZeroDeviation`). The model therefore leaves the
Z-score undefined when the variance is 0.

`JumpAfterFlatWindow` works through one example: 29 equal spreads followed by a
jump of size h. The Z-score of the last row is 29/√30 ≈ 5.3, whatever the size
of h. So any rise gives a sell signal and any fall a buy signal.

The code does not join the two series on dates. A date where one ticker has no
price stays in the table with a missing price. The window and thresholds are
fixed, and every exception goes to one generic error display. A missing price makes the
spread of that row undefined, and through it every window that contains the row.

## Model

| member | source | states |
|---|---|---|
| SpreadAnalysis.SpreadColumn | z_score_spread_analysis_streamlit.py:18 | one spread per row, in row order; defined exactly when both close prices of the row are present, and then equal to close A − close B |
| SpreadAnalysis.TrailingWindow | z_score_spread_analysis_streamlit.py:19-20 | the window of row i exists exactly when i ≥ w − 1 and all w spreads i − w + 1 .. i are defined (minimum periods = window); it then holds those w spreads in order |
| SpreadAnalysis.RollingMean | z_score_spread_analysis_streamlit.py:19 | the Mean column has one cell per row (its value is stated by RollingStatsValue) |
| SpreadAnalysis.RollingVariance | z_score_spread_analysis_streamlit.py:20 | the squared Std column has one cell per row (its value is stated by RollingStatsValue) |
| SpreadAnalysis.ZScoreOf | z_score_spread_analysis_streamlit.py:21 | the Z-score of one row is defined exactly when spread, mean and variance are defined and the variance is not 0, and is then (spread − mean, variance); variance 0 gives undefined, which matches the code's 0 / 0 = not-a-number because ZeroVarianceMeansZeroDeviation shows the deviation is then 0 |
| SpreadAnalysis.ZScoreColumn | z_score_spread_analysis_streamlit.py:21 | the Z-Score column has one cell per row |
| SpreadAnalysis.Above | z_score_spread_analysis_streamlit.py:25 | the test `Z-Score > 2`: for a positive variance it holds exactly when the deviation is positive and deviation² / variance > 2² |
| SpreadAnalysis.Below | z_score_spread_analysis_streamlit.py:24 | the test `Z-Score < −2`: it holds exactly when the negated deviation passes `Above`, so the two tests never hold together |
| SpreadAnalysis.BuyMask | z_score_spread_analysis_streamlit.py:24 | the mask `Z-Score < −2` has one entry per row |
| SpreadAnalysis.SellMask | z_score_spread_analysis_streamlit.py:25 | the mask `Z-Score > 2` has one entry per row |
| SpreadAnalysis.SignalOf | z_score_spread_analysis_streamlit.py:23-25 | the signal is −1, 0 or +1; +1 exactly when the Z-score is defined and below −2; −1 exactly when it is defined and above 2; 0 exactly when it is undefined or in the closed band [−2, 2] |
| SpreadAnalysis.SignalColumn | z_score_spread_analysis_streamlit.py:23-25 | the Signal column has one entry per row |
| SpreadAnalysis.Analyze | z_score_spread_analysis_streamlit.py:18-25 | the spread, mean, std, Z-score and signal columns all have exactly one entry per input row |
| Stats.Mean | z_score_spread_analysis_streamlit.py:19 | the mean of a non-empty sample times its size is the sum of the sample |
| Stats.SumSqDev | z_score_spread_analysis_streamlit.py:20 | a sum of squared deviations is never negative |
| Stats.SampleVariance | z_score_spread_analysis_streamlit.py:20 | the sample variance (divisor n − 1) is never negative, so its square root, the Std, exists |
| Stats.SumSlide | z_score_spread_analysis_streamlit.py:19 | dropping the oldest value of a window and appending a new one changes the sum by their difference |
| Stats.MeanBounds | z_score_spread_analysis_streamlit.py:19 | a mean lies between any lower and upper bound of its sample |
| Stats.MeanShift | z_score_spread_analysis_streamlit.py:19 | adding c to every value adds c to the mean |
| Stats.VarianceShift | z_score_spread_analysis_streamlit.py:20 | adding c to every value leaves the sample variance unchanged |
| Stats.SumSqDevZeroIff | z_score_spread_analysis_streamlit.py:20 | the squared deviations from m sum to zero exactly when every value equals m |
| Stats.MeanOfConstant | z_score_spread_analysis_streamlit.py:19 | the mean of identical values is that value |
| Stats.VarianceZeroIff | z_score_spread_analysis_streamlit.py:20 | the sample variance is zero exactly when all values are equal |
| SpreadProperties.WarmUpRows | z_score_spread_analysis_streamlit.py:19-25 | on every row i < w − 1 the mean, std and Z-score are undefined and the signal is 0 |
| SpreadProperties.RollingDefinedIff | z_score_spread_analysis_streamlit.py:18-20 | mean and std of row i are defined exactly when i ≥ w − 1 and both prices of every row i − w + 1 .. i are present; std is defined exactly where the mean is |
| SpreadProperties.RollingStatsValue | z_score_spread_analysis_streamlit.py:19-20 | where row i has a mean, its w spreads i − w + 1 .. i are all defined, the mean is their sum divided by w, and the variance is defined and equals the sum of their squared deviations from the mean divided by w − 1 |
| SpreadProperties.RollingMeanSlide | z_score_spread_analysis_streamlit.py:19 | between two consecutive defined rows the mean moves by (newest spread − dropped spread) / w |
| SpreadProperties.MeanWithinWindow | z_score_spread_analysis_streamlit.py:19 | the mean of row i lies between any bounds of the spreads of its window |
| SpreadProperties.VarianceZeroIffFlat | z_score_spread_analysis_streamlit.py:20 | a defined rolling variance is non-negative, and zero exactly when all spreads of the window are equal |
| SpreadProperties.ZeroVarianceMeansZeroDeviation | z_score_spread_analysis_streamlit.py:20-21 | where std is 0 the spread equals the mean, so the division is 0 / 0 |
| SpreadProperties.ZScoreAt | z_score_spread_analysis_streamlit.py:19-21 | the Z-score of row i is defined exactly when its window is complete and not all equal; it is then (spread − mean, variance) with variance > 0 |
| SpreadProperties.ZScoreDefinedIff | z_score_spread_analysis_streamlit.py:18-21 | the same, for the Z-Score column of the analysed table |
| SpreadProperties.FlatWindowNoSignal | z_score_spread_analysis_streamlit.py:20-25 | a window of identical spreads has an undefined Z-score and signal 0 |
| SpreadProperties.QuotientAbove | z_score_spread_analysis_streamlit.py:21-25 | for sd > 0 with sd² = variance, the square-based test equals `deviation / sd > 2` |
| SpreadProperties.QuotientBelow | z_score_spread_analysis_streamlit.py:21-24 | for sd > 0 with sd² = variance, the square-based test equals `deviation / sd < −2` |
| SpreadProperties.JumpAfterFlatWindow | z_score_spread_analysis_streamlit.py:18-25 | after Window − 1 = 29 equal spreads, a jump h ≠ 0 gives deviation 29h/30 and variance 30(h/30)²; the signal is −1 for h > 0 and +1 for h < 0 |
| SpreadProperties.SpreadShiftInvariant | z_score_spread_analysis_streamlit.py:18 | adding the same constant to both close prices leaves the spread column unchanged |
| SpreadProperties.PriceShiftInvariant | z_score_spread_analysis_streamlit.py:18-25 | adding the same constant to both close prices leaves every column of the analysis unchanged |
| SpreadProperties.WindowShift | z_score_spread_analysis_streamlit.py:19-20 | shifting every spread by c shifts every window by c and keeps which windows exist |
| SpreadProperties.SpreadOffsetInvariant | z_score_spread_analysis_streamlit.py:19-25 | adding c to every spread adds c to the mean and leaves the std, the Z-score and the signal unchanged |
| SignalAssignment.Assigned | z_score_spread_analysis_streamlit.py:24-25 | `col[mask] = v` as a value: every cell under the mask becomes v and every other cell keeps its value |
| SignalAssignment.MasksDisjoint | z_score_spread_analysis_streamlit.py:24-25 | no row is in both the buy and the sell mask |
| SignalAssignment.OverwriteOrderIrrelevant | z_score_spread_analysis_streamlit.py:24-25 | two masked overwrites with disjoint masks give the same column in either order |
| SignalAssignment.MaskedSignalIsThreshold | z_score_spread_analysis_streamlit.py:23-25 | zeros, overwritten with +1 on the buy mask and −1 on the sell mask, in either order, equal the per-row threshold rule |
| SignalAssignment.Fill | z_score_spread_analysis_streamlit.py:23 | afterwards every cell of the column is the given value |
| SignalAssignment.AssignWhere | z_score_spread_analysis_streamlit.py:24-25 | afterwards the cells under the mask hold the value and every other cell keeps its old value |
| SignalAssignment.AssignSignals | z_score_spread_analysis_streamlit.py:23-25 | the column built in place by the three assignments is the per-row threshold rule |
| SignalAssignment.AnalyzeSpread | z_score_spread_analysis_streamlit.py:18-25 | the table computed with the in-place Signal column equals the analysis with window 30 |

## Left out

- Market data download (z_score_spread_analysis_streamlit.py:15): network I/O through a library. Its result is the input: a sequence of rows, each with two optional close prices, in date order.
- Plotting and page rendering (lines 9, 27-51), including the buy/sell marker selection at lines 44-45, which only re-reads the Signal column: presentation.
- Sidebar inputs and the Analyze button (lines 56-65): user interface.
- The blanket `except` that shows any error on the page (lines 53-54): presentation. The code defines no typed errors and validates no parameter, so the model has none.
- Floating point: rounding, infinities, not-a-number propagation and the square root. The model uses exact reals, `None` for not-a-number, and the variance in place of the standard deviation. For the same reason it does not capture a flat window whose float variance comes out as a tiny non-zero number.
- Dates and index alignment: rows are taken in order. The code joins nothing on dates, and neither does the model.
- Whether the chained assignments at lines 24-25 reach the table depends on the pandas version (copy-on-write). The model assumes they do, as the code intends.
- SpreadAnalysis.RollingMean: its own contract states only the length; its value (the sum of the w spreads of the window divided by w) is stated by RollingStatsValue, when it is defined by RollingDefinedIff, and its rolling update, bounds and shift behaviour by RollingMeanSlide, MeanWithinWindow and SpreadOffsetInvariant.
- SpreadAnalysis.RollingVariance: its own contract states only the length; its value (the squared deviations of the window from its mean, summed and divided by w − 1) is stated by RollingStatsValue, when it is defined by RollingDefinedIff, and its sign, zero case and shift behaviour by VarianceZeroIffFlat and SpreadOffsetInvariant.
- SpreadAnalysis.ZScoreColumn: its own contract states only the length; when a Z-score is defined and what it is are stated by ZScoreAt and ZScoreDefinedIff.
- SpreadAnalysis.BuyMask: its own contract states only the length; MaskedSignalIsThreshold ties it to the threshold rule.
- SpreadAnalysis.SellMask: its own contract states only the length; MaskedSignalIsThreshold ties it to the threshold rule.
- SpreadAnalysis.SignalColumn: its own contract states only the length; each entry is SignalOf of the row's Z-score.
