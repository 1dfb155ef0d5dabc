# Pair-trading signals, modelled in Dafny

This project models `pair_trading_signals` in `main.py`, the signal generator of a
statistical-arbitrage pair trade, and proves properties of that model. The function
takes the closing prices of two instruments and works in four steps.

1. It rejects an empty download. Then it joins the two columns on the date index and
   drops every date where either price is missing.
2. It hedges the second instrument with the first: `spread = second - beta * first`.
3. It standardises the spread with a trailing rolling mean and a trailing rolling
   standard deviation over `window` points.
4. It maps each z-score to a position. The position is -1 (short the spread) above
   `entry_threshold`, +1 (long the spread) below `-entry_threshold`, and 0 otherwise.

Modules, one per stage:

- `Common` (common.dfy): optional cells (`None` is NaN), the errors, sums and means.
- `Alignment` (alignment.dfy): the empty check, the outer join of the two columns on
  their dates, and the dropping of incomplete rows.
- `Rolling` (rolling.dfy): the spread, the rolling mean, the rolling deviation and the
  z-score column.
- `Position` (position.dfy): the two threshold masks, the pointwise position rule, the
  forward fill, and the imperative `Positions` method. The method builds the position
  array in place, as the code does.
- `Signals` (signals.dfy): the whole function as a method. It returns the date index, the
  z-score column and the position column, or an error.

Prices are Dafny `real`s. A missing price is `None`. Dates are integers, and the columns
arrive sorted by date without duplicates, as the data provider delivers them. The
regression slope (`olsSlope`) is a function parameter. So is the sample standard
deviation of one window (`std`). Where a lemma needs `std` to behave like a standard
deviation, it requires `Rolling.StdLaws`: `std` is never negative, and it is zero exactly
when the window is constant.

The model follows the code where it departs from how a pair-trading strategy usually works:

- A pair-trading strategy usually holds a position from entry until the z-score returns to
  an exit level, and uses `exit_threshold` for that flat zone. The code does neither.
  Every row's position depends only on that row's z-score, and `exit_threshold` is never
  read. The forward fill on main.py:34 acts on a column with no gaps, so it changes
  nothing (`Position.FillGaplessColumn`).
- The code checks only that each download is non-empty (main.py:13-14). When the two
  columns share no date with both prices, the aligned panel is empty, and the
  least-squares fit on main.py:21 raises a `ValueError`. The model returns `EmptyPanel`
  there (`Signals.DisjointDatesGiveEmptyPanel` shows such an input).
- A strategy usually comes with a backtest (PnL, Sharpe ratio). The code has none.

The defaults of main.py:7-8 (`window=30`, `entry_threshold=2`, `exit_threshold=0`) are
the defaults of the last three parameters of `Signals.PairTradingSignals`.

## Model

| member | source | states |
|---|---|---|
| `Alignment.Align` | main.py:13-18 | fails with `DataError` exactly when either download is empty; otherwise succeeds |
| `Alignment.OuterJoin` | main.py:16 | the outer join has at least as many rows as either column and at most as many as both together; its dates and cells are characterised by `OuterJoinDates` and `OuterJoinRows` |
| `Alignment.OuterJoinDates` | main.py:16 | the joined frame has one row for every date of either column, and no other dates |
| `Alignment.OuterJoinRows` | main.py:16 | for date-sorted columns, the joined rows are sorted by date, and each row holds exactly the cell that each column has for that date (`None` if the date is absent) |
| `Alignment.DropNa` | main.py:18 | dropping never adds rows; which rows it keeps, and in what order, is characterised by `DropNaSingle`, `DropNaAppend`, `DropNaDates`, `DropNaOrigin` and `DropNaSorted` |
| `Alignment.DropNaSingle` | main.py:18 | a single row is kept, as a bar with both prices, exactly when both of its cells are defined |
| `Alignment.DropNaAppend` | main.py:18 | dropping works row by row and keeps the order: dropping on `a + b` equals dropping on `a` followed by dropping on `b` |
| `Alignment.DropNaDates` | main.py:18 | a date survives exactly when some row with that date has both cells defined |
| `Alignment.DropNaOrigin` | main.py:18 | every kept bar is the bar of a complete input row, with the same date and both prices |
| `Alignment.DropNaSorted` | main.py:18 | rows sorted by date give bars sorted by date |
| `Alignment.AlignedPanel` | main.py:13-18 | for non-empty, date-sorted downloads: the panel is sorted by date; every bar carries both columns' defined prices for its date; a date is in the panel exactly when both columns have a defined price for it |
| `Alignment.EmptyPanelIffNoCommonDate` | main.py:16-18 | for non-empty, date-sorted downloads, the aligned panel is empty exactly when no date has a defined price in both columns |
| `Signals.HedgeRatio` | main.py:20-22 | no contract of its own: `beta` is the parameter `olsSlope` applied to the panel's two price columns, first column as the regressor; `ExactHedgeStaysFlat` uses it |
| `Rolling.Spread` | main.py:23 | one spread value per aligned date, equal to the second price less `beta` times the first |
| `Rolling.ExactHedgeSpread` | main.py:23 | if the second price is exactly `beta` times the first plus `c`, the spread is `c` on every date |
| `Rolling.RollingMean` | main.py:25 | one entry per spread value, defined exactly at the indices `t` with `1 <= window <= t + 1`; its value is characterised by `RollingMeanAt` and `RollingMeanSlides` |
| `Rolling.RollingStd` | main.py:26 | one entry per spread value, defined exactly at the indices `t` with `2 <= window <= t + 1`, since the sample deviation needs two points |
| `Rolling.StandardScore` | main.py:27 | a z-score exists exactly when the mean and the deviation are defined and the deviation is non-zero, and then the mean plus z times the deviation gives back the spread value |
| `Rolling.ZScores` | main.py:25-27 | one z-score per spread value; where they are defined and what they are is characterised by `ZScoreUndefinedEarly` and `ZScoreDefined` |
| `Rolling.RollingMeanAt` | main.py:25 | the rolling mean is undefined exactly for the first `window - 1` indices; after that it is the sum of the last `window` spread values divided by `window` |
| `Rolling.WindowSumSlides` | main.py:25 | the window sum one step later is the previous window sum plus the new value less the value that left the window |
| `Rolling.RollingMeanSlides` | main.py:25 | moving the window one step adds the new value and drops the oldest: `mean[t+1] = mean[t] + (x[t+1] - x[t+1-w]) / w` |
| `Rolling.RollingMeanExample` | main.py:25 | with a window of 3 on `[1,2,3,4,5]`, the mean is 2 at index 2 and 3 at index 3 |
| `Rolling.ZScoreUndefinedEarly` | main.py:25-27 | the z-score is undefined for the first `window - 1` indices, and everywhere when the window is below two, since the sample deviation needs two points |
| `Rolling.ZScoreDefined` | main.py:25-27 | the z-score is defined exactly when the window is complete, has at least two points and has a non-zero deviation; it then equals (spread − rolling mean) / rolling deviation |
| `Rolling.ZeroStdMeansZeroDeviation` | main.py:26-27 | under `StdLaws`, a zero rolling deviation forces the spread to equal its rolling mean, so the division is 0/0 (NaN, an undefined z-score) and never infinite |
| `Rolling.ConstantSpreadNoZScoreAt` | main.py:25-27 | under `StdLaws`, a constant spread has no defined z-score at a given index |
| `Rolling.ConstantSpreadHasNoZScore` | main.py:25-27 | under `StdLaws`, a constant spread has no defined z-score anywhere |
| `Position.ShortSignal` | main.py:32 | predicate, no contract of its own: a defined z-score above the threshold; an undefined one compares false; characterised by `PositionRule` |
| `Position.LongSignal` | main.py:33 | predicate, no contract of its own: a defined z-score below minus the threshold; characterised by `PositionRule` |
| `Position.PositionAt` | main.py:31-33 | every position is -1, 0 or +1 |
| `Position.PositionRule` | main.py:31-33 | with a non-negative threshold: -1 exactly when the z-score exceeds the threshold, +1 exactly when it is below its negation, 0 otherwise (including undefined z-scores) |
| `Position.SignalsDisjoint` | main.py:32-33 | with a non-negative threshold, the two masks never both hold |
| `Position.OverlapGoesLong` | main.py:32-33 | with a negative threshold, a z-score strictly between the two bounds passes both masks, and the later +1 wins |
| `Position.NegativeThresholdAlwaysTrades` | main.py:31-33 | with a negative threshold, an undefined z-score gives 0 and every defined one trades: +1 below minus the threshold, -1 otherwise |
| `Position.PositionAntisymmetric` | main.py:31-33 | with a non-negative threshold, negating a z-score negates its position |
| `Position.FFill` | main.py:34 | forward fill keeps every defined cell, gives each gap the value before it, and leaves a leading gap empty |
| `Position.FillNa` | main.py:34 | the `fillna(0)` step: every defined cell keeps its value and every gap becomes the fill value |
| `Position.FillGaplessColumn` | main.py:34 | on a column with no gaps, forward fill followed by filling with 0 returns the column unchanged |
| `Position.Positions` | main.py:29-34 | the array has one entry per z-score, and entry `t` is the pointwise rule applied to `z[t]` alone |
| `Signals.PairTradingSignals` | main.py:7-34 | fails with `DataError` exactly when a download is empty; otherwise fails with `EmptyPanel` (the fit's error) exactly when the aligned panel is empty, which for date-sorted downloads means that no date has both prices (`Alignment.EmptyPanelIffNoCommonDate`); otherwise fails with `InvalidWindow` exactly when the window is negative; otherwise returns the aligned dates, the z-score column of the hedged spread, and one position per date given by the pointwise rule; `window`, `entryThreshold` and `exitThreshold` default to 30, 2 and 0 |
| `Signals.DisjointDatesGiveEmptyPanel` | main.py:13-21 | two non-empty downloads with no common date pass the empty check but align to an empty panel |
| `Signals.EarlyPositionsFlat` | main.py:25-34 | the position is 0 while the rolling window is still filling |
| `Signals.ShortWindowNeverTrades` | main.py:26-34 | with a window below two, every position is 0 |
| `Signals.ExactHedgeStaysFlat` | main.py:20-34 | under `StdLaws`, if the second price is exactly the fitted `beta` times the first plus a constant, no z-score is defined and every position is 0 |

## Left out

- Market-data download (main.py:10-11): network I/O. The two closing-price columns are inputs.
- Restricting the downloads to the `start`/`end` range: the market-data call does this, and it is not part of this model.
- Least-squares fit (main.py:20-22): a call into statsmodels. The slope is the function parameter `olsSlope`, applied to the panel's two columns.
- Rolling standard deviation (main.py:26): it needs a square root and floating point. The deviation of one window is the function parameter `std`. Lemmas that need it to behave like a deviation require `StdLaws`.
- Floating point: all arithmetic is exact over `real`. Rounding is not modelled, and neither is a near-zero deviation that floating point may compute for a constant window.
- Division by a zero deviation (main.py:27): the z-score is undefined there. Under `StdLaws` this happens only when the numerator is zero too (`Rolling.ZeroStdMeansZeroDeviation`), so pandas also produces NaN there.
- Non-integer windows and the pandas rolling options other than `window`: not modelled. A negative window is the `InvalidWindow` error.
- Plotting (main.py:36-44): display only.
- The module-level call with fixed tickers (main.py:48): invocation plumbing.
- Date sorting by pandas for unsorted or duplicated date indexes: the join is modelled as a merge of two date-sorted columns. The lemmas assume sorted dates without duplicates.
- Position holding, the exit threshold, backtest, PnL and Sharpe ratio: the code implements none of them.
- Position.Positions: its contract does not say that the returned array is freshly allocated. The pipeline copies the array into a sequence right away.
