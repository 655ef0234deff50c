# Fitness dashboard insight engine, in Dafny

This project models the logic core of a Streamlit fitness dashboard
(`dashboard.py`). The dashboard shows a daily table of activity metrics:
steps, calories, workout minutes, sleep hours, water intake and heart rate.
It narrates the table with "insights". The model has two parts:

- **The insight generator** (`generate_dynamic_insights`). It takes a
  time-ordered table of numeric rows and a list of numeric columns, and
  returns a list of messages:
  - `NoData` for an empty table.
  - `NotEnough` when the table cannot be split into two halves of at least
    five rows each.
  - One `Trend(col, increased)` for each column whose change of mean between
    the first and the second half exceeds `0.1 * (first-half mean + 1e-6)`
    (see the threshold note below for negative baselines).
  - One `Unusual(col)` for each column where one of the last seven values lies
    more than two sample standard deviations from the whole period's mean.
  - `Consistent` when nothing else fired.
- **The active-dataset rule.** A session shows the default dataset until a
  user uploads a file. The upload replaces the default only when it has
  every required column.

Files:

- `stats.dfy` (module `Stats`): `Sum`, `Mean` and the sample `Variance`
  over exact reals, plus their lemmas.
- `insights.dfy` (module `Insights`): the rules as specification functions
  (`Trends`, `Anomalies`, `ExpectedInsights`). It also holds the imperative
  generator `GenerateDynamicInsights`, which is proved equal to
  `ExpectedInsights`, and the properties proved about `ExpectedInsights`.
- `data_source.dfy` (module `DataSource`): the required-column check
  `Validate` and the `Session` class, whose field `userData` is the optional
  override.

Modelling decisions:

- A column is identified by its position in a row. The numeric columns are an
  explicit list `cols`, replacing `select_dtypes`.
- The standard-deviation test `|v - mean| > 2 * std` is stated without a
  square root, as `(v - mean)^2 > 4 * variance`. `Stats.OutlierWithoutRoot`
  proves the two forms equivalent whenever `std` is the non-negative root of
  the variance.
- The trend threshold is modelled exactly as the code writes it:
  `|change| > 0.1 * (mean_first + 1e-6)`. There is no absolute value on the
  baseline, and `1e-6` is the exact real `0.000001`. So a first-half mean
  below `-1e-6` gives a negative threshold, and the rule fires whatever the
  change. Two lemmas show the effect:
  - `FlatNegativeColumnReportedDecreased`: with a negative baseline, a column
    whose mean does not move is still reported as decreased.
  - `NonNegativeBaselineMatchesAbs`: for a non-negative baseline, both forms
    agree.
- `df.empty` is modelled as "has no rows". The dashboard's table always
  carries its `Date` column, so the zero-column case cannot arise.
- Idempotence needs no separate proof: `GenerateDynamicInsights` is proved
  equal to a function of its inputs, so two calls on the same table return
  the same list.

## Model

| member | source | states |
|---|---|---|
| `Insights.ExpectedInsights` | dashboard.py:143-171 | definition of the engine's answer; properties in `GuardClauses`, `TrendMembership`, `UnusualMembership`, `ConsistentIff`, `LengthBounds`, `OutputOrder` and `AtMostOncePerColumn` |
| `Insights.ExceedsThreshold` | dashboard.py:156 | definition of the trend test as written, with no absolute value on the baseline; properties in `FlatNegativeColumnReportedDecreased`, `NonNegativeBaselineMatchesAbs` and `ThresholdExamples` |
| `Insights.GenerateDynamicInsights` | dashboard.py:143-171 | the generator's list is exactly `ExpectedInsights(t, cols)`: the guards, then the trend pass, then the anomaly pass, then the fallback |
| `Insights.DetectTrends` | dashboard.py:152-158 | the trend loop appends, in column order, exactly the trend insight of each column whose half-means differ by more than the threshold |
| `Insights.DetectAnomalies` | dashboard.py:160-166 | the anomaly loop appends, in column order, exactly one `Unusual(c)` for each column with a recent outlier |
| `Insights.ScanRecent` | dashboard.py:162-166 | the scan that stops at the first outlier reports true iff some recent value is an outlier with respect to the whole column's mean and variance |
| `Insights.Trends` | dashboard.py:153-158 | the trend pass yields at most one insight per column, and only trend insights |
| `Insights.Anomalies` | dashboard.py:160-166 | the anomaly pass yields at most one insight per column (the `break`), and only anomaly insights |
| `Insights.GuardClauses` | dashboard.py:145-150 | the answer is `[NoData]` iff the table is empty, and `[NotEnough]` iff it has 1 to 9 rows (`len // 2 < 5`) |
| `Insights.Halves` | dashboard.py:148-152 | the two halves concatenate to the table; the first has `len // 2` rows and the second has that many or one more |
| `Insights.RecentIsSuffix` | dashboard.py:160 | the recent window is the last `min(7, n)` rows in order, and exactly the last 7 once the guards pass |
| `Insights.TrendMembership` | dashboard.py:153-158 | `Trend(c, up)` is reported iff `c` is a numeric column whose half-means differ by more than `0.1 * (mean_first + 1e-6)`, with `up` iff the second mean is larger |
| `Insights.UnusualMembership` | dashboard.py:160-166 | `Unusual(c)` is reported iff `c` is a numeric column with a recent value more than two sample standard deviations from the whole-table mean |
| `Insights.ConsistentIff` | dashboard.py:168-169 | the "consistent" fallback is present iff no column fires either rule, and it then stands alone |
| `Insights.LengthBounds` | dashboard.py:153-171 | the answer is never empty, has at most `2 * #columns` entries (1 when there are no columns), and at most `#columns` trend insights |
| `Insights.OutputOrder` | dashboard.py:153-171 | all trend insights precede all anomaly insights; each group's columns form a subsequence of the column list |
| `Insights.AtMostOncePerColumn` | dashboard.py:153-166 | with distinct columns, no column gets two trend insights or two anomaly insights |
| `Insights.ZeroSpreadNoAnomaly` | dashboard.py:162-164 | a column with zero sample variance has no recent outlier |
| `Insights.ZeroSpreadNeverUnusual` | dashboard.py:162-166 | a column with zero sample variance (std = 0) is never reported as unusual |
| `Insights.ConstantColumnNeverUnusual` | dashboard.py:162-166 | a constant column is never reported as unusual |
| `Insights.FlatNegativeColumnReportedDecreased` | dashboard.py:156-157 | since the baseline is not made absolute, an unchanged column with a negative mean is reported as decreased |
| `Insights.NonNegativeBaselineMatchesAbs` | dashboard.py:156 | for a non-negative first-half mean, the threshold as written equals the one on the absolute baseline |
| `Insights.ThresholdExamples` | dashboard.py:156 | a mean rising from 5000 to 6000 is a trend; a rise from 5000 to 5200 is not |
| `Stats.Mean` | dashboard.py:154 | definition of the arithmetic mean, used for the half-means here and for the whole-column mean at line 162; properties in `Stats.ConstantStats` |
| `Stats.Outlier` | dashboard.py:164 | definition of the root-free two-sigma test; properties in `Stats.OutlierWithoutRoot` and `Stats.ZeroVarianceNoOutlier` |
| `Stats.Variance` | dashboard.py:162 | the sample variance (divisor n - 1) is never negative |
| `Stats.ConstantStats` | dashboard.py:162 | a constant column has that constant as its mean and zero variance |
| `Stats.ZeroVarianceNoOutlier` | dashboard.py:164 | with zero variance, no value of the column lies beyond two standard deviations |
| `Stats.OutlierWithoutRoot` | dashboard.py:164 | `abs(d) > 2 * std` is equivalent to `d * d > 4 * variance` when `std` is the non-negative root of `variance` |
| `DataSource.AllPresent` | dashboard.py:214 | the `all(...)` check holds iff every listed name is among the file's columns |
| `DataSource.Validate` | dashboard.py:208-215 | an upload is accepted iff every required column is present; a rejection lists all required columns |
| `DataSource.MissingHeartRateRejected` | dashboard.py:208-215 | a file without `HeartRate` is rejected |
| `DataSource.AcceptedHasMetrics` | dashboard.py:68 | an accepted file carries every metric column the dashboard can display |
| `DataSource.Session.Active` | dashboard.py:24-28 | definition of the active table: the stored upload if there is one, else the default; properties in the contracts of `Session.constructor` and `Session.Upload` |
| `DataSource.Session.constructor` | dashboard.py:24-28 | a fresh session has no override and shows the default dataset |
| `DataSource.Session.Upload` | dashboard.py:208-219 | an accepted file becomes the session's override and the active dataset; a rejected one leaves the override and the active dataset unchanged |

## Left out

- Page configuration, theme CSS, KPI cards, tabs and `st.markdown` output
  (dashboard.py:11-14, 33-60, 78-107, 174-175): these are UI rendering.
- The month filter (dashboard.py:62-66): the engine is called on the rows of
  the selected month (dashboard.py:173), with all their numeric columns. The
  model takes that row selection as its input table `t`.
- The metric multiselect (dashboard.py:68-73): `selected_metrics` feeds only
  the charts (dashboard.py:118, 128, 183, 192-196) and never reaches the
  engine. The engine analyses every int64/float64 column of the active table:
  the six metrics, plus any extra numeric column of an upload. In the model
  that is the column list `cols`.
- Streamlit's rerun timing: each run reads the stored upload at its top
  (dashboard.py:24-28), before the upload block stores a new one
  (dashboard.py:219). So the run that accepts a file still renders the
  previous table, and the new one shows from the next rerun. `Session.Upload`
  models the stored override only, not which run first shows it.
- The correlation heatmap, weekly resampling, density heatmap and rolling
  averages (dashboard.py:116-137, 179-200): these are thin wrappers over
  pandas, seaborn and plotly.
- CSV reading, the `try/except` around it, `pd.to_datetime` and the month
  key (dashboard.py:17-21, 211-212, 217-218, 224-225): these are file I/O and
  library date parsing. An uploaded file is modelled as its header and its
  numeric rows. It is stored unchanged, without the parsed `Date` and the
  derived `MonthPeriod` column.
- Missing values: pandas skips NaN in `mean` and `std`, and the model
  assumes every metric value is present.
- Floating point: all arithmetic is exact over `real`, so IEEE rounding of
  the means, the threshold and `1e-6` is not modelled.
- Message text and emoji: each message is a constructor of `Insight`.
- `select_dtypes`: dtype introspection is replaced by the explicit column
  list. The model assumes every listed column exists in every row.
- The single-function layout: the source runs both passes and the inner
  scan inside one function. The model splits them into `DetectTrends`,
  `DetectAnomalies` and `ScanRecent` so that each proof stays small. The
  behaviour is the same, and `GenerateDynamicInsights` composes them.
