# Sleep-quality analysis and visualizer: a verified model of the chart arithmetic

The repository turns one night of wearable data into charts and trains a small
1-D CNN that scores the night. Most of it is plotting. This project models the
part that decides *what* gets drawn: the exact arithmetic and sequence logic.

- **Session time axis** (`sleep_quality_analysis.py`). The heart-rate, HRV,
  SpO2 and wrist-temperature charts place sample `i` of `n` at
  `start + (end - start) * i/(n-1)`. That expression is Python datetime
  arithmetic. Timestamps are modelled as integer microseconds.
  `timedelta * int / int` divides the microsecond count and rounds to the
  nearest integer, with halves going to the even neighbour
  (`TimeDelta.DivNearest`).
- **Sleep-stage pie** (`sleep_quality_analysis.py`). A loop collects one label
  and one wedge size per stage, in the order deep, rem, light, awake. A missing
  stage counts as 0 minutes. Each percentage is taken of the sum of *all*
  values in the mapping.
- **Channel importance** (`sleep_quality_analysis.py`). This works on the
  first convolution's weight tensor `w[k][c][o]`. Per input channel it sums
  `|w|` over the kernel and filter axes, divides by the sum over all channels,
  and keys the four results by channel name.
- **Visualizer** (`sleepqualityvisualization.py`):
  - the windowed score trend and its annotated latest point;
  - the strict-key sleep-structure pie;
  - the heart-rate time axis and its smoothing window;
  - the fixed-step HRV axis.

Python's exceptions become `Err` values of one `Result` type. These are
ZeroDivisionError, KeyError, IndexError and fitting a line to an empty frame.
numpy's silent 0/0 becomes `Err(NotANumber)`. Dicts are insertion-ordered
association lists. Real-valued quantities use Dafny's exact `real`.

Modules:
- `SleepData` (sleep_data.dfy): errors, dicts, sums, the session record.
- `TimeDelta` (time_delta.dfy): rounded and truncated integer division.
- `TimeAxis` (time_axis.dfy): the aligned channel axis.
- `StagePie` (stage_pie.dfy): the analysis pie loop.
- `ChannelImportance` (channel_importance.dfy).
- `Visualizer` (visualizer.dfy).

Where the code and its intended behaviour part ways, the model follows the code:
- With no samples the comprehension never divides and yields an empty axis.
  With exactly one sample it divides by zero. So the precondition that really
  holds is `n != 1`, not `n >= 2`.
- Because timedelta division rounds to whole microseconds, the aligned axis is
  uniformly spaced only to within one microsecond. It is strictly increasing
  only when the session spans at least one microsecond per step. The exact
  uniform spacing is proved for a real-valued reference axis
  (`TimeAxis.IdealAxis`), and every aligned timestamp is proved to lie within
  half a microsecond of it.
- The trend window `df.iloc[-days:]` keeps everything when `days == 0`. For a
  negative `days` it drops the first `-days` points, and it fails when nothing
  is left to fit.

## Model

| member | source | states |
|---|---|---|
| TimeDelta.DivNearest | sleep_quality_analysis.py:42 | the rounded quotient leaves a remainder of at most half the divisor either way, and an exact half goes to the even quotient |
| TimeDelta.DivNearestExact | sleep_quality_analysis.py:42 | an exact multiple of the divisor is divided without rounding |
| TimeDelta.DivNearestMonotone | sleep_quality_analysis.py:42 | rounding never reverses the order of two dividends |
| TimeDelta.DivNearestApart | sleep_quality_analysis.py:42 | dividends more than one divisor apart round to distinct quotients |
| TimeDelta.DivNearestNear | sleep_quality_analysis.py:42 | the rounded quotient is within 1/2 of the exact real quotient |
| TimeDelta.TruncDiv | sleepqualityvisualization.py:195 | `int()` of a quotient truncates toward zero: bounds for non-negative and for negative dividends |
| TimeAxis.IdealAxis | sleep_quality_analysis.py:42 | the exact real-valued axis `start + (end - start) * i/(n-1)` for n >= 2 points, with one point per sample |
| TimeAxis.AlignedAxis | sleep_quality_analysis.py:42 | fails exactly when n == 1, with ZeroDivision; otherwise has n timestamps (none for n == 0) |
| TimeAxis.AlignedAxisEndpoints | sleep_quality_analysis.py:42 | for n >= 2 the first timestamp is exactly `start` and the last exactly `end` |
| TimeAxis.AlignedAxisNonDecreasing | sleep_quality_analysis.py:42 | for `start <= end` timestamps never go back |
| TimeAxis.AlignedAxisStrictlyIncreasing | sleep_quality_analysis.py:42 | strictly increasing once the span is at least n - 1 microseconds |
| TimeAxis.SubMicrosecondStepsRepeat | sleep_quality_analysis.py:42 | a shorter span repeats timestamps: 4 samples over 1 microsecond give 0, 0, 1, 1 |
| TimeAxis.AlignedAxisNearIdeal | sleep_quality_analysis.py:42 | every timestamp is within 1/2 microsecond of the exact real axis |
| TimeAxis.IdealAxisEndpoints | sleep_quality_analysis.py:42 | the exact axis runs from `start` to `end` |
| TimeAxis.IdealAxisUniform | sleep_quality_analysis.py:42 | the exact axis has every gap equal to `(end - start)/(n - 1)` |
| TimeAxis.AlignedAxisGaps | sleep_quality_analysis.py:42 | every gap of the aligned axis is within 1 microsecond of `(end - start)/(n - 1)` |
| TimeAxis.ChannelSeries | sleep_quality_analysis.py:42-106 | each channel chart pairs its own samples with timestamps that are exactly the aligned axis of that channel's length; fails exactly for one sample |
| TimeAxis.ChannelsShareRange | sleep_quality_analysis.py:42-106 | any two channels with at least two samples start at the session start and end at the session end |
| StagePie.PieShare | sleep_quality_analysis.py:126-129 | one wedge: the stage's duration when the key is present, otherwise 0 minutes and 0 percent; the percentage times the total is 100 times the minutes |
| StagePie.PieBreakdown | sleep_quality_analysis.py:123-130 | the four wedges of the pie; ZeroDivision exactly when the sum of all values in the dict is 0; otherwise four labels and four sizes |
| StagePie.StageBreakdown | sleep_quality_analysis.py:123-130 | the label/size loop produces exactly the breakdown `PieBreakdown` describes, or ZeroDivision |
| StagePie.PieBreakdownShape | sleep_quality_analysis.py:126-130 | defined iff the total is non-zero; four wedges in stage order; size = stage duration or 0 when missing; percent * total = size * 100 |
| StagePie.TotalOfStageKeys | sleep_quality_analysis.py:126 | for a dict of stage keys only, the total is the sum of the four stage durations |
| StagePie.PiePercentagesSum | sleep_quality_analysis.py:126-129 | the four percentages times the total equal 100 times the stages' minutes |
| StagePie.PiePercentagesHundred | sleep_quality_analysis.py:126-129 | with only stage keys in the dict, the four percentages sum to exactly 100 |
| StagePie.ScenarioBreakdown | sleep_quality_analysis.py:123-130 | the 90/80/200/10 night gives wedges 90, 80, 200, 10 and percentages 450/19, 400/19, 1000/19, 50/19 |
| StagePie.ScenarioAllZero | sleep_quality_analysis.py:126-129 | all-zero durations fail with ZeroDivision |
| ChannelImportance.AbsSums | sleep_quality_analysis.py:155 | one absolute-weight sum per input channel, each non-negative |
| ChannelImportance.Norms | sleep_quality_analysis.py:155-156 | for a non-zero total, each channel's sum divided by the total: one value per channel, each non-negative |
| ChannelImportance.Importance | sleep_quality_analysis.py:152-158 | fails exactly when there are fewer than 4 channels (IndexError, checked first) or every weight is zero (NaN); otherwise four entries keyed heart_rate, hrv, spo2, wrist_temp in that order |
| ChannelImportance.AbsSumsZero | sleep_quality_analysis.py:155 | per-channel absolute sums are non-negative; their total is zero iff every weight is zero |
| ChannelImportance.SharesSumToOne | sleep_quality_analysis.py:156 | non-negative terms with a non-zero sum have non-negative shares that sum to exactly 1 |
| ChannelImportance.SharesScaleInvariant | sleep_quality_analysis.py:156 | scaling every term by a non-zero factor leaves every share unchanged |
| ChannelImportance.NormsSumToOne | sleep_quality_analysis.py:155-156 | the normalised channel values are non-negative and sum to 1 |
| ChannelImportance.ImportanceOutcome | sleep_quality_analysis.py:155-158 | a result exists iff there are at least 4 channels and some weight is non-zero; fewer channels give IndexError, an all-zero kernel NaN |
| ChannelImportance.ImportanceEntries | sleep_quality_analysis.py:155-158 | four entries keyed heart_rate, hrv, spo2, wrist_temp in order, each non-negative and equal to its channel sum over the total of all channels |
| ChannelImportance.ImportanceSumsToOne | sleep_quality_analysis.py:155-158 | with four channels the four importances sum to 1 |
| ChannelImportance.AbsSumsScaled | sleep_quality_analysis.py:155 | scaling the weights by `a` scales every channel's absolute sum by `abs(a)` |
| ChannelImportance.ImportanceScaleInvariant | sleep_quality_analysis.py:155-158 | multiplying every weight by a non-zero constant leaves the result unchanged, errors included |
| ChannelImportance.EqualChannelsEqualImportance | sleep_quality_analysis.py:155-158 | four channels with equal non-zero absolute sums each get importance 1/4 |
| Visualizer.InsertByDate | sleepqualityvisualization.py:105 | inserting into a date-sorted list keeps it sorted and adds exactly the one point |
| Visualizer.SortByDate | sleepqualityvisualization.py:105 | the result is in date order and is a permutation of the input |
| Visualizer.SortSortedIdentity | sleepqualityvisualization.py:105 | sorting a date-ordered list changes nothing, so sorting is idempotent |
| Visualizer.SliceStart | sleepqualityvisualization.py:107 | how many elements `s[start:]` keeps: `len - start` (0 when start is past the end) for a non-negative start, `min(-start, len)` for a negative one |
| Visualizer.WindowStart | sleepqualityvisualization.py:106-107 | where the trend window begins: it keeps the last `min(days, len)` points for a positive `days`, everything for `days == 0`, and drops the first `min(-days, len)` points for a negative `days` |
| Visualizer.SleepQualityTrend | sleepqualityvisualization.py:98-120 | no chart exactly for an empty history; the only failure modelled is an empty series to fit; a chart has a non-empty window no longer than the history, annotated with its last point and that point's truncated score |
| Visualizer.TruncReal | sleepqualityvisualization.py:120 | `int(x)` on a real truncates toward zero |
| Visualizer.TrendEmptyHistory | sleepqualityvisualization.py:98-99 | an empty history draws nothing, whatever `days` is |
| Visualizer.TrendWindowLastDays | sleepqualityvisualization.py:105-107 | for `days >= 1` the window is the last `min(days, len)` points of the sorted history |
| Visualizer.TrendWindowZeroDays | sleepqualityvisualization.py:106-107 | `days == 0` keeps the whole sorted history, annotated with its last point |
| Visualizer.TrendWindowNegativeDays | sleepqualityvisualization.py:106-112 | a negative `days` drops the first `-days` points and fails with an empty series iff that leaves none |
| Visualizer.TrendChartWindow | sleepqualityvisualization.py:105-120 | a drawn chart is a non-empty suffix of the sorted history; the annotated point is its last point, labelled with the truncated score |
| Visualizer.TrendChartProperties | sleepqualityvisualization.py:105-120 | the window is date-ordered and drawn from the history; the annotated point is in the history with the latest date; for a non-negative score, its label is within 1 below the score |
| Visualizer.TrendWindowMostRecent | sleepqualityvisualization.py:105-107 | no point left out of the window is later than a point in it |
| Visualizer.TrendOfShortSortedHistory | sleepqualityvisualization.py:105-118 | a date-ordered history no longer than `days` is shown whole, annotated with its last point |
| Visualizer.StructureChart | sleepqualityvisualization.py:139-149 | drawn only when all four stages are present and the total is non-zero, with four labels and four sizes; any failure is ZeroDivision or a KeyError naming a stage that really is missing |
| Visualizer.StructureChartOutcome | sleepqualityvisualization.py:140-149 | drawn iff all four keys are present and the total is non-zero; missing deep fails first; ZeroDivision iff deep is present and the total is 0; a reported missing key really is a missing stage; wedges in order with the stages' durations |
| Visualizer.StructureAgreesWithPie | sleepqualityvisualization.py:140-149 | with all four stages present, the structure chart equals the analysis pie |
| Visualizer.MissingStageDiverges | sleepqualityvisualization.py:140-149 | with a stage missing and a non-zero total, the analysis pie draws and the structure chart fails with a KeyError |
| Visualizer.ScenarioStructure | sleepqualityvisualization.py:140-149 | the 90/80/200/10 night gives the same wedges and percentages as the analysis pie |
| Visualizer.HeartRateAxisPoint | sleepqualityvisualization.py:167-168 | point i is `start + (end - start) * i / n`: the hours conversion cancels out |
| Visualizer.HeartRateAxis | sleepqualityvisualization.py:167-168 | one timestamp per heart-rate sample, the first at `start` |
| Visualizer.HeartRateAxisIdealPrefix | sleepqualityvisualization.py:167-168 | the heart-rate axis is the first n points of the exact n+1-point axis from `start` to `end` |
| Visualizer.HeartRateAxisShape | sleepqualityvisualization.py:167-168 | the axis is the exact n+1-point axis without its end; it starts at `start`; its last point is `end - (end - start)/n`, before `end` for a positive span; strictly increasing for a positive span |
| Visualizer.SmoothingWindow | sleepqualityvisualization.py:171 | the window is at least 5 and at least n // 20; it is 5 below 120 samples and n // 20 from 120 on |
| Visualizer.DrawsSmoothedExactly | sleepqualityvisualization.py:171-172 | the rolling mean is drawn iff there are more than 5 samples |
| Visualizer.HrvStep | sleepqualityvisualization.py:195 | 1 second when there are no samples; for a non-negative span a non-negative step, and 0 when the span is shorter than one second per sample |
| Visualizer.HrvStepBounds | sleepqualityvisualization.py:194-195 | for a non-negative span the step is the largest whole number of seconds of which n fit into the span |
| Visualizer.HrvAxis | sleepqualityvisualization.py:195-196 | one timestamp per HRV sample, the first at `start` |
| Visualizer.HrvAxisUniform | sleepqualityvisualization.py:194-196 | the HRV axis starts at `start` and advances by the same whole number of seconds per sample |
| Visualizer.HrvAxisWithinSession | sleepqualityvisualization.py:194-196 | for a non-negative span the last HRV timestamp is at or before `end` |
| Visualizer.UniformRise | sleepqualityvisualization.py:196 | timestamps that advance by the same positive amount at every step are strictly increasing |
| Visualizer.HrvAxisStrictlyIncreasing | sleepqualityvisualization.py:194-196 | at least one second per sample makes the HRV axis strictly increasing |
| Visualizer.HrvNoSamples | sleepqualityvisualization.py:195-196 | no samples: the step defaults to 1 second and the axis is empty |
| Visualizer.ScenarioEightHours | sleepqualityvisualization.py:171-195 | eight hours at 960 samples give a 30-second HRV step and a 48-sample smoothing window |

## Left out

- Drawing of every kind is left out: matplotlib calls, ticks, formatters, axis limits, colours, themes and `plt.style.use`. They are presentation through a library outside the model.
- PNG rendering and base64 encoding are left out. They are I/O and a foreign codec.
- `build_sleep_cnn`, training and inference are left out. They are Keras internals.
- The `cnn_model.layers[1].get_weights()[0]` lookup is left out. The importance is modelled as a function of the weight tensor itself.
- The `np.polyfit` trend line and the pandas centred rolling mean are left out. They are floating-point library numerics. Only the guards that decide whether they are drawn are modelled, plus the failure of a fit to an empty series.
- ISO-8601 parsing is left out. Timestamps are given as integer microseconds since an epoch.
- `pd.date_range` internals are left out. The HRV axis is `start + i * step` seconds.
- Visualizer.HrvAxis: a zero or negative step is computed like any other, not rejected. A step of 0 seconds (a span under one second per sample) gives n copies of `start`, where `pd.date_range` with a `"0S"` frequency very likely raises. A negative step gives a descending axis.
- The `.1f` and `.0f` label formatting and the `stage.title()` display names are left out. A label is modelled as its stage key, minutes and exact percentage.
- The SpO2 and temperature charts of the visualizer are left out. They plot against the bare sample index and hold no logic.
- The demo drivers and their generated data are left out. Only their fixture values appear, as the scenario lemmas.
- Visualizer.HeartRateAxis: computed in exact reals. It does not model float rounding, or the microsecond rounding of `timedelta(hours=...)`.
- Visualizer.HrvStep: the exact quotient is truncated. It does not model the float rounding of `total_seconds() / n`.
- ChannelImportance.Importance: computed in exact reals, not float32. Channels beyond the fourth count toward the total but are not keyed, as in the code.
- ChannelImportance.ImportanceScaleInvariant: covers only a uniform rescaling of the whole tensor, not per-channel rescaling.
- Visualizer.SortByDate: a stable insertion sort stands in for pandas' default quicksort, which is not stable. The contracts claim only date order and a permutation, which hold for both. The order of points with equal dates is not modelled.
- Visualizer.SleepQualityTrend: a window holding a single point is drawn as a chart. `np.polyfit` on one point at `x = 0` very likely raises there, because its column scaling divides 0 by 0. That library failure is not modelled, so the four lemmas below also promise a chart in that case.
- Visualizer.TrendWindowLastDays: ensures a chart for `days >= 1` even when the window keeps a single point, which the one-point fit failure above would reject.
- Visualizer.TrendWindowZeroDays: ensures a chart for a one-point history under `days == 0`, which the one-point fit failure above would reject.
- Visualizer.TrendWindowNegativeDays: its failure condition is "no point left"; a window of one point counts as a chart, not as the one-point fit failure.
- Visualizer.TrendOfShortSortedHistory: ensures a chart for a one-point sorted history, which the one-point fit failure above would reject.
- Datetime overflow past year 9999 is not modelled. Timestamps are unbounded integers.
- A missing `sleep_stages` key or a missing channel in the input record (a KeyError before any modelled code runs) is not modelled. The record is a datatype with every field present.
- Negative stage durations are allowed by the model, as by the code. Matplotlib would reject them when drawing, and that is not modelled.
