/** The index and time arithmetic of sleepqualityvisualization.py that decides
    what the visualizer draws: the windowed score trend and its annotated
    latest point, the strict-key sleep-structure pie, the heart-rate time axis
    and smoothing window, and the fixed-step HRV axis. */
module Visualizer {
  import opened SleepData
  import opened TimeDelta
  import StagePie
  import TimeAxis

  // ---------------------------------------------------------------------
  // Sleep-quality trend

  /** One assessment: its parsed date (microseconds since an epoch) and its score. */
  datatype TrendPoint = TrendPoint(date: int, score: real)

  predicate SortedByDate(s: seq<TrendPoint>)
  {
    forall i, j :: 0 <= i <= j < |s| ==> s[i].date <= s[j].date
  }

  /** Places `x` before the first point of a date-sorted list that is not earlier than it. */
  function InsertByDate(x: TrendPoint, s: seq<TrendPoint>): (r: seq<TrendPoint>)
    requires SortedByDate(s)
    ensures SortedByDate(r)
    ensures multiset(r) == multiset(s) + multiset{x}
    ensures |r| == |s| + 1
  {
    if |s| == 0 then [x]
    else if x.date <= s[0].date then
      PrependSorted(x, s);
      [x] + s
    else
      var rest := InsertByDate(x, s[1..]);
      LowerBound(x, s, rest);
      PrependSorted(s[0], rest);
      HeadAndRest(s, x, rest);
      [s[0]] + rest
  }

  /** A point no later than every point of a sorted list can go in front of it. */
  lemma PrependSorted(y: TrendPoint, s: seq<TrendPoint>)
    requires SortedByDate(s)
    requires forall k :: 0 <= k < |s| ==> y.date <= s[k].date
    ensures SortedByDate([y] + s)
  {
    var t := [y] + s;
    forall i, j | 0 <= i <= j < |t| ensures t[i].date <= t[j].date {
      if i > 0 {
        assert t[i] == s[i - 1] && t[j] == s[j - 1];
      } else if j > 0 {
        assert t[j] == s[j - 1];
      }
    }
  }

  /** Every point of `rest`, which holds the tail of a sorted list plus one
      point no earlier than its head, is no earlier than that head. */
  lemma LowerBound(x: TrendPoint, s: seq<TrendPoint>, rest: seq<TrendPoint>)
    requires SortedByDate(s) && |s| > 0 && s[0].date <= x.date
    requires multiset(rest) == multiset(s[1..]) + multiset{x}
    ensures forall k :: 0 <= k < |rest| ==> s[0].date <= rest[k].date
  {
    var tail := s[1..];
    forall k | 0 <= k < |rest| ensures s[0].date <= rest[k].date {
      assert rest[k] in multiset(rest);
      if rest[k] != x {
        assert rest[k] in multiset(tail);
        assert rest[k] in tail;
        var m :| 0 <= m < |tail| && tail[m] == rest[k];
        assert tail[m] == s[m + 1];
      }
    }
  }

  lemma HeadAndRest(s: seq<TrendPoint>, x: TrendPoint, rest: seq<TrendPoint>)
    requires |s| > 0 && multiset(rest) == multiset(s[1..]) + multiset{x}
    ensures multiset([s[0]] + rest) == multiset(s) + multiset{x}
  {
    assert s == [s[0]] + s[1..];
  }

  /** `df.sort_values('date')`: the points in non-decreasing date order. */
  function SortByDate(s: seq<TrendPoint>): (r: seq<TrendPoint>)
    ensures SortedByDate(r)
    ensures multiset(r) == multiset(s)
    ensures |r| == |s|
  {
    if |s| == 0 then []
    else
      assert s == [s[0]] + s[1..];
      InsertByDate(s[0], SortByDate(s[1..]))
  }

  /** Where Python's `s[start:]` begins in a sequence of length `len`:
      a negative start counts from the end, both clamped to the sequence. */
  function SliceStart(len: nat, start: int): (k: nat)
    ensures k <= len
    ensures start >= 0 ==> len - k == if start <= len then len - start else 0
    ensures start < 0 ==> len - k == if -start <= len then -start else len
  {
    if start >= 0 then (if start <= len then start else len)
    else if -start <= len then len + start else 0
  }

  /** Where the displayed window starts in the sorted list: `df.iloc[-days:]`
      only when the history is longer than `days`, the whole list otherwise. */
  function WindowStart(len: nat, days: int): (k: nat)
    ensures k <= len
    ensures days > 0 ==> len - k == if days <= len then days else len
    ensures days == 0 ==> k == 0
    ensures days < 0 ==> k == if -days <= len then -days else len
  {
    if len > days then SliceStart(len, -days) else 0
  }

  /** The trend chart's data: no chart for an empty history; otherwise the
      window and its final point, which is annotated with `int(score)`. */
  datatype Trend =
    | NoChart
    | Chart(window: seq<TrendPoint>, latest: TrendPoint, shown: int)

  /** `int(x)`: a real truncated toward zero. */
  function TruncReal(x: real): (k: int)
    ensures x >= 0.0 ==> 0 <= k && (k as real) <= x < (k as real) + 1.0
    ensures x < 0.0 ==> k <= 0 && (k as real) - 1.0 < x <= (k as real)
  {
    if x >= 0.0 then x.Floor else -((-x).Floor)
  }

  /** `generate_sleep_quality_trend`: an empty history draws nothing; a window
      left empty by a negative `days` makes the trend-line fit fail. */
  function SleepQualityTrend(data: seq<TrendPoint>, days: int): (r: Result<Trend>)
    ensures r == Ok(NoChart) <==> |data| == 0
    ensures r.Err? ==> r.error == EmptySeries
    ensures r.Ok? && r.value.Chart? ==>
      && 0 < |r.value.window| <= |data|
      && r.value.latest == r.value.window[|r.value.window| - 1]
      && r.value.shown == TruncReal(r.value.latest.score)
  {
    if |data| == 0 then Ok(NoChart)
    else
      var sorted := SortByDate(data);
      var window := sorted[WindowStart(|sorted|, days)..];
      if |window| == 0 then Err(EmptySeries)
      else
        var latest := window[|window| - 1];
        Ok(Chart(window, latest, TruncReal(latest.score)))
  }

  /** An empty history gives the empty image, whatever the window size. */
  lemma TrendEmptyHistory(days: int)
    ensures SleepQualityTrend([], days) == Ok(NoChart)
  {
  }

  /** For a positive day count the chart shows the last `min(days, len(data))`
      points of the date-sorted history. */
  lemma TrendWindowLastDays(data: seq<TrendPoint>, days: int)
    requires |data| > 0 && days >= 1
    ensures SleepQualityTrend(data, days).Ok?
    ensures SleepQualityTrend(data, days).value.Chart?
    ensures var w := SleepQualityTrend(data, days).value.window;
      var keep := if days < |data| then days else |data|;
      |w| == keep && w == SortByDate(data)[|data| - keep..]
  {
    var sorted := SortByDate(data);
    var k := WindowStart(|sorted|, days);
    var keep := if days < |data| then days else |data|;
    assert |sorted| == |data| && k == |data| - keep;
    var w := sorted[k..];
    assert |w| == keep;
    assert SleepQualityTrend(data, days) == Ok(Chart(w, w[|w| - 1], TruncReal(w[|w| - 1].score)));
  }

  /** `iloc[-0:]` is `iloc[0:]`: a zero day count keeps the whole history. */
  lemma TrendWindowZeroDays(data: seq<TrendPoint>)
    requires |data| > 0
    ensures SleepQualityTrend(data, 0).Ok?
    ensures SleepQualityTrend(data, 0).value == Chart(SortByDate(data),
      SortByDate(data)[|data| - 1], TruncReal(SortByDate(data)[|data| - 1].score))
  {
    var sorted := SortByDate(data);
    assert WindowStart(|sorted|, 0) == 0;
    assert sorted[0..] == sorted;
  }

  /** A negative day count drops the earliest `-days` points instead, and fails
      when that leaves nothing to fit. */
  lemma TrendWindowNegativeDays(data: seq<TrendPoint>, days: int)
    requires |data| > 0 && days < 0
    ensures SleepQualityTrend(data, days).Err? <==> |data| <= -days
    ensures SleepQualityTrend(data, days).Err? ==> SleepQualityTrend(data, days).error == EmptySeries
    ensures SleepQualityTrend(data, days).Ok? ==>
      SleepQualityTrend(data, days).value.Chart? &&
      SleepQualityTrend(data, days).value.window == SortByDate(data)[-days..]
  {
  }

  /** A drawn chart shows a non-empty suffix of the date-sorted history, and
      annotates its last point with the score truncated to an integer. */
  lemma TrendChartWindow(data: seq<TrendPoint>, days: int)
    requires SleepQualityTrend(data, days).Ok? && SleepQualityTrend(data, days).value.Chart?
    ensures var c, sorted := SleepQualityTrend(data, days).value, SortByDate(data);
      && WindowStart(|sorted|, days) < |sorted|
      && c.window == sorted[WindowStart(|sorted|, days)..]
      && c.latest == c.window[|c.window| - 1] == sorted[|sorted| - 1]
      && c.shown == TruncReal(c.latest.score)
  {
  }

  /** Whatever is drawn is in date order and is drawn from the history; the
      annotated point is the window's last point and has the latest date of
      the whole history, and its shown label is the score truncated to an integer. */
  lemma TrendChartProperties(data: seq<TrendPoint>, days: int)
    requires SleepQualityTrend(data, days).Ok? && SleepQualityTrend(data, days).value.Chart?
    ensures var c := SleepQualityTrend(data, days).value;
      && |c.window| > 0
      && SortedByDate(c.window)
      && multiset(c.window) <= multiset(data)
      && c.latest == c.window[|c.window| - 1]
      && c.latest in data
      && (forall p :: p in data ==> p.date <= c.latest.date)
      && (c.latest.score >= 0.0 ==> (c.shown as real) <= c.latest.score < (c.shown as real) + 1.0)
  {
    var sorted := SortByDate(data);
    var k := WindowStart(|sorted|, days);
    TrendChartWindow(data, days);
    SuffixSorted(sorted, k);
    SuffixWithin(sorted, k);
    LatestLast(sorted);
    SameMembers(sorted, data);
  }

  /** The window is the most recent part of the history: no point left out of
      it is later than a point in it. */
  lemma TrendWindowMostRecent(data: seq<TrendPoint>, days: int)
    requires SleepQualityTrend(data, days).Ok? && SleepQualityTrend(data, days).value.Chart?
    ensures var c := SleepQualityTrend(data, days).value;
      forall p, q :: p in multiset(data) - multiset(c.window) && q in c.window ==> p.date <= q.date
  {
    var sorted := SortByDate(data);
    var k := WindowStart(|sorted|, days);
    TrendChartWindow(data, days);
    SuffixLeavesPrefix(sorted, k);
    PrefixBeforeSuffix(sorted, k);
  }

  lemma SuffixSorted(sorted: seq<TrendPoint>, k: nat)
    requires SortedByDate(sorted) && k <= |sorted|
    ensures SortedByDate(sorted[k..])
  {
    var w := sorted[k..];
    forall i, j | 0 <= i <= j < |w| ensures w[i].date <= w[j].date {
      assert w[i] == sorted[k + i] && w[j] == sorted[k + j];
    }
  }

  lemma SuffixWithin(s: seq<TrendPoint>, k: nat)
    requires k <= |s|
    ensures multiset(s[k..]) <= multiset(s)
  {
    SuffixLeavesPrefix(s, k);
  }

  lemma SuffixLeavesPrefix(s: seq<TrendPoint>, k: nat)
    requires k <= |s|
    ensures multiset(s) == multiset(s[..k]) + multiset(s[k..])
  {
    assert s == s[..k] + s[k..];
  }

  lemma LatestLast(s: seq<TrendPoint>)
    requires SortedByDate(s) && |s| > 0
    ensures forall p :: p in s ==> p.date <= s[|s| - 1].date
  {
    forall p | p in s ensures p.date <= s[|s| - 1].date {
      var i :| 0 <= i < |s| && s[i] == p;
    }
  }

  lemma PrefixBeforeSuffix(s: seq<TrendPoint>, k: nat)
    requires SortedByDate(s) && k <= |s|
    ensures forall p, q :: p in multiset(s[..k]) && q in s[k..] ==> p.date <= q.date
  {
    forall p, q | p in multiset(s[..k]) && q in s[k..] ensures p.date <= q.date {
      assert p in s[..k];
      var i :| 0 <= i < k && s[..k][i] == p;
      var j :| 0 <= j < |s| - k && s[k..][j] == q;
      assert s[i] == p && s[k + j] == q;
    }
  }

  /** Two lists with the same multiset have the same members. */
  lemma SameMembers(s: seq<TrendPoint>, t: seq<TrendPoint>)
    requires multiset(s) == multiset(t)
    ensures forall p :: p in s <==> p in t
  {
    forall p ensures p in s <==> p in t {
      assert p in s <==> p in multiset(s);
      assert p in t <==> p in multiset(t);
    }
  }

  /** A date-ordered history no longer than the window, like the six days of
      the visualizer demo under the default 14, is shown whole and annotated
      with its last point. */
  lemma TrendOfShortSortedHistory(data: seq<TrendPoint>, days: int)
    requires 0 < |data| <= days && SortedByDate(data)
    ensures SleepQualityTrend(data, days) ==
      Ok(Chart(data, data[|data| - 1], TruncReal(data[|data| - 1].score)))
  {
    SortSortedIdentity(data);
  }

  /** Sorting a list already in date order leaves it as it is; in particular
      sorting twice is sorting once. */
  lemma {:induction false} SortSortedIdentity(s: seq<TrendPoint>)
    requires SortedByDate(s)
    ensures SortByDate(s) == s
    ensures SortByDate(SortByDate(s)) == SortByDate(s)
  {
    if |s| > 0 {
      var tail := s[1..];
      assert SortedByDate(tail) by {
        forall i, j | 0 <= i <= j < |tail| ensures tail[i].date <= tail[j].date {
          assert tail[i] == s[i + 1] && tail[j] == s[j + 1];
        }
      }
      SortSortedIdentity(tail);
      assert s == [s[0]] + tail;
      if |tail| > 0 {
        assert tail[0] == s[1];
      }
    }
  }

  // ---------------------------------------------------------------------
  // Sleep-structure chart

  /** `generate_sleep_structure_chart`: the same four wedges as the analysis
      pie, but every stage is read with `stages[key]`. Python evaluates the
      deep label (and with it `deep/total`) before touching the other keys. */
  function StructureChart(stages: Dict<real>): (r: Result<StageChart>)
    ensures r.Ok? ==> HasAllStages(stages) && SumValues(stages) != 0.0
    ensures r.Ok? ==> |r.value.labels| == |r.value.sizes| == 4
    ensures r.Err? ==> r.error == ZeroDivision || (r.error.MissingKey? && !HasKey(stages, r.error.key))
  {
    var total := SumValues(stages);
    if !HasKey(stages, "deep") then Err(MissingKey("deep"))
    else if total == 0.0 then Err(ZeroDivision)
    else if !HasKey(stages, "rem") then Err(MissingKey("rem"))
    else if !HasKey(stages, "light") then Err(MissingKey("light"))
    else if !HasKey(stages, "awake") then Err(MissingKey("awake"))
    else Ok(StageChart(
      seq(4, i requires 0 <= i < 4 => StagePie.PieShare(stages, total, STAGE_ORDER[i])),
      seq(4, i requires 0 <= i < 4 => Get(stages, STAGE_ORDER[i]).value)))
  }

  /** `stages[key]` succeeds for each of the four stages. */
  predicate HasAllStages(stages: Dict<real>)
  {
    HasKey(stages, "deep") && HasKey(stages, "rem") && HasKey(stages, "light") && HasKey(stages, "awake")
  }

  /** The chart is drawn exactly when all four stages are present and the
      durations do not sum to zero; a missing key it reports is really
      missing, a zero total is reported only once `deep` was found, and the
      wedges are the four stages in order, sized by their durations. */
  lemma StructureChartOutcome(stages: Dict<real>)
    ensures StructureChart(stages).Ok? <==> HasAllStages(stages) && SumValues(stages) != 0.0
    ensures !HasKey(stages, "deep") ==> StructureChart(stages) == Err(MissingKey("deep"))
    ensures StructureChart(stages) == Err(ZeroDivision) <==>
      HasKey(stages, "deep") && SumValues(stages) == 0.0
    ensures StructureChart(stages).Err? && StructureChart(stages).error.MissingKey? ==>
      StructureChart(stages).error.key in STAGE_ORDER &&
      !HasKey(stages, StructureChart(stages).error.key)
    ensures StructureChart(stages).Ok? ==>
      var chart := StructureChart(stages).value;
      && |chart.labels| == |chart.sizes| == 4
      && forall i :: 0 <= i < 4 ==>
           && chart.labels[i].stage == STAGE_ORDER[i]
           && Get(stages, STAGE_ORDER[i]) == Some(chart.sizes[i])
           && chart.labels[i].minutes == chart.sizes[i]
  {
  }

  /** With all four stages present the structure chart and the analysis pie agree. */
  lemma StructureAgreesWithPie(stages: Dict<real>)
    requires HasAllStages(stages)
    ensures StructureChart(stages) == StagePie.PieBreakdown(stages)
  {
    var total := SumValues(stages);
    if total != 0.0 {
      var sizes := seq(4, i requires 0 <= i < 4 => Get(stages, STAGE_ORDER[i]).value);
      var pie := seq(4, i requires 0 <= i < 4 => GetOr(stages, STAGE_ORDER[i], 0.0));
      forall i | 0 <= i < 4 ensures sizes[i] == pie[i] {
        assert HasKey(stages, STAGE_ORDER[i]);
      }
      assert sizes == pie;
    }
  }

  /** A missing stage is where the two charts part: the analysis pie draws it as
      an empty wedge, the structure chart fails with a KeyError naming a stage. */
  lemma MissingStageDiverges(stages: Dict<real>)
    requires !HasAllStages(stages) && SumValues(stages) != 0.0
    ensures StagePie.PieBreakdown(stages).Ok?
    ensures StructureChart(stages).Err? && StructureChart(stages).error.MissingKey?
  {
    StagePie.PieBreakdownShape(stages);
    StructureChartOutcome(stages);
  }

  /** The demo night's structure chart: 90/80/200/10 minutes, 450/19, 400/19,
      1000/19 and 50/19 percent. */
  lemma ScenarioStructure()
    ensures StructureChart([("deep", 90.0), ("rem", 80.0), ("light", 200.0), ("awake", 10.0)])
      == Ok(StageChart(
           [StageShare("deep", 90.0, 450.0 / 19.0), StageShare("rem", 80.0, 400.0 / 19.0),
            StageShare("light", 200.0, 1000.0 / 19.0), StageShare("awake", 10.0, 50.0 / 19.0)],
           [90.0, 80.0, 200.0, 10.0]))
  {
    var d := [("deep", 90.0), ("rem", 80.0), ("light", 200.0), ("awake", 10.0)];
    assert HasKey(d, "deep") && HasKey(d, "rem") && HasKey(d, "light") && HasKey(d, "awake");
    StructureAgreesWithPie(d);
    StagePie.ScenarioBreakdown();
  }

  // ---------------------------------------------------------------------
  // Heart-rate chart

  /** `duration * i / len(hr)` hours after `start`, in microseconds:
      the duration is the session length in hours. */
  function HeartRateAxis(start: int, end: int, n: nat): (r: seq<real>)
    ensures |r| == n
    ensures n > 0 ==> r[0] == start as real
  {
    var hours := (end - start) as real / (MICROS_PER_SECOND as real) / 3600.0;
    seq(n, i requires 0 <= i < n =>
      start as real + hours * (i as real) / (n as real) * 3600.0 * (MICROS_PER_SECOND as real))
  }

  /** Point i sits at `start + (end - start) * i / n`: the session cut into
      n equal steps, the last of which is never reached. */
  lemma HeartRateAxisPoint(start: int, end: int, n: nat, i: nat)
    requires i < n
    ensures HeartRateAxis(start, end, n)[i] ==
      start as real + ((end - start) as real) * (i as real) / (n as real)
  {
    var d, c := (end - start) as real, (MICROS_PER_SECOND as real) * 3600.0;
    var x, m := i as real, n as real;
    HoursRoundTrip(d, c, x, m);
  }

  lemma HoursRoundTrip(d: real, c: real, x: real, m: real)
    requires c == 3600000000.0 && m > 0.0
    ensures d / 1000000.0 / 3600.0 * x / m * 3600.0 * 1000000.0 == d * x / m
  {
    var h := d / 1000000.0 / 3600.0;
    assert h * 3600.0 * 1000000.0 == d;
    assert h * x / m * 3600.0 * 1000000.0 == (h * 3600.0 * 1000000.0) * x / m;
  }

  /** The heart-rate axis is the aligned axis of n + 1 points with its final
      point, the session end, dropped: it starts at `start`, rises in equal
      steps when the session has positive length, and its last point is one
      step short of `end`. */
  lemma HeartRateAxisShape(start: int, end: int, n: nat)
    requires n >= 1
    ensures HeartRateAxis(start, end, n) == TimeAxis.IdealAxis(start as real, end as real, n + 1)[..n]
    ensures HeartRateAxis(start, end, n)[0] == start as real
    ensures HeartRateAxis(start, end, n)[n - 1] == end as real - ((end - start) as real) / (n as real)
    ensures end > start ==> HeartRateAxis(start, end, n)[n - 1] < end as real
    ensures end > start ==> forall i, j :: 0 <= i < j < n ==>
      HeartRateAxis(start, end, n)[i] < HeartRateAxis(start, end, n)[j]
  {
    var hr := HeartRateAxis(start, end, n);
    var ideal := TimeAxis.IdealAxis(start as real, end as real, n + 1);
    HeartRateAxisIdealPrefix(start, end, n);
    TimeAxis.IdealAxisEndpoints(start as real, end as real, n + 1);
    TimeAxis.IdealAxisUniform(start as real, end as real, n + 1);
    var step := ((end - start) as real) / (n as real);
    assert ideal[n] - ideal[n - 1] == step;
    if end > start {
      assert step > 0.0;
      forall i, j | 0 <= i < j < n ensures hr[i] < hr[j] {
        StepsRise(ideal, n + 1, step, i, j);
      }
    }
  }

  lemma HeartRateAxisIdealPrefix(start: int, end: int, n: nat)
    requires n >= 1
    ensures HeartRateAxis(start, end, n) == TimeAxis.IdealAxis(start as real, end as real, n + 1)[..n]
  {
    var hr := HeartRateAxis(start, end, n);
    var ideal := TimeAxis.IdealAxis(start as real, end as real, n + 1);
    forall i | 0 <= i < n ensures hr[i] == ideal[..n][i] {
      HeartRateAxisPoint(start, end, n, i);
    }
  }

  /** In a sequence whose neighbours are a positive step apart, later means larger. */
  lemma {:induction false} StepsRise(a: seq<real>, n: nat, step: real, i: nat, j: nat)
    requires |a| == n && step > 0.0 && i < j < n
    requires forall k :: 0 <= k < n - 1 ==> a[k + 1] - a[k] == step
    ensures a[i] < a[j]
    decreases j - i
  {
    if j > i + 1 {
      StepsRise(a, n, step, i, j - 1);
    }
  }

  /** `max(5, len(hr) // 20)`. */
  function SmoothingWindow(n: nat): (w: nat)
    ensures w >= 5 && w >= n / 20
    ensures n < 120 ==> w == 5
    ensures n >= 120 ==> w == n / 20
  {
    if n / 20 > 5 then n / 20 else 5
  }

  /** `len(hr) > window`: the rolling mean is drawn. */
  predicate DrawsSmoothed(n: nat)
  {
    n > SmoothingWindow(n)
  }

  /** The smoothed curve is drawn exactly when there are more than five samples. */
  lemma DrawsSmoothedExactly(n: nat)
    ensures DrawsSmoothed(n) <==> n > 5
  {
  }

  // ---------------------------------------------------------------------
  // HRV chart

  /** `int(total_secs / len(hrv))` seconds when there are samples, else 1. */
  function HrvStep(totalMicros: int, n: nat): (step: int)
    ensures n == 0 ==> step == 1
    ensures n > 0 && totalMicros >= 0 ==> step >= 0
    ensures n > 0 && 0 <= totalMicros < MICROS_PER_SECOND * n ==> step == 0
  {
    if n > 0 then TruncDiv(totalMicros, MICROS_PER_SECOND * n) else 1
  }

  /** `pd.date_range(start, periods=n, freq=f"{step}S")`, in microseconds. */
  function HrvAxis(start: int, end: int, n: nat): (r: seq<int>)
    ensures |r| == n
    ensures n > 0 ==> r[0] == start
  {
    var step := HrvStep(end - start, n);
    seq(n, i requires 0 <= i < n => start + i * step * MICROS_PER_SECOND)
  }

  /** For a session that does not run backwards the step is the largest whole
      number of seconds that n samples fit into the session. */
  lemma HrvStepBounds(totalMicros: int, n: nat)
    requires n > 0 && totalMicros >= 0
    ensures var step := HrvStep(totalMicros, n);
      step >= 0 && step * n * MICROS_PER_SECOND <= totalMicros < (step + 1) * n * MICROS_PER_SECOND
  {
    var b := MICROS_PER_SECOND * n;
    var step := TruncDiv(totalMicros, b);
    assert step * b == step * n * MICROS_PER_SECOND;
    assert (step + 1) * n * MICROS_PER_SECOND == step * b + b;
    if step < 0 {
      MulMonotone(step, -1, b);
    }
  }

  /** The HRV axis starts at `start` and advances by the same whole number of
      seconds every sample. */
  lemma HrvAxisUniform(start: int, end: int, n: nat)
    requires n >= 1
    ensures HrvAxis(start, end, n)[0] == start
    ensures forall i :: 0 <= i < n ==>
      HrvAxis(start, end, n)[i] == start + i * (HrvStep(end - start, n) * MICROS_PER_SECOND)
    ensures forall i :: 0 <= i < n - 1 ==>
      HrvAxis(start, end, n)[i + 1] - HrvAxis(start, end, n)[i] == HrvStep(end - start, n) * MICROS_PER_SECOND
  {
    var step := HrvStep(end - start, n);
    var r := HrvAxis(start, end, n);
    var u := step * MICROS_PER_SECOND;
    forall i | 0 <= i < n ensures r[i] == start + i * u {
      assert i * step * MICROS_PER_SECOND == i * u;
    }
    forall i | 0 <= i < n - 1 ensures r[i + 1] - r[i] == u {
      assert (i + 1) * u == i * u + u;
    }
  }

  /** For a session that does not run backwards the HRV axis never passes `end`. */
  lemma HrvAxisWithinSession(start: int, end: int, n: nat)
    requires n >= 1 && end >= start
    ensures HrvAxis(start, end, n)[n - 1] <= end
  {
    var u := HrvStep(end - start, n) * MICROS_PER_SECOND;
    HrvAxisUniform(start, end, n);
    HrvStepBounds(end - start, n);
    assert u * n <= end - start;
    LastWithinSpan(u, n, end - start);
  }

  /** Once the session lasts at least a second per sample, HRV timestamps strictly increase. */
  lemma HrvAxisStrictlyIncreasing(start: int, end: int, n: nat)
    requires n >= 1 && end - start >= n * MICROS_PER_SECOND
    ensures TimeAxis.StrictlyIncreasing(HrvAxis(start, end, n))
  {
    var step := HrvStep(end - start, n);
    var u := step * MICROS_PER_SECOND;
    var r := HrvAxis(start, end, n);
    HrvAxisUniform(start, end, n);
    HrvStepBounds(end - start, n);
    StepAtLeastOne(step, n * MICROS_PER_SECOND, end - start);
    UniformRise(r, start, u);
  }

  /** Points `start + i * u` for a positive `u` strictly increase. */
  lemma UniformRise(r: seq<int>, start: int, u: int)
    requires u > 0
    requires forall i :: 0 <= i < |r| ==> r[i] == start + i * u
    ensures TimeAxis.StrictlyIncreasing(r)
  {
    forall i, j | 0 <= i < j < |r| ensures r[i] < r[j] {
      MulMonotone(i + 1, j, u);
    }
  }

  lemma LastWithinSpan(u: int, n: nat, d: int)
    requires n >= 1 && u >= 0 && u * n <= d
    ensures (n - 1) * u <= d
  {
    MulMonotone(n - 1, n, u);
  }

  lemma StepAtLeastOne(step: int, b: int, d: int)
    requires b > 0 && b <= d && step >= 0 && d < (step + 1) * b
    ensures step >= 1
  {
    assert (step + 1) * b == step * b + b;
    PositiveFactor(step, b);
  }

  /** No samples: the step defaults to one second and there is nothing to place. */
  lemma HrvNoSamples(start: int, end: int)
    ensures HrvStep(end - start, 0) == 1
    ensures HrvAxis(start, end, 0) == []
  {
  }

  /** The demo night, eight hours at 960 samples: 30-second HRV steps and a
      48-sample smoothing window. */
  lemma ScenarioEightHours()
    ensures HrvStep(8 * 3600 * MICROS_PER_SECOND, 960) == 30
    ensures SmoothingWindow(960) == 48
  {
    var b := MICROS_PER_SECOND * 960;
    assert 8 * 3600 * MICROS_PER_SECOND == 30 * b;
    assert TruncDiv(30 * b, b) == 30;
  }
}
