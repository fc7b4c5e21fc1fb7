/** The session time-axis alignment of sleep_quality_analysis.py: every
    single-night channel chart (heart rate, HRV, SpO2, wrist temperature)
    places sample i of n at `start + (end - start) * i / (n - 1)`, computed in
    Python's datetime arithmetic, so that channels with different sample
    counts share one x-range from `start` to `end`. */
module TimeAxis {
  import opened SleepData
  import opened TimeDelta

  /** The exact reference axis over the reals: the session divided into n - 1 equal steps. */
  function IdealAxis(start: real, end: real, n: nat): (r: seq<real>)
    requires n >= 2
    ensures |r| == n
  {
    seq(n, i requires 0 <= i < n => start + (end - start) * (i as real) / ((n - 1) as real))
  }

  /** Timestamp i (in microseconds): the timedelta `(end - start) * i` divided by
      the int `n - 1`, rounded as timedelta division rounds, added to `start`. */
  function AxisPoint(start: int, end: int, n: nat, i: int): int
    requires n >= 2
  {
    start + DivNearest((end - start) * i, n - 1)
  }

  /** `[start + (end - start) * i/(n-1) for i in range(n)]`. With no samples
      the comprehension never divides; with one it divides by zero. */
  function AlignedAxis(start: int, end: int, n: nat): (r: Result<seq<int>>)
    ensures r.Err? <==> n == 1
    ensures r.Err? ==> r.error == ZeroDivision
    ensures r.Ok? ==> |r.value| == n
  {
    if n == 0 then Ok([])
    else if n == 1 then Err(ZeroDivision)
    else Ok(seq(n, i requires 0 <= i < n => AxisPoint(start, end, n, i)))
  }

  predicate NonDecreasing(s: seq<int>)
  {
    forall i, j :: 0 <= i <= j < |s| ==> s[i] <= s[j]
  }

  predicate StrictlyIncreasing(s: seq<int>)
  {
    forall i, j :: 0 <= i < j < |s| ==> s[i] < s[j]
  }

  /** With at least two samples the axis starts exactly at `start` and ends exactly at `end`. */
  lemma AlignedAxisEndpoints(start: int, end: int, n: nat)
    requires n >= 2
    ensures AlignedAxis(start, end, n).Ok?
    ensures AlignedAxis(start, end, n).value[0] == start
    ensures AlignedAxis(start, end, n).value[n - 1] == end
  {
    DivNearestExact(0, n - 1);
    DivNearestExact(end - start, n - 1);
  }

  /** For a session that does not end before it starts, timestamps never go back. */
  lemma AlignedAxisNonDecreasing(start: int, end: int, n: nat)
    requires n >= 2 && start <= end
    ensures NonDecreasing(AlignedAxis(start, end, n).value)
  {
    var v := AlignedAxis(start, end, n).value;
    forall i, j | 0 <= i <= j < n ensures v[i] <= v[j] {
      MulMonotone(i, j, end - start);
      DivNearestMonotone((end - start) * i, (end - start) * j, n - 1);
    }
  }

  /** Timestamps are strictly increasing once the session spans at least one
      microsecond per step. */
  lemma AlignedAxisStrictlyIncreasing(start: int, end: int, n: nat)
    requires n >= 2 && end - start >= n - 1
    ensures StrictlyIncreasing(AlignedAxis(start, end, n).value)
  {
    var v := AlignedAxis(start, end, n).value;
    forall i, j | 0 <= i < j < n ensures v[i] < v[j] {
      PointsIncrease(end - start, n - 1, i, j);
    }
  }

  /** Rounded quotients `d * i / b` strictly increase in i when `d >= b`. */
  lemma PointsIncrease(d: int, b: int, i: int, j: int)
    requires b >= 1 && d >= b && 0 <= i < j
    ensures DivNearest(d * i, b) < DivNearest(d * j, b)
  {
    if d == b {
      DivNearestExact(i, b);
      DivNearestExact(j, b);
      assert d * i == i * b && d * j == j * b;
    } else {
      ProductsApart(d, i, j);
      DivNearestApart(d * i, d * j, b);
    }
  }

  lemma ProductsApart(d: int, i: int, j: int)
    requires d >= 0 && i < j
    ensures d * j - d * i >= d
  {
    MulMonotone(1, j - i, d);
    assert d * j - d * i == (j - i) * d;
  }

  /** A span shorter than one microsecond per step repeats timestamps: the
      axis of 4 samples over 1 microsecond is 0, 0, 1, 1. */
  lemma SubMicrosecondStepsRepeat()
    ensures AlignedAxis(0, 1, 4) == Ok([0, 0, 1, 1])
  {
    assert DivNearest(0, 3) == 0 && DivNearest(1, 3) == 0;
    assert DivNearest(2, 3) == 1 && DivNearest(3, 3) == 1;
    var v := AlignedAxis(0, 1, 4).value;
    assert v[0] == AxisPoint(0, 1, 4, 0) == 0;
    assert v[1] == AxisPoint(0, 1, 4, 1) == 0;
    assert v[2] == AxisPoint(0, 1, 4, 2) == 1;
    assert v[3] == AxisPoint(0, 1, 4, 3) == 1;
    assert v == [0, 0, 1, 1];
  }

  /** Every timestamp lies within half a microsecond of the exact reference axis. */
  lemma AlignedAxisNearIdeal(start: int, end: int, n: nat)
    requires n >= 2
    ensures forall i :: 0 <= i < n ==>
      -0.5 <= AlignedAxis(start, end, n).value[i] as real - IdealAxis(start as real, end as real, n)[i] <= 0.5
  {
    var v := AlignedAxis(start, end, n).value;
    var ideal := IdealAxis(start as real, end as real, n);
    forall i | 0 <= i < n ensures -0.5 <= v[i] as real - ideal[i] <= 0.5 {
      PointNearIdeal(start, end, n, i);
    }
  }

  lemma PointNearIdeal(start: int, end: int, n: nat, i: nat)
    requires n >= 2 && i < n
    ensures -0.5 <= AxisPoint(start, end, n, i) as real - IdealAxis(start as real, end as real, n)[i] <= 0.5
  {
    var q := DivNearest((end - start) * i, n - 1);
    DivNearestNear((end - start) * i, n - 1);
    NearPoint(start, end, n, i, q);
  }

  /** The same bound for any offset `q` within half a microsecond of `(end - start) * i / (n - 1)`. */
  lemma NearPoint(start: int, end: int, n: nat, i: nat, q: int)
    requires n >= 2 && i < n
    requires -0.5 <= q as real - ((end - start) * i) as real / ((n - 1) as real) <= 0.5
    ensures -0.5 <= (start + q) as real - IdealAxis(start as real, end as real, n)[i] <= 0.5
  {
    var mr := (n - 1) as real;
    var t := (end as real - start as real) * (i as real) / mr;
    SameQuotient(end, start, i, mr);
    assert IdealAxis(start as real, end as real, n)[i] == start as real + t;
    Shifted(start as real, q as real, t);
  }

  lemma SameQuotient(e: int, s: int, i: int, m: real)
    requires m > 0.0
    ensures ((e - s) * i) as real / m == (e as real - s as real) * (i as real) / m
  {
    CastProduct(e, s, i);
  }

  lemma CastProduct(e: int, s: int, i: int)
    ensures ((e - s) * i) as real == (e as real - s as real) * (i as real)
  {
  }

  lemma IdealGap(start: real, end: real, n: nat, i: nat)
    requires n >= 2 && i < n - 1
    ensures IdealAxis(start, end, n)[i + 1] - IdealAxis(start, end, n)[i] == (end - start) / ((n - 1) as real)
  {
    var d, x, m := end - start, i as real, (n - 1) as real;
    var a := IdealAxis(start, end, n);
    assert (i + 1) as real == x + 1.0;
    assert a[i] == start + d * x / m;
    assert a[i + 1] == start + d * (x + 1.0) / m;
    NextPoint(d, x, m);
  }

  lemma NextPoint(d: real, x: real, m: real)
    requires m > 0.0
    ensures d * (x + 1.0) / m - d * x / m == d / m
  {
    assert d * (x + 1.0) == d * x + d;
  }

  lemma Shifted(s: real, q: real, t: real)
    requires -0.5 <= q - t <= 0.5
    ensures -0.5 <= (s + q) - (s + t) <= 0.5
  {
  }

  /** The reference axis runs exactly from `start` to `end`. */
  lemma IdealAxisEndpoints(start: real, end: real, n: nat)
    requires n >= 2
    ensures IdealAxis(start, end, n)[0] == start
    ensures IdealAxis(start, end, n)[n - 1] == end
  {
    var m := (n - 1) as real;
    assert (end - start) * m / m == end - start;
  }

  /** Consecutive reference timestamps are all `(end - start) / (n - 1)` apart. */
  lemma IdealAxisUniform(start: real, end: real, n: nat)
    requires n >= 2
    ensures forall i :: 0 <= i < n - 1 ==>
      IdealAxis(start, end, n)[i + 1] - IdealAxis(start, end, n)[i] == (end - start) / ((n - 1) as real)
  {
    var a := IdealAxis(start, end, n);
    var m := (n - 1) as real;
    forall i | 0 <= i < n - 1 ensures a[i + 1] - a[i] == (end - start) / m {
      IdealGap(start, end, n, i);
    }
  }

  /** Consecutive timestamps are one exact step apart to within a microsecond. */
  lemma AlignedAxisGaps(start: int, end: int, n: nat)
    requires n >= 2
    ensures forall i :: 0 <= i < n - 1 ==>
      var v := AlignedAxis(start, end, n).value;
      var step := ((end - start) as real) / ((n - 1) as real);
      -1.0 <= (v[i + 1] - v[i]) as real - step <= 1.0
  {
    AlignedAxisNearIdeal(start, end, n);
    IdealAxisUniform(start as real, end as real, n);
  }

  /** The timestamps of one channel paired with its samples, as each chart plots them. */
  datatype AlignedSeries = AlignedSeries(timestamps: seq<int>, values: seq<real>)

  /** The x/y data of `generate_hr_chart`, `generate_hrv_chart`,
      `generate_spo2_chart` and `generate_temp_chart`, which differ only in the channel. */
  function ChannelSeries(s: SleepSession, c: Channel): (r: Result<AlignedSeries>)
    ensures r.Ok? ==> |r.value.timestamps| == |r.value.values| == |Samples(s, c)|
    ensures r.Ok? ==> r.value.values == Samples(s, c)
    ensures r.Ok? ==> AlignedAxis(s.startTime, s.endTime, |Samples(s, c)|) == Ok(r.value.timestamps)
    ensures r.Err? <==> |Samples(s, c)| == 1
  {
    match AlignedAxis(s.startTime, s.endTime, |Samples(s, c)|)
    case Ok(times) => Ok(AlignedSeries(times, Samples(s, c)))
    case Err(e) => Err(e)
  }

  /** Any two channels with at least two samples are drawn over the same range:
      both start at the session start and end at the session end. */
  lemma ChannelsShareRange(s: SleepSession, c1: Channel, c2: Channel)
    requires |Samples(s, c1)| >= 2 && |Samples(s, c2)| >= 2
    ensures ChannelSeries(s, c1).Ok? && ChannelSeries(s, c2).Ok?
    ensures var t1, t2 := ChannelSeries(s, c1).value.timestamps, ChannelSeries(s, c2).value.timestamps;
      t1[0] == t2[0] == s.startTime && t1[|t1| - 1] == t2[|t2| - 1] == s.endTime
  {
    AlignedAxisEndpoints(s.startTime, s.endTime, |Samples(s, c1)|);
    AlignedAxisEndpoints(s.startTime, s.endTime, |Samples(s, c2)|);
  }
}
