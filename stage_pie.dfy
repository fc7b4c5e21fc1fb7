/** The sleep-stage breakdown of `generate_sleep_stage_pie_chart`
    (sleep_quality_analysis.py): four wedges in the order deep, rem, light,
    awake, a missing stage counting as 0 minutes, each labelled with its share
    of the sum of ALL durations in the mapping. */
module StagePie {
  import opened SleepData

  /** The wedge for `stage`: `dur = stages.get(stage, 0)` and `dur/total*100`. */
  function PieShare(stages: Dict<real>, total: real, stage: string): (w: StageShare)
    requires total != 0.0
    ensures w.stage == stage
    ensures HasKey(stages, stage) ==> Get(stages, stage) == Some(w.minutes)
    ensures !HasKey(stages, stage) ==> w.minutes == 0.0 && w.percent == 0.0
    ensures w.percent * total == w.minutes * 100.0
  {
    var dur := GetOr(stages, stage, 0.0);
    assert dur / total * total == dur;
    StageShare(stage, dur, dur / total * 100.0)
  }

  /** The labels and sizes the pie chart is drawn from; a zero total fails the
      first percentage with a division by zero. */
  function PieBreakdown(stages: Dict<real>): (r: Result<StageChart>)
    ensures r.Err? <==> SumValues(stages) == 0.0
    ensures r.Err? ==> r.error == ZeroDivision
    ensures r.Ok? ==> |r.value.labels| == |r.value.sizes| == 4
  {
    var total := SumValues(stages);
    if total == 0.0 then Err(ZeroDivision)
    else Ok(StageChart(
      seq(4, i requires 0 <= i < 4 => PieShare(stages, total, STAGE_ORDER[i])),
      seq(4, i requires 0 <= i < 4 => GetOr(stages, STAGE_ORDER[i], 0.0))))
  }

  /** The label/size loop of the chart: one label and one size appended per stage. */
  method StageBreakdown(stages: Dict<real>) returns (r: Result<StageChart>)
    ensures r == PieBreakdown(stages)
  {
    var total := SumValues(stages);
    var labels: seq<StageShare> := [];
    var sizes: seq<real> := [];
    for i := 0 to |STAGE_ORDER|
      invariant |labels| == i && |sizes| == i
      invariant i > 0 ==> total != 0.0
      invariant forall j :: 0 <= j < i ==> sizes[j] == GetOr(stages, STAGE_ORDER[j], 0.0)
      invariant total != 0.0 ==> forall j :: 0 <= j < i ==> labels[j] == PieShare(stages, total, STAGE_ORDER[j])
    {
      var stage := STAGE_ORDER[i];
      var dur := GetOr(stages, stage, 0.0);
      if total == 0.0 {
        return Err(ZeroDivision);
      }
      labels := labels + [StageShare(stage, dur, dur / total * 100.0)];
      sizes := sizes + [dur];
    }
    assert labels == seq(4, i requires 0 <= i < 4 => PieShare(stages, total, STAGE_ORDER[i]));
    assert sizes == seq(4, i requires 0 <= i < 4 => GetOr(stages, STAGE_ORDER[i], 0.0));
    r := Ok(StageChart(labels, sizes));
  }

  /** The breakdown exists exactly when the durations do not sum to zero; it then
      lists the four stages in order, each wedge sized by that stage's duration
      (0 when the key is missing) and labelled with that duration over the total. */
  lemma PieBreakdownShape(stages: Dict<real>)
    ensures PieBreakdown(stages).Ok? <==> SumValues(stages) != 0.0
    ensures PieBreakdown(stages).Err? ==> PieBreakdown(stages).error == ZeroDivision
    ensures PieBreakdown(stages).Ok? ==>
      var chart, total := PieBreakdown(stages).value, SumValues(stages);
      && |chart.labels| == |chart.sizes| == 4
      && (forall i :: 0 <= i < 4 ==>
            && chart.labels[i].stage == STAGE_ORDER[i]
            && chart.sizes[i] == chart.labels[i].minutes
            && (HasKey(stages, STAGE_ORDER[i]) ==> Some(chart.sizes[i]) == Get(stages, STAGE_ORDER[i]))
            && (!HasKey(stages, STAGE_ORDER[i]) ==> chart.sizes[i] == 0.0 && chart.labels[i].percent == 0.0)
            && chart.labels[i].percent * total == chart.sizes[i] * 100.0)
  {
    var total := SumValues(stages);
    if total != 0.0 {
      var chart := PieBreakdown(stages).value;
      forall i | 0 <= i < 4
        ensures chart.labels[i].percent * total == chart.sizes[i] * 100.0
      {
        var dur := chart.sizes[i];
        assert chart.labels[i].percent == dur / total * 100.0;
        assert dur / total * total == dur;
      }
    }
  }

  /** Every key of the mapping names one of the four stages. */
  predicate OnlyStageKeys(d: Dict<real>)
  {
    forall i :: 0 <= i < |d| ==> d[i].0 in STAGE_ORDER
  }

  /** The four stage durations, each defaulted to 0. */
  function StageMinutes(d: Dict<real>): real
  {
    GetOr(d, "deep", 0.0) + GetOr(d, "rem", 0.0) + GetOr(d, "light", 0.0) + GetOr(d, "awake", 0.0)
  }

  /** When a dict holds nothing but stage keys, its total is the sum of the four stage durations. */
  lemma {:induction false} TotalOfStageKeys(d: Dict<real>)
    requires DistinctKeys(d) && OnlyStageKeys(d)
    ensures SumValues(d) == StageMinutes(d)
  {
    if |d| > 0 {
      var rest := d[1..];
      assert DistinctKeys(rest) && OnlyStageKeys(rest);
      TotalOfStageKeys(rest);
      GetAbsent(rest, d[0].0);
    }
  }

  /** The four percentages add up to the stages' share of the total. */
  lemma PiePercentagesSum(stages: Dict<real>)
    requires PieBreakdown(stages).Ok?
    ensures var p := PieBreakdown(stages).value.labels;
      (p[0].percent + p[1].percent + p[2].percent + p[3].percent) * SumValues(stages)
        == StageMinutes(stages) * 100.0
  {
    var p := PieBreakdown(stages).value.labels;
    PiePercents(stages);
    PercentAlgebra(p[0].percent, p[1].percent, p[2].percent, p[3].percent,
      GetOr(stages, "deep", 0.0), GetOr(stages, "rem", 0.0),
      GetOr(stages, "light", 0.0), GetOr(stages, "awake", 0.0), SumValues(stages));
  }

  /** When the mapping holds only stage keys the stages are all of the total,
      so the four percentages sum to 100. */
  lemma PiePercentagesHundred(stages: Dict<real>)
    requires PieBreakdown(stages).Ok? && DistinctKeys(stages) && OnlyStageKeys(stages)
    ensures var p := PieBreakdown(stages).value.labels;
      p[0].percent + p[1].percent + p[2].percent + p[3].percent == 100.0
  {
    var p := PieBreakdown(stages).value.labels;
    PiePercents(stages);
    TotalOfStageKeys(stages);
    PercentAlgebra(p[0].percent, p[1].percent, p[2].percent, p[3].percent,
      GetOr(stages, "deep", 0.0), GetOr(stages, "rem", 0.0),
      GetOr(stages, "light", 0.0), GetOr(stages, "awake", 0.0), SumValues(stages));
  }

  lemma PiePercents(stages: Dict<real>)
    requires PieBreakdown(stages).Ok?
    ensures var p, total := PieBreakdown(stages).value.labels, SumValues(stages);
      && p[0].percent == GetOr(stages, "deep", 0.0) / total * 100.0
      && p[1].percent == GetOr(stages, "rem", 0.0) / total * 100.0
      && p[2].percent == GetOr(stages, "light", 0.0) / total * 100.0
      && p[3].percent == GetOr(stages, "awake", 0.0) / total * 100.0
  {
  }

  /** Four shares of one total: their percentages add up to the parts' sum over the total. */
  lemma PercentAlgebra(p0: real, p1: real, p2: real, p3: real, g0: real, g1: real, g2: real, g3: real, t: real)
    requires t != 0.0
    requires p0 == g0 / t * 100.0 && p1 == g1 / t * 100.0 && p2 == g2 / t * 100.0 && p3 == g3 / t * 100.0
    ensures (p0 + p1 + p2 + p3) * t == (g0 + g1 + g2 + g3) * 100.0
    ensures g0 + g1 + g2 + g3 == t ==> p0 + p1 + p2 + p3 == 100.0
  {
    assert p0 + p1 + p2 + p3 == (g0 + g1 + g2 + g3) / t * 100.0;
    assert (g0 + g1 + g2 + g3) / t * t == g0 + g1 + g2 + g3;
  }

  /** A night of 90 deep, 80 REM, 200 light and 10 awake minutes is split
      450/19, 400/19, 1000/19 and 50/19 percent (about 23.7, 21.1, 52.6, 2.6). */
  lemma ScenarioBreakdown()
    ensures PieBreakdown([("deep", 90.0), ("rem", 80.0), ("light", 200.0), ("awake", 10.0)])
      == Ok(StageChart(
           [StageShare("deep", 90.0, 450.0 / 19.0), StageShare("rem", 80.0, 400.0 / 19.0),
            StageShare("light", 200.0, 1000.0 / 19.0), StageShare("awake", 10.0, 50.0 / 19.0)],
           [90.0, 80.0, 200.0, 10.0]))
  {
    var d := [("deep", 90.0), ("rem", 80.0), ("light", 200.0), ("awake", 10.0)];
    assert SumValues(d) == 380.0;
    assert GetOr(d, "deep", 0.0) == 90.0 && GetOr(d, "rem", 0.0) == 80.0;
    assert GetOr(d, "light", 0.0) == 200.0 && GetOr(d, "awake", 0.0) == 10.0;
    var chart := PieBreakdown(d).value;
    assert chart.labels == [StageShare("deep", 90.0, 450.0 / 19.0), StageShare("rem", 80.0, 400.0 / 19.0),
            StageShare("light", 200.0, 1000.0 / 19.0), StageShare("awake", 10.0, 50.0 / 19.0)];
    assert chart.sizes == [90.0, 80.0, 200.0, 10.0];
  }

  /** All durations zero: no percentage can be computed. */
  lemma ScenarioAllZero()
    ensures PieBreakdown([("deep", 0.0), ("rem", 0.0), ("light", 0.0), ("awake", 0.0)]) == Err(ZeroDivision)
  {
  }
}
