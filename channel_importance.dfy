/** `compute_channel_importance` (sleep_quality_analysis.py) on the weight
    tensor of the network's first convolution: per input channel, the sum of
    absolute weights over the kernel and filter axes, divided by the sum over
    all channels, keyed by the four channel names in order. */
module ChannelImportance {
  import opened SleepData

  /** A Conv1D kernel `w[k][c][o]`: kernel position k, input channel c, filter o. */
  datatype ConvWeights = ConvWeights(width: nat, channels: nat, filters: nat, w: seq<seq<seq<real>>>)

  /** The tensor is rectangular with the stated dimensions, as a numpy array is. */
  predicate WellShaped(t: ConvWeights)
  {
    && |t.w| == t.width
    && (forall k :: 0 <= k < |t.w| ==> |t.w[k]| == t.channels)
    && (forall k, c :: 0 <= k < |t.w| && 0 <= c < |t.w[k]| ==> |t.w[k][c]| == t.filters)
  }

  /** The keys of the result, in the network's input-channel order. */
  const CHANNEL_NAMES: seq<string> := ["heart_rate", "hrv", "spo2", "wrist_temp"]

  function Abs(x: real): real
  {
    if x < 0.0 then -x else x
  }

  /** The absolute weights one kernel position gives one input channel, summed over filters. */
  function RowAbsSum(row: seq<real>): (r: real)
    ensures r >= 0.0
  {
    SumNonNegative(AbsSeq(row));
    Sum(AbsSeq(row))
  }

  /** `np.abs` on one row. */
  function AbsSeq(row: seq<real>): (r: seq<real>)
    ensures |r| == |row|
    ensures forall o :: 0 <= o < |row| ==> r[o] >= 0.0 && (r[o] == 0.0 <==> row[o] == 0.0)
  {
    seq(|row|, o requires 0 <= o < |row| => Abs(row[o]))
  }

  /** The row sums of one input channel, one per kernel position. */
  function ChannelRows(t: ConvWeights, c: nat): (rows: seq<real>)
    requires WellShaped(t) && c < t.channels
    ensures |rows| == t.width
  {
    seq(t.width, k requires 0 <= k < t.width => RowAbsSum(t.w[k][c]))
  }

  /** `np.sum(np.abs(w), axis=(0,2))[c]`. */
  function ChannelAbsSum(t: ConvWeights, c: nat): (r: real)
    requires WellShaped(t) && c < t.channels
    ensures r >= 0.0
  {
    SumNonNegative(ChannelRows(t, c));
    Sum(ChannelRows(t, c))
  }

  /** `abs_sum`: one entry per input channel. */
  function AbsSums(t: ConvWeights): (s: seq<real>)
    requires WellShaped(t)
    ensures |s| == t.channels
    ensures forall c :: 0 <= c < t.channels ==> s[c] >= 0.0
  {
    seq(t.channels, c requires 0 <= c < t.channels => ChannelAbsSum(t, c))
  }

  /** Each term divided by `total` (the callers pass the sum of all terms). */
  function Shares(s: seq<real>, total: real): (r: seq<real>)
    requires total != 0.0
    ensures |r| == |s|
  {
    seq(|s|, i requires 0 <= i < |s| => s[i] / total)
  }

  /** `norms = abs_sum / np.sum(abs_sum)` for a non-zero total. */
  function Norms(t: ConvWeights): (s: seq<real>)
    requires WellShaped(t) && Sum(AbsSums(t)) != 0.0
    ensures |s| == t.channels
    ensures forall c :: 0 <= c < t.channels ==> s[c] >= 0.0
  {
    SumNonNegative(AbsSums(t));
    SharesNonNegative(AbsSums(t), Sum(AbsSums(t)));
    Shares(AbsSums(t), Sum(AbsSums(t)))
  }

  /** The dict the function returns. Fewer than four channels make `norms[i]`
      fail; an all-zero kernel makes numpy's 0/0 turn every norm into NaN. */
  function Importance(t: ConvWeights): (r: Result<Dict<real>>)
    requires WellShaped(t)
    ensures r.Err? <==> t.channels < 4 || Sum(AbsSums(t)) == 0.0
    ensures t.channels < 4 ==> r == Err(IndexOutOfRange)
    ensures r.Err? && t.channels >= 4 ==> r == Err(NotANumber)
    ensures r.Ok? ==> |r.value| == 4 && forall i :: 0 <= i < 4 ==> r.value[i].0 == CHANNEL_NAMES[i]
  {
    if t.channels < |CHANNEL_NAMES| then Err(IndexOutOfRange)
    else if Sum(AbsSums(t)) == 0.0 then Err(NotANumber)
    else Ok(seq(4, i requires 0 <= i < 4 => (CHANNEL_NAMES[i], Norms(t)[i])))
  }

  /** `s` has the shape of `t` and each of its weights is `a` times the matching weight of `t`. */
  predicate ScaledBy(s: ConvWeights, t: ConvWeights, a: real)
  {
    && WellShaped(s) && WellShaped(t)
    && s.width == t.width && s.channels == t.channels && s.filters == t.filters
    && forall k, c, o :: 0 <= k < t.width && 0 <= c < t.channels && 0 <= o < t.filters ==>
         s.w[k][c][o] == a * t.w[k][c][o]
  }

  /** Every weight multiplied by `a`. */
  function Scale(t: ConvWeights, a: real): (s: ConvWeights)
    requires WellShaped(t)
    ensures ScaledBy(s, t, a)
  {
    ConvWeights(t.width, t.channels, t.filters,
      seq(t.width, k requires 0 <= k < t.width =>
        seq(t.channels, c requires 0 <= c < t.channels =>
          seq(t.filters, o requires 0 <= o < t.filters => a * t.w[k][c][o]))))
  }

  // ---------------------------------------------------------------------
  // Shares of a sequence

  /** Dividing by the total is multiplying by its inverse. */
  lemma SharesAsScale(s: seq<real>, total: real)
    requires total != 0.0
    ensures Shares(s, total) == ScaleSeq(1.0 / total, s)
  {
    forall i | 0 <= i < |s| ensures Shares(s, total)[i] == ScaleSeq(1.0 / total, s)[i] {
      DivAsMul(s[i], total);
    }
  }

  /** Non-negative terms with a non-zero sum have non-negative shares of that sum, which add up to exactly 1. */
  lemma SharesSumToOne(s: seq<real>)
    requires Sum(s) != 0.0
    requires forall i :: 0 <= i < |s| ==> s[i] >= 0.0
    ensures forall i :: 0 <= i < |s| ==> Shares(s, Sum(s))[i] >= 0.0
    ensures Sum(Shares(s, Sum(s))) == 1.0
  {
    var total := Sum(s);
    SumNonNegative(s);
    SharesNonNegative(s, total);
    SharesSumIsOne(s, total);
  }

  lemma SharesSumIsOne(s: seq<real>, total: real)
    requires total == Sum(s) && total != 0.0
    ensures Sum(Shares(s, total)) == 1.0
  {
    SharesAsScale(s, total);
    SumOfScaled(Shares(s, total), s, 1.0 / total);
    InverseCancels(total);
  }

  lemma SharesNonNegative(s: seq<real>, total: real)
    requires total > 0.0
    requires forall i :: 0 <= i < |s| ==> s[i] >= 0.0
    ensures forall i :: 0 <= i < |s| ==> Shares(s, total)[i] >= 0.0
  {
    forall i | 0 <= i < |s| ensures Shares(s, total)[i] >= 0.0 {
      DivNonNegative(s[i], total);
    }
  }

  /** Each share times the total gives back its term. */
  lemma SharesTimesTotal(s: seq<real>, total: real)
    requires total != 0.0
    ensures forall i :: 0 <= i < |s| ==> Shares(s, total)[i] * total == s[i]
  {
    forall i | 0 <= i < |s| ensures Shares(s, total)[i] * total == s[i] {
      DivTimes(s[i], total);
    }
  }

  /** Scaling every term by one non-zero factor leaves every share of the sum unchanged. */
  lemma SharesScaleInvariant(u: seq<real>, m: real)
    requires m != 0.0 && Sum(u) != 0.0
    ensures Sum(ScaleSeq(m, u)) != 0.0
    ensures Shares(ScaleSeq(m, u), Sum(ScaleSeq(m, u))) == Shares(u, Sum(u))
  {
    var v := ScaleSeq(m, u);
    SumScaleSeq(m, u);
    var su, sv := Sum(u), Sum(v);
    RatioUnchanged(sv, sv, su, su, m);
    forall i | 0 <= i < |u| ensures Shares(v, sv)[i] == Shares(u, su)[i] {
      RatioUnchanged(v[i], sv, u[i], su, m);
    }
  }

  /** Scaling both parts of a ratio by the same non-zero factor keeps the ratio. */
  lemma RatioUnchanged(xs: real, ys: real, x: real, y: real, m: real)
    requires y != 0.0 && m != 0.0 && xs == m * x && ys == m * y
    ensures ys != 0.0 && xs / ys == x / y
  {
    assert xs / ys * ys == xs;
    assert x / y * ys == xs;
    assert (xs / ys - x / y) * ys == 0.0;
  }

  lemma InverseCancels(t: real)
    requires t != 0.0
    ensures (1.0 / t) * t == 1.0
  {
  }

  lemma DivAsMul(x: real, t: real)
    requires t != 0.0
    ensures x / t == (1.0 / t) * x
  {
  }

  lemma DivNonNegative(x: real, t: real)
    requires t > 0.0 && x >= 0.0
    ensures x / t >= 0.0
  {
  }

  lemma DivTimes(x: real, t: real)
    requires t != 0.0
    ensures x / t * t == x
  {
  }

  lemma ProductZero(m: real, x: real)
    requires m != 0.0
    ensures m * x == 0.0 <==> x == 0.0
  {
  }

  // ---------------------------------------------------------------------
  // Absolute sums of the tensor

  lemma Sum4(s: seq<real>)
    requires |s| == 4
    ensures Sum(s) == s[0] + s[1] + s[2] + s[3]
  {
    var s1, s2, s3 := s[1..], s[2..], s[3..];
    assert s1[1..] == s2 && s2[1..] == s3 && s3[1..] == [];
    assert Sum(s3) == s[3];
    assert Sum(s2) == s[2] + s[3];
    assert Sum(s1) == s[1] + s[2] + s[3];
  }

  /** A row's absolute sum is non-negative and zero exactly when the row is all zeros. */
  lemma RowAbsSumZero(row: seq<real>)
    ensures RowAbsSum(row) >= 0.0
    ensures RowAbsSum(row) == 0.0 <==> forall o :: 0 <= o < |row| ==> row[o] == 0.0
  {
    var abs := AbsSeq(row);
    forall o | 0 <= o < |row| ensures abs[o] >= 0.0 && (abs[o] == 0.0 <==> row[o] == 0.0) {
    }
    SumNonNegative(abs);
  }

  /** A channel's absolute sum is non-negative and zero exactly when all its weights are. */
  lemma ChannelAbsSumZero(t: ConvWeights, c: nat)
    requires WellShaped(t) && c < t.channels
    ensures ChannelAbsSum(t, c) >= 0.0
    ensures ChannelAbsSum(t, c) == 0.0 <==>
      forall k, o :: 0 <= k < t.width && 0 <= o < t.filters ==> t.w[k][c][o] == 0.0
  {
    var rows := ChannelRows(t, c);
    forall k | 0 <= k < t.width ensures rows[k] >= 0.0 {
      RowAbsSumZero(t.w[k][c]);
    }
    SumNonNegative(rows);
    forall k | 0 <= k < t.width
      ensures rows[k] == 0.0 <==> forall o :: 0 <= o < t.filters ==> t.w[k][c][o] == 0.0
    {
      RowAbsSumZero(t.w[k][c]);
    }
  }

  /** Every per-channel sum is non-negative; their total is zero exactly when every weight is zero. */
  lemma AbsSumsZero(t: ConvWeights)
    requires WellShaped(t)
    ensures forall c :: 0 <= c < t.channels ==> AbsSums(t)[c] >= 0.0
    ensures Sum(AbsSums(t)) >= 0.0
    ensures Sum(AbsSums(t)) == 0.0 <==>
      forall k, c, o :: 0 <= k < t.width && 0 <= c < t.channels && 0 <= o < t.filters ==> t.w[k][c][o] == 0.0
  {
    var sums := AbsSums(t);
    forall c | 0 <= c < t.channels
      ensures sums[c] >= 0.0
      ensures sums[c] == 0.0 <==> forall k, o :: 0 <= k < t.width && 0 <= o < t.filters ==> t.w[k][c][o] == 0.0
    {
      ChannelAbsSumZero(t, c);
    }
    SumNonNegative(sums);
    if Sum(sums) != 0.0 {
      var c :| 0 <= c < t.channels && sums[c] != 0.0;
      var k, o :| 0 <= k < t.width && 0 <= o < t.filters && t.w[k][c][o] != 0.0;
    } else {
      forall k, c, o | 0 <= k < t.width && 0 <= c < t.channels && 0 <= o < t.filters
        ensures t.w[k][c][o] == 0.0
      {
        assert sums[c] == 0.0;
      }
    }
  }

  lemma AbsSumsNonNegative(t: ConvWeights)
    requires WellShaped(t)
    ensures forall c :: 0 <= c < t.channels ==> AbsSums(t)[c] >= 0.0
  {
    forall c | 0 <= c < t.channels ensures AbsSums(t)[c] >= 0.0 {
      ChannelAbsSumZero(t, c);
    }
  }

  // ---------------------------------------------------------------------
  // The importances

  /** The normalised values over all channels are non-negative and sum to exactly 1. */
  lemma NormsSumToOne(t: ConvWeights)
    requires WellShaped(t) && Sum(AbsSums(t)) != 0.0
    ensures forall c :: 0 <= c < t.channels ==> Norms(t)[c] >= 0.0
    ensures Sum(Norms(t)) == 1.0
  {
    AbsSumsNonNegative(t);
    SharesSumToOne(AbsSums(t));
  }

  /** The result exists exactly when there are at least four input channels and
      some weight is non-zero; too few channels fail before the total is looked at. */
  lemma ImportanceOutcome(t: ConvWeights)
    requires WellShaped(t)
    ensures Importance(t).Ok? <==>
      t.channels >= 4 && exists k, c, o :: 0 <= k < t.width && 0 <= c < t.channels && 0 <= o < t.filters && t.w[k][c][o] != 0.0
    ensures t.channels < 4 ==> Importance(t) == Err(IndexOutOfRange)
    ensures t.channels >= 4 && Importance(t).Err? ==> Importance(t) == Err(NotANumber)
  {
    AbsSumsZero(t);
  }

  /** The result maps the four channel names, in order, to their channel's
      share of the total over all channels, each share non-negative. */
  lemma ImportanceEntries(t: ConvWeights)
    requires WellShaped(t) && Importance(t).Ok?
    ensures var d := Importance(t).value;
      && |d| == 4
      && (forall i :: 0 <= i < 4 ==> d[i].0 == CHANNEL_NAMES[i])
      && (forall i :: 0 <= i < 4 ==> d[i].1 >= 0.0 && d[i].1 * Sum(AbsSums(t)) == AbsSums(t)[i])
  {
    var d := Importance(t).value;
    NormsShareTotal(t);
    forall i | 0 <= i < 4 ensures d[i].0 == CHANNEL_NAMES[i] && d[i].1 == Norms(t)[i] {
    }
  }

  /** Each normalised value is non-negative and is its channel's absolute sum over the total. */
  lemma NormsShareTotal(t: ConvWeights)
    requires WellShaped(t) && Sum(AbsSums(t)) != 0.0
    ensures forall c :: 0 <= c < t.channels ==> Norms(t)[c] >= 0.0 && Norms(t)[c] * Sum(AbsSums(t)) == AbsSums(t)[c]
  {
    var sums := AbsSums(t);
    SharesTimesTotal(sums, Sum(sums));
    assert Norms(t) == Shares(sums, Sum(sums));
  }

  /** With the four input channels the network is built with, the four importances sum to 1. */
  lemma ImportanceSumsToOne(t: ConvWeights)
    requires WellShaped(t) && t.channels == 4 && Importance(t).Ok?
    ensures var d := Importance(t).value;
      d[0].1 + d[1].1 + d[2].1 + d[3].1 == 1.0
  {
    NormsSumToOne(t);
    Sum4(Norms(t));
  }

  /** Multiplying every weight by the same non-zero constant changes no importance. */
  lemma ImportanceScaleInvariant(t: ConvWeights, a: real)
    requires WellShaped(t) && a != 0.0
    ensures Importance(Scale(t, a)) == Importance(t)
  {
    var s := Scale(t, a);
    var sumsT, m := AbsSums(t), Abs(a);
    AbsSumsScaled(t, s, a);
    SumScaleSeq(m, sumsT);
    ProductZero(m, Sum(sumsT));
    if s.channels >= 4 && Sum(sumsT) != 0.0 {
      SharesScaleInvariant(sumsT, m);
      assert Norms(s) == Norms(t);
    }
  }

  /** Scaling the weights by `a` scales every channel's absolute sum by `|a|`. */
  lemma AbsSumsScaled(t: ConvWeights, s: ConvWeights, a: real)
    requires ScaledBy(s, t, a)
    ensures AbsSums(s) == ScaleSeq(Abs(a), AbsSums(t))
  {
    var ss, st := AbsSums(s), AbsSums(t);
    forall c | 0 <= c < t.channels ensures ss[c] == ScaleSeq(Abs(a), st)[c] {
      RowsScaled(t, s, a, c);
      ChannelScaled(t, s, Abs(a), c);
    }
  }

  lemma ChannelScaled(t: ConvWeights, s: ConvWeights, m: real, c: nat)
    requires WellShaped(t) && WellShaped(s) && c < t.channels && c < s.channels
    requires ChannelRows(s, c) == ScaleSeq(m, ChannelRows(t, c))
    ensures ChannelAbsSum(s, c) == m * ChannelAbsSum(t, c)
  {
    var rs, rt := ChannelRows(s, c), ChannelRows(t, c);
    assert ChannelAbsSum(s, c) == Sum(rs) && ChannelAbsSum(t, c) == Sum(rt);
    SumOfScaled(rs, rt, m);
  }

  lemma SumOfScaled(x: seq<real>, y: seq<real>, m: real)
    requires x == ScaleSeq(m, y)
    ensures Sum(x) == m * Sum(y)
  {
    SumScaleSeq(m, y);
  }

  lemma RowsScaled(t: ConvWeights, s: ConvWeights, a: real, c: nat)
    requires ScaledBy(s, t, a) && c < t.channels
    ensures ChannelRows(s, c) == ScaleSeq(Abs(a), ChannelRows(t, c))
  {
    var rs, rt := ChannelRows(s, c), ChannelRows(t, c);
    forall k | 0 <= k < t.width ensures rs[k] == ScaleSeq(Abs(a), rt)[k] {
      RowScaled(t, s, a, k, c);
    }
  }

  lemma RowScaled(t: ConvWeights, s: ConvWeights, a: real, k: nat, c: nat)
    requires ScaledBy(s, t, a) && k < t.width && c < t.channels
    ensures RowAbsSum(s.w[k][c]) == Abs(a) * RowAbsSum(t.w[k][c])
  {
    var r, q := t.w[k][c], s.w[k][c];
    assert q == ScaleSeq(a, r);
    RowAbsSumScale(r, a);
  }

  /** Scaling a row by `a` scales its absolute sum by `|a|`. */
  lemma RowAbsSumScale(r: seq<real>, a: real)
    ensures RowAbsSum(ScaleSeq(a, r)) == Abs(a) * RowAbsSum(r)
  {
    AbsSeqScale(r, a);
    SumOfScaled(AbsSeq(ScaleSeq(a, r)), AbsSeq(r), Abs(a));
  }

  lemma AbsSeqScale(r: seq<real>, a: real)
    ensures AbsSeq(ScaleSeq(a, r)) == ScaleSeq(Abs(a), AbsSeq(r))
  {
    var lhs, rhs := AbsSeq(ScaleSeq(a, r)), ScaleSeq(Abs(a), AbsSeq(r));
    forall o | 0 <= o < |r| ensures lhs[o] == rhs[o] {
      AbsScaledAt(r, a, o);
    }
  }

  lemma AbsScaledAt(r: seq<real>, a: real, o: nat)
    requires o < |r|
    ensures AbsSeq(ScaleSeq(a, r))[o] == ScaleSeq(Abs(a), AbsSeq(r))[o]
  {
    AbsMul(a, r[o]);
  }

  lemma AbsMul(a: real, x: real)
    ensures Abs(a * x) == Abs(a) * Abs(x)
  {
    if a >= 0.0 && x >= 0.0 {
      assert a * x >= 0.0;
    } else if a >= 0.0 {
      assert a * (-x) >= 0.0;
    } else if x >= 0.0 {
      assert (-a) * x >= 0.0;
    } else {
      assert (-a) * (-x) >= 0.0;
    }
  }

  lemma QuarterShare(x: real)
    requires x != 0.0
    ensures x / (4.0 * x) == 0.25
  {
    assert 0.25 * (4.0 * x) == x;
  }

  /** When the four channels carry equal absolute weight, each importance is 1/4. */
  lemma EqualChannelsEqualImportance(t: ConvWeights)
    requires WellShaped(t) && t.channels == 4
    requires forall c :: 0 <= c < 4 ==> AbsSums(t)[c] == AbsSums(t)[0]
    requires AbsSums(t)[0] != 0.0
    ensures Importance(t).Ok?
    ensures forall i :: 0 <= i < 4 ==> Importance(t).value[i].1 == 0.25
  {
    var sums := AbsSums(t);
    Sum4(sums);
    var total := Sum(sums);
    assert total == 4.0 * sums[0];
    QuarterShare(sums[0]);
    forall i | 0 <= i < 4 ensures Norms(t)[i] == 0.25 {
      assert Norms(t)[i] == sums[i] / total;
    }
  }
}
