/** Shared vocabulary of the sleep-quality model: the failures the Python code
    can raise, string-keyed dictionaries, exact sums of reals, and the
    one-night session record both chart modules read. */
module SleepData {

  /** The exceptions the modelled code raises, plus numpy's silent NaN. */
  datatype Error =
    | ZeroDivision              // ZeroDivisionError from `/` by zero
    | MissingKey(key: string)   // KeyError from `d[key]`
    | IndexOutOfRange           // IndexError from indexing past the end
    | EmptySeries               // fitting a trend line to an empty frame
    | NotANumber                // numpy's 0/0: every value becomes NaN

  datatype Option<T> = None | Some(value: T)

  datatype Result<T> = Ok(value: T) | Err(error: Error)

  /** A Python dict with string keys, as its insertion-ordered item list. */
  type Dict<V> = seq<(string, V)>

  /** `d[key]` when present: the value of the first item with that key. */
  function Get<V>(d: Dict<V>, key: string): Option<V>
  {
    if |d| == 0 then None
    else if d[0].0 == key then Some(d[0].1)
    else Get(d[1..], key)
  }

  predicate HasKey<V>(d: Dict<V>, key: string)
  {
    Get(d, key).Some?
  }

  /** `d.get(key, default)`. */
  function GetOr<V>(d: Dict<V>, key: string, default: V): V
  {
    match Get(d, key)
    case Some(v) => v
    case None => default
  }

  /** The invariant every Python dict keeps: no key occurs twice. */
  predicate DistinctKeys<V>(d: Dict<V>)
  {
    forall i, j :: 0 <= i < j < |d| ==> d[i].0 != d[j].0
  }

  /** A key that no item carries is absent. */
  lemma {:induction false} GetAbsent<V>(d: Dict<V>, key: string)
    requires forall i :: 0 <= i < |d| ==> d[i].0 != key
    ensures Get(d, key) == None
  {
    if |d| > 0 {
      GetAbsent(d[1..], key);
    }
  }

  /** The exact sum of a sequence of reals, first term first. */
  function Sum(s: seq<real>): real
  {
    if |s| == 0 then 0.0 else s[0] + Sum(s[1..])
  }

  /** `sum(d.values())`. */
  function SumValues(d: Dict<real>): real
  {
    if |d| == 0 then 0.0 else d[0].1 + SumValues(d[1..])
  }

  /** A constant factor comes out of a sum. */
  lemma {:induction false} SumScale(s: seq<real>, t: seq<real>, a: real)
    requires |s| == |t|
    requires forall i :: 0 <= i < |s| ==> t[i] == a * s[i]
    ensures Sum(t) == a * Sum(s)
  {
    if |s| > 0 {
      SumScale(s[1..], t[1..], a);
    }
  }

  /** Every term multiplied by `a`. */
  function ScaleSeq(a: real, s: seq<real>): (t: seq<real>)
    ensures |t| == |s| && forall i :: 0 <= i < |s| ==> t[i] == a * s[i]
  {
    seq(|s|, i requires 0 <= i < |s| => a * s[i])
  }

  lemma SumScaleSeq(a: real, s: seq<real>)
    ensures Sum(ScaleSeq(a, s)) == a * Sum(s)
  {
    SumScale(s, ScaleSeq(a, s), a);
  }

  /** A sum of non-negative terms is non-negative, and zero exactly when every term is. */
  lemma {:induction false} SumNonNegative(s: seq<real>)
    requires forall i :: 0 <= i < |s| ==> s[i] >= 0.0
    ensures Sum(s) >= 0.0
    ensures Sum(s) == 0.0 <==> forall i :: 0 <= i < |s| ==> s[i] == 0.0
  {
    if |s| > 0 {
      SumNonNegative(s[1..]);
      if Sum(s) == 0.0 {
        forall i | 0 <= i < |s| ensures s[i] == 0.0 {
          if i > 0 { assert s[i] == s[1..][i - 1]; }
        }
      }
    }
  }

  /** The order in which both pie charts list the sleep stages. */
  const STAGE_ORDER: seq<string> := ["deep", "rem", "light", "awake"]

  /** One wedge of a sleep-stage pie: its stage key, minutes and percentage of the total. */
  datatype StageShare = StageShare(stage: string, minutes: real, percent: real)

  /** What a pie chart is drawn from: its labels and its wedge sizes, in order. */
  datatype StageChart = StageChart(labels: seq<StageShare>, sizes: seq<real>)

  /** The four physiological time series of a night, in the model's channel order. */
  datatype Channel = HeartRate | Hrv | SpO2 | WristTemp

  /** One night's record; `startTime`/`endTime` are the parsed ISO-8601
      timestamps in microseconds since an epoch. */
  datatype SleepSession = SleepSession(
    startTime: int,
    endTime: int,
    heartRate: seq<real>,
    hrv: seq<real>,
    spo2: seq<real>,
    wristTemp: seq<real>,
    sleepStages: Dict<real>,
    date: string)

  function Samples(s: SleepSession, c: Channel): seq<real>
  {
    match c
    case HeartRate => s.heartRate
    case Hrv => s.hrv
    case SpO2 => s.spo2
    case WristTemp => s.wristTemp
  }
}
