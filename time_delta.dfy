/** Integer arithmetic of Python's datetime.timedelta on microseconds, and the
    truncating int() conversion, with the bounds each guarantees. */
module TimeDelta {

  const MICROS_PER_SECOND: int := 1_000_000

  /** `timedelta / int` for a positive divisor: the microsecond count divided
      and rounded to the nearest integer, halves going to the even neighbour. */
  function DivNearest(a: int, b: int): (q: int)
    requires b > 0
    ensures -b <= 2 * (a - q * b) <= b
    ensures 2 * (a - q * b) == b || 2 * (a - q * b) == -b ==> q % 2 == 0
  {
    var q0, r := a / b, a % b;
    assert a == q0 * b + r && 0 <= r < b;
    NextMultiple(q0, b);
    assert a - q0 * b == r && a - (q0 + 1) * b == r - b;
    if 2 * r > b || (2 * r == b && q0 % 2 == 1) then q0 + 1 else q0
  }

  /** The multiple after `q * b` is `q * b + b`. */
  lemma NextMultiple(q: int, b: int)
    ensures (q + 1) * b == q * b + b
  {
  }

  /** `int(a / b)` for a positive divisor: the quotient truncated toward zero. */
  function TruncDiv(a: int, b: int): (q: int)
    requires b > 0
    ensures a >= 0 ==> 0 <= q * b <= a < q * b + b
    ensures a < 0 ==> q * b - b < a <= q * b <= 0
  {
    if a >= 0 then
      FloorDivBounds(a, b);
      a / b
    else
      var p := (-a) / b;
      FloorDivBounds(-a, b);
      assert (-p) * b == -(p * b);
      -p
  }

  lemma FloorDivBounds(a: int, b: int)
    requires a >= 0 && b > 0
    ensures 0 <= (a / b) * b <= a < (a / b) * b + b
  {
    var q, r := a / b, a % b;
    assert a == q * b + r && 0 <= r < b;
    assert q >= 0;
    MulMonotone(0, q, b);
  }

  lemma MulMonotone(x: int, y: int, k: int)
    requires x <= y && k >= 0
    ensures x * k <= y * k
  {
  }

  /** An exact multiple is divided without rounding. */
  lemma DivNearestExact(k: int, b: int)
    requires b > 0
    ensures DivNearest(k * b, b) == k
  {
    var q := DivNearest(k * b, b);
    var e := k - q;
    assert k * b - q * b == e * b;
    if e >= 1 {
      MulMonotone(1, e, b);
    } else if e <= -1 {
      MulMonotone(e, -1, b);
    }
  }

  /** Rounding never reverses the order of two dividends. */
  lemma DivNearestMonotone(a1: int, a2: int, b: int)
    requires b > 0 && a1 <= a2
    ensures DivNearest(a1, b) <= DivNearest(a2, b)
  {
    var q1, q2 := DivNearest(a1, b), DivNearest(a2, b);
    var k := q1 - q2;
    assert k * b == q1 * b - q2 * b;
    assert k * b <= b;
    FactorAtMostOne(k, b);
    NextMultiple(q2, b);
  }

  lemma FactorAtMostOne(k: int, b: int)
    requires b > 0 && k * b <= b
    ensures k <= 1
  {
    var e := k - 1;
    assert e * b <= 0;
    SignOfProduct(e, b);
  }

  lemma SignOfProduct(e: int, b: int)
    requires b > 0 && e * b <= 0
    ensures e <= 0
  {
    var m := if e >= 0 then e else 0;
    MulMonotone(0, m, b);
  }

  /** Dividends more than one divisor apart round to distinct results. */
  lemma DivNearestApart(a1: int, a2: int, b: int)
    requires b > 0 && a2 - a1 > b
    ensures DivNearest(a1, b) < DivNearest(a2, b)
  {
    var q1, q2 := DivNearest(a1, b), DivNearest(a2, b);
    var k := q2 - q1;
    assert k * b == q2 * b - q1 * b;
    assert k * b > 0;
    PositiveFactor(k, b);
  }

  lemma PositiveFactor(k: int, b: int)
    requires b > 0 && k * b > 0
    ensures k > 0
  {
    assert (-k) * b == -(k * b);
    SignOfProduct(-k, b);
    assert k != 0;
  }

  lemma HalfBound(x: real, y: real)
    requires y > 0.0 && -y <= 2.0 * x <= y
    ensures -0.5 <= x / y <= 0.5
  {
    var t := x / y;
    assert x == t * y;
    assert (t - 0.5) * y <= 0.0;
    assert (t + 0.5) * y >= 0.0;
  }

  /** The rounded quotient lies within one half of the exact one. */
  lemma DivNearestNear(a: int, b: int)
    requires b > 0
    ensures -0.5 <= DivNearest(a, b) as real - (a as real) / (b as real) <= 0.5
  {
    NearQuotient(a, b, DivNearest(a, b));
  }

  /** Any quotient whose remainder is at most half the divisor either way lies
      within one half of the exact quotient. */
  lemma NearQuotient(a: int, b: int, q: int)
    requires b > 0 && -b <= 2 * (a - q * b) <= b
    ensures -0.5 <= q as real - (a as real) / (b as real) <= 0.5
  {
    var e := a - q * b;
    var br, er := b as real, e as real;
    assert a as real == (q * b) as real + er;
    assert (q * b) as real == (q as real) * br;
    assert (a as real) / br == q as real + er / br;
    assert -br <= 2.0 * er <= br;
    HalfBound(er, br);
  }
}
