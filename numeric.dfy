/** The float arithmetic of the percentage-change columns, on exact reals with
    explicit infinities and NaN. */
module Numeric {
  import opened Wrappers

  /** A computed percentage change: a finite value, an infinity from dividing a
      non-zero number by zero, or NaN (0/0, or a missing operand). */
  datatype Change = Fin(value: real) | PosInf | NegInf | NaN {
    /** `math.isinf`: true for both infinities and false for NaN. */
    predicate IsInf() {
      PosInf? || NegInf?
    }
  }

  /** numpy's `rint`: to the nearest integer, ties to the even one. */
  function RoundHalfEven(x: real): (n: int)
    ensures -0.5 <= n as real - x <= 0.5
  {
    var f := x.Floor;
    var frac := x - f as real;
    if frac < 0.5 then f
    else if frac > 0.5 then f + 1
    else if f % 2 == 0 then f
    else f + 1
  }

  /** `round(x, 3)`: `rint(x * 1000) / 1000`. */
  function Round3(x: real): (r: real)
    ensures -0.0005 <= r - x <= 0.0005
  {
    RoundHalfEven(x * 1000.0) as real / 1000.0
  }

  /** A value with at most three decimals is left as it is by rounding. */
  lemma Round3Exact(n: int)
    ensures Round3(n as real / 1000.0) == n as real / 1000.0
  {
    assert (n as real / 1000.0) * 1000.0 == n as real;
    assert (n as real).Floor == n;
  }

  /** `round` applied to a cell that may be NaN. */
  function RoundCell(v: Option<real>): (r: Option<real>)
    ensures r.None? <==> v.None?
    ensures r.Some? ==> -0.0005 <= r.value - v.value <= 0.0005
  {
    match v
    case None => None
    case Some(x) => Some(Round3(x))
  }

  /** `round((cur - prev) / prev * 100, 3)` under IEEE rules: division of a
      non-zero number by zero is an infinity of its sign, 0/0 and any missing
      operand give NaN. */
  function PercentChange(cur: Option<real>, prev: Option<real>): (c: Change)
    ensures c.IsInf() <==> cur.Some? && prev == Some(0.0) && cur.value != 0.0
    ensures c == PosInf <==> cur.Some? && prev == Some(0.0) && cur.value > 0.0
    ensures c.NaN? <==> cur.None? || prev.None? || (prev == Some(0.0) && cur == Some(0.0))
    ensures c.Fin? ==> prev.Some? && prev.value != 0.0 && cur.Some?
    ensures c.Fin? ==> -0.0005 <= c.value - (cur.value - prev.value) / prev.value * 100.0 <= 0.0005
  {
    match (cur, prev)
    case (Some(x), Some(p)) =>
      if p != 0.0 then Fin(Round3((x - p) / p * 100.0))
      else if x > 0.0 then PosInf
      else if x < 0.0 then NegInf
      else NaN
    case _ => NaN
  }

  /** The change of a value against itself is 0 unless the value is 0. */
  lemma PercentChangeAgainstItself(x: real)
    ensures x != 0.0 ==> PercentChange(Some(x), Some(x)) == Fin(0.0)
    ensures x == 0.0 ==> PercentChange(Some(x), Some(x)) == NaN
  {
    if x != 0.0 {
      Round3Exact(0);
    }
  }
}
