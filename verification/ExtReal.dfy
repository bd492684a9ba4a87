/** float64 without rounding or overflow: real numbers, the infinities and NaN, with the operations of sections 7.2
    and 7.3 of IEEE 754-2019. There is one zero, which counts as positive when it divides. */
module ExtReal {
  import opened Decimal

  datatype Float = Fin(r: real) | PosInf | NegInf | NaN {

    predicate IsZero() { this == Fin(0.0) }

    predicate Negative() { NegInf? || (Fin? && r < 0.0) }

    function Plus(y: Float): Float {
      if Fin? && y.Fin? then Fin(r + y.r)
      else if NaN? || y.NaN? then NaN
      else if Fin? then y
      else if y.Fin? || this == y then this
      else NaN
    }

    function Times(y: Float): Float {
      if Fin? && y.Fin? then Fin(r * y.r)
      else if NaN? || y.NaN? || IsZero() || y.IsZero() then NaN
      else Infinity(Negative() != y.Negative())
    }

    function Over(y: Float): Float {
      if NaN? || y.NaN? then NaN
      else if !Fin? then (if y.Fin? then Infinity(Negative() != y.Negative()) else NaN)
      else if !y.Fin? then Fin(0.0)
      else if y.r != 0.0 then Fin(r / y.r)
      else if r == 0.0 then NaN
      else Infinity(Negative())
    }

    /** The value itself unless it is NaN. */
    function OrZero(): Float {
      if NaN? then Fin(0.0) else this
    }

    /** What %f prints, read back: six decimals of a number, and the infinities and NaN as they are. */
    function Formatted(): Float {
      if Fin? then Fin(Rounded6(r)) else this
    }
  }

  function Infinity(negative: bool): Float {
    if negative then NegInf else PosInf
  }

  /** The invalid operations of section 7.2, the divisions by zero of section 7.3, and the infinities. */
  lemma SpecialCases(x: real)
    ensures PosInf.Plus(NegInf) == NaN && NegInf.Plus(PosInf) == NaN
    ensures PosInf.Plus(PosInf) == PosInf && PosInf.Plus(Fin(x)) == Fin(x).Plus(PosInf) == PosInf
    ensures Fin(0.0).Times(PosInf) == PosInf.Times(Fin(0.0)) == Fin(0.0).Times(NegInf) == NaN
    ensures x > 0.0 ==> Fin(x).Times(PosInf) == NegInf.Times(Fin(-x)) == PosInf
    ensures x < 0.0 ==> Fin(x).Times(PosInf) == NegInf.Times(Fin(-x)) == NegInf
    ensures Fin(0.0).Over(Fin(0.0)) == NaN && PosInf.Over(PosInf) == NegInf.Over(PosInf) == NaN
    ensures x > 0.0 ==> Fin(x).Over(Fin(0.0)) == PosInf && Fin(-x).Over(Fin(0.0)) == NegInf && NegInf.Over(Fin(-x)) == PosInf
    ensures Fin(x).Over(PosInf) == Fin(x).Over(NegInf) == Fin(0.0)
    ensures NaN.Plus(Fin(x)) == Fin(x).Plus(NaN) == NaN.Times(Fin(x)) == Fin(x).Times(NaN) == NaN.Over(Fin(x)) == Fin(x).Over(NaN) == NaN
  {
  }

  function Rounded6(x: real): real {
    Round(x * 1000000.0) as real / 1000000.0
  }

  /** Half a unit of the sixth decimal. */
  const E6: real := 0.0000005

  function Abs(x: real): real {
    if x < 0.0 then -x else x
  }

  function Mul(x: real, y: real): real {
    x * y
  }

  lemma Product(x: real, d: real, e: real)
    requires x >= 0.0 && Abs(d) <= e
    ensures Abs(Mul(x, d)) <= Mul(x, e)
  {
    assert x * d <= x * e && x * -d <= x * e;
  }

  /** x is y to six decimals. */
  ghost predicate IsNear(x: Float, y: real) {
    x.Fin? && Abs(x.r - y) <= E6 && exists n: int :: IsMillionths(x.r, n)
  }

  ghost predicate IsMillionths(x: real, n: int) {
    x == n as real / 1000000.0
  }

  lemma FormattedIsNear(y: real)
    ensures IsNear(Fin(y).Formatted(), y)
  {
    Rounded6IsNear(y);
    assert IsMillionths(Rounded6(y), Round(y * 1000000.0));
  }

  lemma Rounded6IsNear(x: real)
    ensures Abs(Rounded6(x) - x) <= E6
  {
    RoundIsNear(x * 1000000.0);
  }

  lemma Rounded6OfZero()
    ensures Rounded6(0.0) == 0.0
  {
  }
}
