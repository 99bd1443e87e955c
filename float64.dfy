/** Go's float64 as the control-chart engines use it: finite values are kept as
    exact reals (no rounding to 53 bits), while the IEEE 754 special values that
    division by zero and the square root of a negative number produce are kept
    explicitly. The sign of a zero is not tracked: every divisor in the engines
    is a converted unsigned count or a positive constant, so no division takes
    its sign from a negative zero. A value that rounds to a negative zero is
    kept as zero. */
module Float64 {

  datatype Float = Finite(v: real) | PosInf | NegInf | NaN

  const Zero: Float := Finite(0.0)

  /** The library square root. Only its sign on non-negative arguments is
      relied upon; it is a parameter of the engines, not a definition. */
  type SquareRoot = f: real -> real | forall x :: 0.0 <= x ==> 0.0 <= f(x)
    witness (x: real) => 0.0

  predicate IsInteger(x: real) {
    x == x.Floor as real
  }

  /** A finite value with at most three decimals; NaN and the infinities
      pass through rounding unchanged and are not constrained. */
  predicate HasThreeDecimals(a: Float) {
    a.Finite? ==> IsInteger(1000.0 * a.v)
  }

  /** A finite value with at most two decimals. */
  predicate HasTwoDecimals(a: Float) {
    a.Finite? ==> IsInteger(100.0 * a.v)
  }

  /** `float64(n)` for an unsigned count. */
  function FromNat(n: nat): Float {
    Finite(n as real)
  }

  predicate IsNegative(a: Float) {
    a.NegInf? || (a.Finite? && a.v < 0.0)
  }

  function Infinity(negative: bool): Float {
    if negative then NegInf else PosInf
  }

  function Neg(a: Float): Float {
    match a
    case Finite(x) => Finite(-x)
    case PosInf => NegInf
    case NegInf => PosInf
    case NaN => NaN
  }

  /** `a + b` under IEEE 754: NaN is contagious, a finite addend leaves an
      infinity unchanged, and only opposite infinities make a new NaN. */
  function Add(a: Float, b: Float): (r: Float)
    ensures a.Finite? && b.Finite? ==> r == Finite(a.v + b.v)
    ensures r.NaN? <==> a.NaN? || b.NaN? || (a.PosInf? && b.NegInf?) || (a.NegInf? && b.PosInf?)
    ensures a.Finite? && !b.Finite? ==> r == b
    ensures !a.Finite? && b.Finite? ==> r == a
    ensures (a.PosInf? && b.PosInf?) || (a.NegInf? && b.NegInf?) ==> r == a
  {
    if a.NaN? || b.NaN? then NaN
    else if a.Finite? && b.Finite? then Finite(a.v + b.v)
    else if a.Finite? then b
    else if b.Finite? then a
    else if a == b then a
    else NaN  // opposite infinities
  }

  /** `a - b`: NaN for NaN operands and for the difference of two equal
      infinities. */
  function Sub(a: Float, b: Float): (r: Float)
    ensures a.Finite? && b.Finite? ==> r == Finite(a.v - b.v)
    ensures r.NaN? <==> a.NaN? || b.NaN? || (a.PosInf? && b.PosInf?) || (a.NegInf? && b.NegInf?)
    ensures !a.Finite? && b.Finite? ==> r == a
    ensures a.Finite? && !b.Finite? && !b.NaN? ==> r == Neg(b)
    ensures (a.PosInf? && b.NegInf?) || (a.NegInf? && b.PosInf?) ==> r == a
  {
    Add(a, Neg(b))
  }

  /** `a * b`: NaN for NaN operands and for an infinity times zero; any other
      product with an infinity is infinite, negative exactly when one
      operand is. */
  function Mul(a: Float, b: Float): (r: Float)
    ensures a.Finite? && b.Finite? ==> r == Finite(a.v * b.v)
    ensures r.NaN? <==> a.NaN? || b.NaN? || (!a.Finite? && b == Zero) || (a == Zero && !b.Finite?)
    ensures !r.NaN? && !r.Finite? ==> r == Infinity(IsNegative(a) != IsNegative(b))
    ensures !a.NaN? && !b.NaN? && !(a.Finite? && b.Finite?) && a != Zero && b != Zero ==> !r.Finite? && !r.NaN?
  {
    if a.NaN? || b.NaN? then NaN
    else if a.Finite? && b.Finite? then Finite(a.v * b.v)
    else if a == Zero || b == Zero then NaN  // infinity times zero
    else Infinity(IsNegative(a) != IsNegative(b))
  }

  /** `a / b`: 0/0 and an infinity over an infinity are NaN, a non-zero
      finite value over zero is an infinity with the dividend's sign, and a
      finite value over an infinity is zero. */
  function Div(a: Float, b: Float): (r: Float)
    ensures a.Finite? && b.Finite? && b.v != 0.0 ==> r == Finite(a.v / b.v)
    ensures r.NaN? <==> a.NaN? || b.NaN? || (a == Zero && b == Zero) || (!a.Finite? && !b.Finite?)
    ensures a.Finite? && a.v != 0.0 && b == Zero ==> r == Infinity(a.v < 0.0)
    ensures a.Finite? && !b.Finite? && !b.NaN? ==> r == Zero
    ensures !a.Finite? && !a.NaN? && b.Finite? ==> r == Infinity(IsNegative(a) != IsNegative(b))
  {
    if a.NaN? || b.NaN? then NaN
    else if a.Finite? && b.Finite? then
      if b.v != 0.0 then Finite(a.v / b.v)
      else if a.v == 0.0 then NaN
      else Infinity(a.v < 0.0)
    else if !a.Finite? && !b.Finite? then NaN
    else if b.Finite? then Infinity(IsNegative(a) != IsNegative(b))
    else Zero  // finite divided by infinite
  }

  /** `a < b`; every comparison with NaN is false. */
  function Less(a: Float, b: Float): (r: bool)
    ensures a.NaN? || b.NaN? ==> !r
    ensures a.Finite? && b.Finite? ==> (r <==> a.v < b.v)
    ensures !a.NaN? && !b.NaN? && !a.Finite? ==> (r <==> a.NegInf? && !b.NegInf?)
    ensures !a.NaN? && !b.NaN? && !b.Finite? ==> (r <==> !a.PosInf? && b.PosInf?)
  {
    && !a.NaN? && !b.NaN?
    && if a.Finite? && b.Finite? then a.v < b.v
       else (a.NegInf? && !b.NegInf?) || (!a.PosInf? && b.PosInf?)
  }

  /** `math.Sqrt`: NaN below zero, +Inf at +Inf. */
  function Sqrt(root: SquareRoot, a: Float): (r: Float)
    ensures !IsNegative(r)
    ensures r.Finite? <==> a.Finite? && 0.0 <= a.v
    ensures a.PosInf? ==> r.PosInf?
    ensures IsNegative(a) || a.NaN? ==> r.NaN?
  {
    match a
    case Finite(x) => if x < 0.0 then NaN else Finite(root(x))
    case PosInf => PosInf
    case _ => NaN
  }

  /** The integer nearest to `x`, halves rounded away from zero. */
  function RoundHalfAwayFromZero(x: real): (n: int)
    ensures 0.0 <= x ==> x - 0.5 < n as real <= x + 0.5
    ensures x < 0.0 ==> x - 0.5 <= n as real < x + 0.5
  {
    if 0.0 <= x then (x + 0.5).Floor else -((-x + 0.5).Floor)
  }

  /** `math.Round`: NaN and the infinities are returned unchanged. */
  function Round(a: Float): (r: Float)
    ensures !a.Finite? ==> r == a
    ensures a.Finite? ==> r.Finite? && IsInteger(r.v) && -0.5 <= r.v - a.v <= 0.5
  {
    if a.Finite? then Finite(RoundHalfAwayFromZero(a.v) as real) else a
  }

  /** `math.Round(1000*a)/1000`: `a` kept to three decimals. */
  function RoundToThreeDecimals(a: Float): (r: Float)
    ensures !a.Finite? ==> r == a
    ensures a.Finite? ==> r.Finite?
    ensures HasThreeDecimals(r)
    ensures a.Finite? ==> -0.0005 <= r.v - a.v <= 0.0005
  {
    Div(Round(Mul(Finite(1000.0), a)), Finite(1000.0))
  }

  /** `math.Round(100*a)/100`: `a` kept to two decimals. */
  function RoundToTwoDecimals(a: Float): (r: Float)
    ensures !a.Finite? ==> r == a
    ensures a.Finite? ==> r.Finite?
    ensures HasTwoDecimals(r)
    ensures a.Finite? ==> -0.005 <= r.v - a.v <= 0.005
  {
    Div(Round(Mul(Finite(100.0), a)), Finite(100.0))
  }

  lemma RoundHalfAwayFromZeroMonotonic(x: real, y: real)
    requires x <= y
    ensures RoundHalfAwayFromZero(x) <= RoundHalfAwayFromZero(y)
  {
    if 0.0 <= x {
      assert (x + 0.5).Floor <= (y + 0.5).Floor;
    } else if y < 0.0 {
      assert (-y + 0.5).Floor <= (-x + 0.5).Floor;
    }
  }

  lemma RoundHalfAwayFromZeroWithin(x: real, lo: int, hi: int)
    requires lo as real <= x <= hi as real
    ensures lo <= RoundHalfAwayFromZero(x) <= hi
  {
    RoundHalfAwayFromZeroMonotonic(lo as real, x);
    RoundHalfAwayFromZeroMonotonic(x, hi as real);
  }

  /** Keeping two decimals preserves the order of finite values. */
  lemma RoundToTwoDecimalsMonotonic(a: Float, b: Float)
    requires a.Finite? && b.Finite? && a.v <= b.v
    ensures RoundToTwoDecimals(a).v <= RoundToTwoDecimals(b).v
  {
    RoundHalfAwayFromZeroMonotonic(100.0 * a.v, 100.0 * b.v);
  }

  /** A proportion kept to three decimals is still a proportion. */
  lemma RoundToThreeDecimalsKeepsProportion(a: Float)
    requires a.Finite? && 0.0 <= a.v <= 1.0
    ensures 0.0 <= RoundToThreeDecimals(a).v <= 1.0
  {
    RoundHalfAwayFromZeroWithin(1000.0 * a.v, 0, 1000);
  }

  /** A proportion kept to two decimals is still a proportion. */
  lemma RoundToTwoDecimalsKeepsProportion(a: Float)
    requires a.Finite? && 0.0 <= a.v <= 1.0
    ensures 0.0 <= RoundToTwoDecimals(a).v <= 1.0
  {
    RoundHalfAwayFromZeroWithin(100.0 * a.v, 0, 100);
  }

  lemma ProductNonNegative(x: real, y: real)
    requires 0.0 <= x && 0.0 <= y
    ensures 0.0 <= x * y
  {
  }

  lemma NegativeTimesPositive(x: real, n: real)
    requires x < 0.0 && 0.0 < n
    ensures x * n < 0.0
  {
  }

  lemma ScaleStrictly(x: real, y: real, n: real)
    requires x < y && 0.0 < n
    ensures x * n < y * n
  {
  }

  lemma QuotientNonNegative(x: real, n: real)
    requires 0.0 <= x && 0.0 < n
    ensures 0.0 <= x / n
  {
  }

  lemma ProductAsReal(a: nat, b: nat)
    ensures (a * b) as real == a as real * b as real
  {
  }

  /** A mean of values between 0 and `bound` lies between 0 and `bound`. */
  lemma MeanWithin(sum: real, n: real, bound: real, mean: real)
    requires 0.0 < n && mean == sum / n && 0.0 <= sum <= bound * n
    ensures 0.0 <= mean <= bound
  {
    assert mean * n == sum;
    if mean < 0.0 {
      NegativeTimesPositive(mean, n);
    }
    if bound < mean {
      ScaleStrictly(bound, mean, n);
    }
  }

  /** A quotient x / n with 0 <= x <= n is a proportion. */
  lemma QuotientWithinUnit(x: real, n: real)
    requires 0.0 < n && 0.0 <= x <= n
    ensures 0.0 <= x / n <= 1.0
  {
    MeanWithin(x, n, 1.0, x / n);
  }
}
