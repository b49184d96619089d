/**
 * Java number semantics that the animation code relies on, over unbounded
 * integers and reals: the `(int)` narrowing cast, 32-bit wrap-around,
 * `Math.round`, float division by zero, and the small helpers of
 * `MiscUtils` (lerp, clamp, contains, floorMod); and IEEE floats with
 * infinities and NaN (`Float`), their arithmetic and Java's comparisons on
 * them. A finite float is an exact real: rounding is not modelled.
 */
module JavaNum {

  const INT_MIN: int := -0x8000_0000
  const INT_MAX: int := 0x7fff_ffff
  const TWO_32: int := 0x1_0000_0000
  const LONG_MIN: int := -0x8000_0000_0000_0000
  const LONG_MAX: int := 0x7fff_ffff_ffff_ffff

  /** `Float.MAX_VALUE`, (2 - 2^-23) * 2^127. */
  const FLOAT_MAX: real := 340282346638528859811704183484516925440.0

  predicate IsInt32(x: int) { INT_MIN <= x <= INT_MAX }

  /** Rounds toward zero, as Java's `(int)` and `(long)` casts do. */
  function Trunc(x: real): (r: int)
    ensures 0.0 <= x ==> r as real <= x < r as real + 1.0
    ensures x < 0.0 ==> r as real - 1.0 < x <= r as real
  {
    if 0.0 <= x then x.Floor else -((-x).Floor)
  }

  /** Clamps an unbounded integer into the 32-bit range. */
  function Saturate(n: int): (r: int)
    ensures IsInt32(r)
    ensures IsInt32(n) ==> r == n
    ensures n < INT_MIN ==> r == INT_MIN
    ensures INT_MAX < n ==> r == INT_MAX
  {
    if n < INT_MIN then INT_MIN else if INT_MAX < n then INT_MAX else n
  }

  /** Clamps an unbounded integer into the 64-bit range, as the `(long)` cast does. */
  function SaturateLong(n: int): (r: int)
    ensures LONG_MIN <= r <= LONG_MAX
    ensures LONG_MIN <= n <= LONG_MAX ==> r == n
  {
    if n < LONG_MIN then LONG_MIN else if LONG_MAX < n then LONG_MAX else n
  }

  /** Java's `(int)` cast of a finite float: truncation, then saturation. */
  function ToInt(x: real): (r: int)
    ensures IsInt32(r)
    ensures IsInt32(Trunc(x)) ==> r == Trunc(x)
  {
    Saturate(Trunc(x))
  }

  /** The cast leaves a whole 32-bit value unchanged. */
  lemma ToIntWhole(n: int)
    requires IsInt32(n)
    ensures ToInt(n as real) == n
  {
  }

  /** Java `int` arithmetic: the result modulo 2^32, read as two's complement. */
  function Wrap32(n: int): (r: int)
    ensures IsInt32(r)
    ensures (n - r) % TWO_32 == 0
    ensures IsInt32(n) ==> r == n
  {
    var m := n % TWO_32;
    if m <= INT_MAX then m else m - TWO_32
  }

  /** `Math.round(float)`: the floor of x + 1/2, saturated to an int. */
  function Round(x: real): (r: int)
    ensures IsInt32(r)
    ensures IsInt32((x + 0.5).Floor) ==> r as real <= x + 0.5 < r as real + 1.0
  {
    Saturate((x + 0.5).Floor)
  }

  /** `MiscUtils.lerp(float, float, float)`. */
  function Lerp(a: real, b: real, p: real): (r: real)
    ensures p == 0.0 ==> r == a
    ensures p == 1.0 ==> r == b
    ensures 0.0 <= p <= 1.0 && a <= b ==> a <= r <= b
  {
    if 0.0 <= p <= 1.0 && a <= b then
      MulBetween(p, b - a);
      assert a + p * (b - a) <= a + (b - a);
      a + p * (b - a)
    else
      a + p * (b - a)
  }

  lemma MulBetween(p: real, d: real)
    requires 0.0 <= p <= 1.0 && 0.0 <= d
    ensures 0.0 <= p * d <= d
  {
    assert d - p * d == (1.0 - p) * d;
  }

  /** `MiscUtils.clamp(x, lo, hi)`, that is `max(lo, min(hi, x))`. */
  function Clamp(x: real, lo: real, hi: real): (r: real)
    ensures lo <= hi ==> lo <= r <= hi
    ensures lo <= x <= hi ==> r == x
    ensures x < lo ==> r == lo
    ensures lo <= hi && hi < x ==> r == hi
  {
    var m := if x < hi then x else hi;
    if m < lo then lo else m
  }

  /** `MiscUtils.contains(x, lo, hi)`: closed-interval membership. */
  predicate Contains(x: real, lo: real, hi: real)
  {
    lo <= x && x <= hi
  }

  /**
   * Real-valued floor modulus x - y * floor(x / y), written as y times the
   * fractional part of x / y: the representative of x modulo y that has the
   * sign of y.
   */
  function FloorMod(x: real, y: real): real
    requires y != 0.0
  {
    y * Fraction(x / y)
  }

  /** The fractional part q - floor(q), in [0, 1). */
  function Fraction(q: real): (t: real)
    ensures 0.0 <= t < 1.0
  {
    q - q.Floor as real
  }

  lemma FloorModBounds(x: real, y: real)
    requires y != 0.0
    ensures 0.0 < y ==> 0.0 <= FloorMod(x, y) < y
    ensures y < 0.0 ==> y < FloorMod(x, y) <= 0.0
  {
    ScaledFraction(y, Fraction(x / y), FloorMod(x, y));
  }

  /** A quotient of a part by a positive whole lies in [0, 1]. */
  lemma QuotientInUnit(x: real, d: real)
    requires 0.0 <= x <= d && 0.0 < d
    ensures 0.0 <= x / d <= 1.0
  {
    assert x / d * d == x;
  }

  /** The share of the rest of a whole is one minus the share of the part. */
  lemma ShareOfRest(x: real, d: real)
    requires d != 0.0
    ensures (d - x) / d == 1.0 - x / d
  {
    assert (d - x) / d == d / d - x / d;
  }

  predicate IsIntegral(x: real) { x.Floor as real == x }

  lemma MulPositive(a: real, b: real)
    requires 0.0 < a && 0.0 < b
    ensures 0.0 < a * b
  {
  }

  lemma ScaledFraction(y: real, t: real, p: real)
    requires 0.0 <= t < 1.0 && p == y * t
    ensures 0.0 < y ==> 0.0 <= p < y
    ensures y < 0.0 ==> y < p <= 0.0
  {
    if 0.0 < y {
      MulPositive(y, 1.0 - t);
      assert y - y * t == y * (1.0 - t);
    } else if y < 0.0 {
      MulPositive(-y, 1.0 - t);
      assert y * t - y == (-y) * (1.0 - t);
    }
  }

  function Abs(x: real): (r: real)
    ensures 0.0 <= r && (r == x || r == -x)
  {
    if x < 0.0 then -x else x
  }

  function Max(a: real, b: real): real { if a < b then b else a }
  function Min(a: real, b: real): real { if a < b then a else b }

  /** An IEEE float value as far as the modelled code can produce one. */
  datatype Float = Num(v: real) | PosInf | NegInf | NaN

  /** Float division, including division by zero. */
  function Div(a: real, b: real): (r: Float)
    ensures b != 0.0 ==> r == Num(a / b)
    ensures b == 0.0 ==> (r.Num? == false) && (r == NaN <==> a == 0.0)
    ensures b == 0.0 && 0.0 < a ==> r == PosInf
    ensures b == 0.0 && a < 0.0 ==> r == NegInf
  {
    if b != 0.0 then Num(a / b)
    else if 0.0 < a then PosInf
    else if a < 0.0 then NegInf
    else NaN
  }

  /*
   * IEEE float arithmetic on `Float`. Signed zeros are not told apart:
   * every zero is +0, which is what a difference x - x gives.
   */

  /** The sign of a value other than NaN: -1, 0 or 1. */
  function Sign(a: Float): int
  {
    match a
    case Num(x) => if 0.0 < x then 1 else if x < 0.0 then -1 else 0
    case PosInf => 1
    case NegInf => -1
    case NaN => 0
  }

  /** The infinity of sign `s`, or NaN for sign 0. */
  function Infinity(s: int): Float
  {
    if 0 < s then PosInf else if s < 0 then NegInf else NaN
  }

  function FNeg(a: Float): Float
  {
    match a
    case Num(x) => Num(-x)
    case PosInf => NegInf
    case NegInf => PosInf
    case NaN => NaN
  }

  /** Float `+`: an infinity absorbs a finite value, opposite infinities give NaN. */
  function FAdd(a: Float, b: Float): (r: Float)
    ensures a.Num? && b.Num? ==> r == Num(a.v + b.v)
    ensures a == NaN || b == NaN ==> r == NaN
    ensures a == PosInf && b == NegInf ==> r == NaN
    ensures a == NegInf && b == PosInf ==> r == NaN
    ensures !a.Num? || !b.Num? ==> !r.Num?
  {
    match (a, b)
    case (NaN, _) => NaN
    case (_, NaN) => NaN
    case (Num(x), Num(y)) => Num(x + y)
    case (PosInf, NegInf) => NaN
    case (NegInf, PosInf) => NaN
    case (PosInf, _) => PosInf
    case (NegInf, _) => NegInf
    case (_, _) => b
  }

  /** Float `-`. */
  function FSub(a: Float, b: Float): (r: Float)
    ensures a.Num? && b.Num? ==> r == Num(a.v - b.v)
    ensures a == NaN || b == NaN ==> r == NaN
    ensures a == b && !a.Num? ==> r == NaN
    ensures !a.Num? || !b.Num? ==> !r.Num?
  {
    FAdd(a, FNeg(b))
  }

  /** Float `*`: an infinity times zero is NaN, otherwise the signs multiply. */
  function FMul(a: Float, b: Float): (r: Float)
    ensures a.Num? && b.Num? ==> r == Num(a.v * b.v)
    ensures a == NaN || b == NaN ==> r == NaN
    ensures !a.Num? || !b.Num? ==> !r.Num?
  {
    if a == NaN || b == NaN then NaN
    else if a.Num? && b.Num? then Num(a.v * b.v)
    else Infinity(Sign(a) * Sign(b))
  }

  /**
   * Float `/`: division by zero as `Div` gives it, a finite value over an
   * infinity is 0, an infinity over an infinity is NaN.
   */
  function FDiv(a: Float, b: Float): (r: Float)
    ensures a.Num? && b.Num? ==> r == Div(a.v, b.v)
    ensures a == NaN || b == NaN ==> r == NaN
    ensures !a.Num? && !b.Num? ==> r == NaN
    ensures a.Num? && !b.Num? && b != NaN ==> r == Num(0.0)
  {
    if a == NaN || b == NaN then NaN
    else if a.Num? && b.Num? then Div(a.v, b.v)
    else if a.Num? then Num(0.0)
    else if b.Num? then Infinity(if b.v == 0.0 then Sign(a) else Sign(a) * Sign(b))
    else NaN
  }

  /** Java's `<` on floats: false whenever NaN takes part. */
  predicate FLt(a: Float, b: Float)
  {
    match (a, b)
    case (Num(x), Num(y)) => x < y
    case (NegInf, Num(_)) => true
    case (NegInf, PosInf) => true
    case (Num(_), PosInf) => true
    case (_, _) => false
  }

  /** Java's `==` on floats: NaN equals nothing, not even itself. */
  predicate FEq(a: Float, b: Float)
  {
    a != NaN && a == b
  }

  predicate FLe(a: Float, b: Float) { FLt(a, b) || FEq(a, b) }
  predicate FGt(a: Float, b: Float) { FLt(b, a) }
  predicate FGe(a: Float, b: Float) { FLe(b, a) }

  /** Floats other than NaN are totally ordered; NaN is unordered with everything. */
  lemma FloatOrder(a: Float, b: Float)
    ensures a != NaN && b != NaN ==> (FLt(a, b) || FEq(a, b) || FLt(b, a))
    ensures !(FLt(a, b) && FLt(b, a))
    ensures a == NaN || b == NaN ==> !FLt(a, b) && !FLe(a, b) && !FEq(a, b)
    ensures a.Num? && b.Num? ==> (FLt(a, b) <==> a.v < b.v) && (FEq(a, b) <==> a.v == b.v)
  {
  }

  /** Java's `(int)` cast of a float: NaN becomes 0 and the infinities the int range's ends. */
  function FToInt(x: Float): (r: int)
    ensures IsInt32(r)
    ensures x.Num? ==> r == ToInt(x.v)
    ensures x == NaN ==> r == 0
    ensures x == PosInf ==> r == INT_MAX
    ensures x == NegInf ==> r == INT_MIN
  {
    match x
    case Num(v) => ToInt(v)
    case PosInf => INT_MAX
    case NegInf => INT_MIN
    case NaN => 0
  }

  /** `MiscUtils.lerp(float, float, float)` in float arithmetic: a + p * (b - a). */
  function FLerp(a: Float, b: Float, p: Float): (r: Float)
    ensures a.Num? && b.Num? && p.Num? ==> r == Num(Lerp(a.v, b.v, p.v))
    ensures p == NaN || a == NaN || b == NaN ==> r == NaN
  {
    FAdd(a, FMul(p, FSub(b, a)))
  }
}
