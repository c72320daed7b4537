/**
 * The few JavaScript number operations the notebook code relies on, written
 * out on Dafny's unbounded integers and exact reals.
 */
module JsMath {

  /** `Math.PI`, the double closest to pi, as an exact decimal. */
  const Pi: real := 3.141592653589793

  /** `Math.abs` on integers. */
  function Abs(x: int): (r: nat)
    ensures r == x || r == -x
  {
    if x < 0 then -x else x
  }

  function MaxInt(a: int, b: int): (r: int)
    ensures r >= a && r >= b && (r == a || r == b)
  {
    if a >= b then a else b
  }

  function MinInt(a: int, b: int): (r: int)
    ensures r <= a && r <= b && (r == a || r == b)
  {
    if a <= b then a else b
  }

  function MinReal(a: real, b: real): (r: real)
    ensures r <= a && r <= b && (r == a || r == b)
  {
    if a <= b then a else b
  }

  /** `Math.sign`: -1, 0 or 1. */
  function Sign(x: real): (r: real)
    ensures (x > 0.0 ==> r == 1.0) && (x < 0.0 ==> r == -1.0) && (x == 0.0 ==> r == 0.0)
  {
    if x > 0.0 then 1.0 else if x < 0.0 then -1.0 else 0.0
  }

  /**
   * JavaScript's `a % n` on integer-valued numbers: the remainder has the sign
   * of the dividend (Dafny's `%` is Euclidean and never negative).
   */
  function Rem(a: int, n: int): (r: int)
    requires n != 0
    ensures a >= 0 ==> 0 <= r < Abs(n)
    ensures a < 0 ==> -(Abs(n) as int) < r <= 0
    ensures (a >= 0 && n > 0) ==> r == a % n
  {
    if a >= 0 then a % Abs(n) else -((-a) % Abs(n))
  }

  /** `Math.trunc`: rounds toward zero. */
  function Trunc(x: real): (r: int)
    ensures x >= 0.0 ==> r == x.Floor
    ensures x < 0.0 ==> r == -((-x).Floor)
  {
    if x >= 0.0 then x.Floor else -((-x).Floor)
  }

  /** JavaScript's `%` on numbers: `x - s * trunc(x / s)`. */
  function Fmod(x: real, s: real): real
    requires s != 0.0
  {
    x - s * (Trunc(x / s) as real)
  }

  /** `MathUtils.degToRad`. */
  function DegToRad(deg: real): real
  {
    deg * Pi / 180.0
  }
}
