/**
 * JavaScript number arithmetic used by the simulation, over exact reals.
 *
 * JavaScript's `%` is a truncated remainder: `x % 1` keeps the sign of `x`.
 * The source wraps curve parameters into [0,1) with `((x % 1) + 1) % 1`.
 */
module JsNumber {

  /** Truncation toward zero (`Math.trunc`). */
  function Trunc(x: real): (n: int)
    ensures 0.0 <= x ==> n as real <= x < n as real + 1.0
    ensures x <= 0.0 ==> n as real - 1.0 < x <= n as real
  {
    if x >= 0.0 then x.Floor else -((-x).Floor)
  }

  /** The fractional part measured from below: `x - floor(x)`. */
  function Frac(x: real): (r: real)
    ensures 0.0 <= r < 1.0
    ensures (x - r).Floor as real == x - r
  {
    x - x.Floor as real
  }

  /** JavaScript's `x % 1`. */
  function JsMod1(x: real): (r: real)
    ensures 0.0 <= x ==> r == Frac(x)
    ensures x <= 0.0 ==> -1.0 < r <= 0.0
    ensures (x - r).Floor as real == x - r
  {
    x - Trunc(x) as real
  }

  /** The source's wrap-around `((x % 1) + 1) % 1`. */
  function Wrap(x: real): (r: real)
    ensures r == Frac(x)
    ensures 0.0 <= r < 1.0
  {
    assert JsMod1(x) + 1.0 == x + (1 - Trunc(x)) as real;
    FracShift(x, 1 - Trunc(x));
    JsMod1(JsMod1(x) + 1.0)
  }

  /** Shifting by a whole number does not change the fractional part. */
  lemma FracShift(x: real, n: int)
    ensures Frac(x + n as real) == Frac(x)
  {
    FloorUnique(x + n as real, x.Floor + n);
  }

  /** The floor is the one whole number within distance 1 below. */
  lemma FloorUnique(x: real, k: int)
    requires k as real <= x < k as real + 1.0
    ensures x.Floor == k
  {
  }

  /** A value already in [0,1) is its own fractional part. */
  lemma FracOfUnit(x: real)
    requires 0.0 <= x < 1.0
    ensures Frac(x) == x
  {
  }

  /** Adding to a wrapped value and wrapping again is wrapping the plain sum. */
  lemma FracAdd(a: real, b: real)
    ensures Frac(Frac(a) + b) == Frac(a + b)
  {
    FracShift(a + b, -(a.Floor));
  }

  /** On [-1, 1) the fractional part adds one to negative values and keeps the rest. */
  lemma FracOfSmall(d: real)
    requires -1.0 <= d < 1.0
    ensures Frac(d) == if d >= 0.0 then d else d + 1.0
  {
    if d >= 0.0 {
      FloorUnique(d, 0);
    } else {
      FloorUnique(d, -1);
    }
  }

  /** The difference of two wrapped values wraps to the wrapped difference. */
  lemma FracSub(a: real, b: real)
    ensures Frac(Frac(a) - Frac(b)) == Frac(a - b)
  {
    assert Frac(a) - Frac(b) == (a - b) + (b.Floor - a.Floor) as real;
    FracShift(a - b, b.Floor - a.Floor);
  }
}
