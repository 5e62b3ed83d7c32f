/**
 * The host's `Math` object, passed as a value: the model does not fix the
 * values of pi, sine, cosine, square root or arctangent, only the identities
 * the placement arithmetic relies on (see `Valid`).
 */
module JsMath {
  import opened Vectors

  datatype MathLib = MathLib(
    pi: real,
    sin: real -> real,
    cos: real -> real,
    sqrt: real -> real,
    atan2: (real, real) -> real)

  /** The identities of the real functions that `Math` approximates. */
  ghost predicate Valid(m: MathLib) {
    && 3.14 < m.pi < 3.15
    && (forall a :: m.sin(a) * m.sin(a) + m.cos(a) * m.cos(a) == 1.0)
    && (forall a, b :: b == a + 2.0 * m.pi ==> m.sin(b) == m.sin(a) && m.cos(b) == m.cos(a))
    && (forall v :: 0.0 <= v ==> 0.0 <= m.sqrt(v) && m.sqrt(v) * m.sqrt(v) == v)
    && (forall y, x :: -m.pi <= m.atan2(y, x) <= m.pi)
  }

  /** three.js `normalize()`: divide by the length, or by 1 when the length is 0. */
  function Normalize(m: MathLib, v: Vec3): Vec3 {
    var len := m.sqrt(LengthSq(v));
    if len == 0.0 then v else Scale(v, 1.0 / len)
  }

  /** Normalizing a unit vector leaves it as it is. */
  lemma NormalizeUnit(m: MathLib, v: Vec3)
    requires Valid(m)
    requires IsUnit(v)
    ensures Normalize(m, v) == v
  {
    SqrtOne(m);
  }

  lemma SqrtOne(m: MathLib)
    requires Valid(m)
    ensures m.sqrt(1.0) == 1.0
  {
    var s := m.sqrt(1.0);
    assert 0.0 <= s && s * s == 1.0;
    if s < 1.0 {
      MulMonotone(s, s, 1.0);
      assert false;
    } else if s > 1.0 {
      assert false;
    }
  }

  /** Multiplying by a non-negative factor keeps the order. */
  lemma MulMonotone(a: real, b: real, c: real)
    requires 0.0 <= a && b <= c
    ensures a * b <= a * c
  {
  }
}
