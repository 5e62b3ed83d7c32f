/** Three-component vectors (three.js `Vector3`) over exact reals. */
module Vectors {

  datatype Vec3 = Vec3(x: real, y: real, z: real)

  /** The world's up direction `(0, 1, 0)`. */
  const WorldUp: Vec3 := Vec3(0.0, 1.0, 0.0)

  function Add(a: Vec3, b: Vec3): Vec3 {
    Vec3(a.x + b.x, a.y + b.y, a.z + b.z)
  }

  function Sub(a: Vec3, b: Vec3): Vec3 {
    Vec3(a.x - b.x, a.y - b.y, a.z - b.z)
  }

  function Scale(a: Vec3, k: real): Vec3 {
    Vec3(a.x * k, a.y * k, a.z * k)
  }

  function Dot(a: Vec3, b: Vec3): real {
    a.x * b.x + a.y * b.y + a.z * b.z
  }

  function LengthSq(a: Vec3): real {
    Dot(a, a)
  }

  /** `crossVectors(a, b)`. */
  function Cross(a: Vec3, b: Vec3): Vec3 {
    Vec3(a.y * b.z - a.z * b.y, a.z * b.x - a.x * b.z, a.x * b.y - a.y * b.x)
  }

  /** `a.lerp(b, alpha)`: each component moves the fraction `alpha` of the way to `b`. */
  function Lerp(a: Vec3, b: Vec3, alpha: real): Vec3 {
    Vec3(a.x + (b.x - a.x) * alpha, a.y + (b.y - a.y) * alpha, a.z + (b.z - a.z) * alpha)
  }

  predicate IsUnit(v: Vec3) {
    LengthSq(v) == 1.0
  }

  predicate Horizontal(v: Vec3) {
    v.y == 0.0
  }

  /** Three mutually orthogonal unit vectors. */
  predicate Orthonormal(a: Vec3, b: Vec3, c: Vec3) {
    IsUnit(a) && IsUnit(b) && IsUnit(c) && Dot(a, b) == 0.0 && Dot(b, c) == 0.0 && Dot(a, c) == 0.0
  }

  /** Interpolating half-way gives the point equidistant from both ends. */
  lemma LerpHalfIsMidpoint(a: Vec3, b: Vec3)
    ensures Lerp(a, b, 0.5) == Scale(Add(a, b), 0.5)
    ensures LengthSq(Sub(Lerp(a, b, 0.5), a)) == LengthSq(Sub(Lerp(a, b, 0.5), b))
  {
    var m := Lerp(a, b, 0.5);
    assert Sub(m, a) == Scale(Sub(b, a), 0.5);
    assert Sub(m, b) == Scale(Sub(b, a), -0.5);
  }
}
