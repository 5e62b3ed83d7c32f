/**
 * src/core/scene.js (and its twins js/curves.js, js/scene.js): the circular
 * track curve and the placement of an object on it.
 */
module Scene {
  import opened Vectors
  import opened JsMath
  import SimulationConfig

  /** `CircleCurve`: a horizontal circle of the given radius around the origin. */
  datatype CircleCurve = CircleCurve(radius: real)

  /** The shared track curve, of radius `TRACK.RADIUS`. */
  const TrackCurve: CircleCurve := CircleCurve(SimulationConfig.TrackRadius)

  function Theta(m: MathLib, t: real): real {
    2.0 * m.pi * t
  }

  /** `getPoint(t)`. */
  function GetPoint(m: MathLib, c: CircleCurve, t: real): Vec3 {
    Vec3(c.radius * m.cos(Theta(m, t)), 0.0, c.radius * m.sin(Theta(m, t)))
  }

  /** `getTangent(t)`. */
  function GetTangent(m: MathLib, c: CircleCurve, t: real): Vec3 {
    Normalize(m, Vec3(-m.sin(Theta(m, t)), 0.0, m.cos(Theta(m, t))))
  }

  /** `getNormal(t)`. */
  function GetNormal(m: MathLib, c: CircleCurve, t: real): Vec3 {
    Normalize(m, Vec3(-m.cos(Theta(m, t)), 0.0, -m.sin(Theta(m, t))))
  }

  lemma UnitCircle(m: MathLib, a: real)
    requires Valid(m)
    ensures IsUnit(Vec3(-m.sin(a), 0.0, m.cos(a)))
    ensures IsUnit(Vec3(-m.cos(a), 0.0, -m.sin(a)))
  {
    assert m.sin(a) * m.sin(a) + m.cos(a) * m.cos(a) == 1.0;
  }

  /** The point lies in the plane y = 0 at distance `radius` from the centre. */
  lemma PointOnCircle(m: MathLib, c: CircleCurve, t: real)
    requires Valid(m)
    ensures GetPoint(m, c, t).y == 0.0
    ensures LengthSq(GetPoint(m, c, t)) == c.radius * c.radius
  {
    var s, k := m.sin(Theta(m, t)), m.cos(Theta(m, t));
    assert s * s + k * k == 1.0;
    calc {
      LengthSq(GetPoint(m, c, t));
      (c.radius * k) * (c.radius * k) + (c.radius * s) * (c.radius * s);
      c.radius * c.radius * (k * k + s * s);
    }
  }

  /** The tangent is `(-sin, 0, cos)`: a horizontal unit vector orthogonal to the point. */
  lemma TangentIsUnitAndOrthogonal(m: MathLib, c: CircleCurve, t: real)
    requires Valid(m)
    ensures GetTangent(m, c, t) == Vec3(-m.sin(Theta(m, t)), 0.0, m.cos(Theta(m, t)))
    ensures IsUnit(GetTangent(m, c, t)) && Horizontal(GetTangent(m, c, t))
    ensures Dot(GetTangent(m, c, t), GetPoint(m, c, t)) == 0.0
  {
    TangentFormula(m, c, t);
    TangentIsUnit(m, c, t);
  }

  lemma TangentFormula(m: MathLib, c: CircleCurve, t: real)
    requires Valid(m)
    ensures GetTangent(m, c, t) == Vec3(-m.sin(Theta(m, t)), 0.0, m.cos(Theta(m, t)))
  {
    UnitCircle(m, Theta(m, t));
    NormalizeUnit(m, Vec3(-m.sin(Theta(m, t)), 0.0, m.cos(Theta(m, t))));
  }

  lemma TangentIsUnit(m: MathLib, c: CircleCurve, t: real)
    requires Valid(m)
    ensures IsUnit(GetTangent(m, c, t)) && Horizontal(GetTangent(m, c, t))
  {
    UnitCircle(m, Theta(m, t));
    TangentFormula(m, c, t);
  }

  /** The normal is the unit vector from the point toward the centre, orthogonal to the tangent. */
  lemma NormalPointsToCentre(m: MathLib, c: CircleCurve, t: real)
    requires Valid(m)
    ensures IsUnit(GetNormal(m, c, t)) && Horizontal(GetNormal(m, c, t))
    ensures Dot(GetNormal(m, c, t), GetTangent(m, c, t)) == 0.0
    ensures c.radius != 0.0 ==> GetNormal(m, c, t) == Scale(GetPoint(m, c, t), -1.0 / c.radius)
  {
    var a := Theta(m, t);
    UnitCircle(m, a);
    NormalizeUnit(m, Vec3(-m.cos(a), 0.0, -m.sin(a)));
    TangentIsUnitAndOrthogonal(m, c, t);
    if c.radius != 0.0 {
      assert c.radius * m.cos(a) * (-1.0 / c.radius) == -m.cos(a);
      assert c.radius * m.sin(a) * (-1.0 / c.radius) == -m.sin(a);
    }
  }

  /** Parameters one apart give the same point, tangent and normal. */
  lemma CurveIsPeriodic(m: MathLib, c: CircleCurve, t: real)
    requires Valid(m)
    ensures GetPoint(m, c, t + 1.0) == GetPoint(m, c, t)
    ensures GetTangent(m, c, t + 1.0) == GetTangent(m, c, t)
    ensures GetNormal(m, c, t + 1.0) == GetNormal(m, c, t)
  {
    assert Theta(m, t + 1.0) == Theta(m, t) + 2.0 * m.pi;
  }

  /** The orientation handed to `makeBasis`, or the pose left by `lookAt` or a new object. */
  datatype Orientation =
    | Identity
    | Basis(right: Vec3, up: Vec3, forward: Vec3)
    | FacingToward(target: Vec3)

  /** `right = normalize(up x forward)` with the world up. */
  function FrameRight(m: MathLib, forward: Vec3): Vec3 {
    Normalize(m, Cross(WorldUp, forward))
  }

  /** The corrected up, `normalize(forward x right)`. */
  function FrameUp(m: MathLib, forward: Vec3): Vec3 {
    Normalize(m, Cross(forward, FrameRight(m, forward)))
  }

  /** For a horizontal unit forward vector the frame is exact: right = (fz, 0, -fx), up = (0, 1, 0). */
  lemma HorizontalFrame(m: MathLib, f: Vec3)
    requires Valid(m)
    requires Horizontal(f) && IsUnit(f)
    ensures FrameRight(m, f) == Vec3(f.z, 0.0, -f.x)
    ensures FrameUp(m, f) == WorldUp
  {
    HorizontalCross(f);
    NormalizeUnit(m, Vec3(f.z, 0.0, -f.x));
    NormalizeUnit(m, WorldUp);
  }

  lemma HorizontalCross(f: Vec3)
    requires Horizontal(f) && IsUnit(f)
    ensures Cross(WorldUp, f) == Vec3(f.z, 0.0, -f.x)
    ensures Cross(f, Vec3(f.z, 0.0, -f.x)) == WorldUp
    ensures Orthonormal(Vec3(f.z, 0.0, -f.x), WorldUp, f)
  {
  }

  /** Where `setObjectOnCurve` puts an object: the curve point raised by `yOffset`. */
  function PositionOnCurve(m: MathLib, c: CircleCurve, t: real, yOffset: real): (r: Vec3)
    ensures r.x == GetPoint(m, c, t).x && r.z == GetPoint(m, c, t).z
    ensures r.y == yOffset
  {
    var p := GetPoint(m, c, t);
    Vec3(p.x, p.y + yOffset, p.z)
  }

  /** How `setObjectOnCurve` turns an object: the basis (right, up, forward) along the tangent. */
  function OrientationOnCurve(m: MathLib, c: CircleCurve, t: real): Orientation {
    var forward := GetTangent(m, c, t);
    Basis(FrameRight(m, forward), FrameUp(m, forward), forward)
  }

  /**
   * An object placed on the curve faces along the horizontal unit tangent and
   * stays upright; by `HorizontalCross` that basis is orthonormal.
   */
  lemma PlacementOnCurve(m: MathLib, c: CircleCurve, t: real, yOffset: real)
    requires Valid(m)
    ensures var f := GetTangent(m, c, t);
      && OrientationOnCurve(m, c, t) == Basis(Vec3(f.z, 0.0, -f.x), WorldUp, f)
      && Horizontal(f) && IsUnit(f)
  {
    TangentIsUnit(m, c, t);
    FrameOnCurve(m, c, t, GetTangent(m, c, t));
  }

  lemma FrameOnCurve(m: MathLib, c: CircleCurve, t: real, f: Vec3)
    requires Valid(m)
    requires f == GetTangent(m, c, t) && Horizontal(f) && IsUnit(f)
    ensures OrientationOnCurve(m, c, t) == Basis(Vec3(f.z, 0.0, -f.x), WorldUp, f)
  {
    HorizontalFrame(m, f);
  }

  /** A scene-graph object (`THREE.Object3D`): only its pose is modelled. */
  class SceneObject {
    var position: Vec3
    var orientation: Orientation

    constructor ()
      ensures position == Vec3(0.0, 0.0, 0.0) && orientation == Identity
    {
      position := Vec3(0.0, 0.0, 0.0);
      orientation := Identity;
    }
  }

  /** The scene: the set of objects that are rendered. */
  class SceneGraph {
    var members: set<SceneObject>

    constructor ()
      ensures members == {}
    {
      members := {};
    }

    method Add(o: SceneObject)
      modifies this
      ensures members == old(members) + {o}
    {
      members := members + {o};
    }

    method Remove(o: SceneObject)
      modifies this
      ensures members == old(members) - {o}
    {
      members := members - {o};
    }
  }

  /** `setObjectOnCurve(obj, curve, t, yOffset = 0)`. */
  method SetObjectOnCurve(obj: SceneObject, m: MathLib, c: CircleCurve, t: real, yOffset: real := 0.0)
    modifies obj
    ensures obj.position == PositionOnCurve(m, c, t, yOffset)
    ensures obj.orientation == OrientationOnCurve(m, c, t)
  {
    var point := GetPoint(m, c, t);
    var tangent := GetTangent(m, c, t);
    obj.position := Vec3(point.x, point.y + yOffset, point.z);

    var up := WorldUp;
    var forward := tangent;
    var right := Normalize(m, Cross(up, forward));
    up := Normalize(m, Cross(forward, right));

    obj.orientation := Basis(right, up, forward);
  }
}
