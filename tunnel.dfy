/**
 * src/components/environment/tunnel.js: the tunnel's path over the track,
 * the tunnel record `createTunnel` returns, and the footprint test
 * `isInTunnelArea` that keeps trees off the tunnel.
 */
module Tunnel {
  import opened Wrappers
  import opened Vectors
  import opened JsMath
  import opened JsNumber
  import Scene
  import SimulationConfig

  /** The smallest arc the tunnel path accepts; shorter arcs are raised to it. */
  const MinArcLength: real := 0.01

  /** `TunnelPathCurve`: a stretch of the main curve, lifted to a fixed height. */
  datatype TunnelPathCurve = TunnelPathCurve(
    mainCurve: Scene.CircleCurve,
    tStart: real,
    tEnd: real,
    arcLength: real,
    pathElevation: real)

  /** What `createTunnel` returns besides the mesh. */
  datatype TunnelData = TunnelData(
    startT: real,
    endT: real,
    pathRadius: real,
    outerWidth: real,
    length: real)

  /** The arc from `tStart` forward to `tEnd`, before the minimum is applied. */
  function RawArc(tStart: real, tEnd: real): real {
    if tEnd >= tStart then tEnd - tStart else (1.0 - tStart) + tEnd
  }

  /** The constructor of `TunnelPathCurve`. */
  function NewTunnelPath(mainCurve: Scene.CircleCurve, tStart: real, tEnd: real, pathElevation: real): (p: TunnelPathCurve)
    ensures p.mainCurve == mainCurve && p.tStart == tStart && p.tEnd == tEnd
    ensures p.pathElevation == pathElevation
    ensures p.arcLength >= MinArcLength
    ensures RawArc(tStart, tEnd) >= MinArcLength ==> p.arcLength == RawArc(tStart, tEnd)
    ensures RawArc(tStart, tEnd) < MinArcLength ==> p.arcLength == MinArcLength
  {
    var arc := RawArc(tStart, tEnd);
    TunnelPathCurve(mainCurve, tStart, tEnd, if arc < MinArcLength then MinArcLength else arc, pathElevation)
  }

  /** For parameters in [0,1), the raw arc is the forward distance from start to end. */
  lemma ArcIsForwardDistance(tStart: real, tEnd: real)
    requires 0.0 <= tStart < 1.0 && 0.0 <= tEnd < 1.0
    ensures RawArc(tStart, tEnd) == Frac(tEnd - tStart)
    ensures 0.0 <= RawArc(tStart, tEnd) < 1.0
  {
    FracOfSmall(tEnd - tStart);
  }

  /** The main-curve parameter that path parameter `t` maps to. */
  function ActualParam(p: TunnelPathCurve, t: real): real {
    Advance(p.tStart, p.tEnd, Share(t, p.arcLength))
  }

  /** How far along an arc of length `x` the path parameter `t` is: `t * x`. */
  function Share(t: real, x: real): real {
    t * x
  }

  /** Going `d` past `tStart`, wrapped with `% 1` only when the tunnel crosses the seam. */
  function Advance(tStart: real, tEnd: real, d: real): real {
    if tEnd >= tStart then tStart + d else JsMod1(tStart + d)
  }

  /** `getPoint(t)`: the main curve's point at the mapped parameter, at the path's height. */
  function GetPoint(m: MathLib, p: TunnelPathCurve, t: real): (r: Vec3)
    ensures r.y == p.pathElevation
    ensures var q := Scene.GetPoint(m, p.mainCurve, ActualParam(p, t)); r.x == q.x && r.z == q.z
  {
    var q := Scene.GetPoint(m, p.mainCurve, ActualParam(p, t));
    Vec3(q.x, p.pathElevation, q.z)
  }

  /** `getTangent(t)`: the main curve's tangent at the mapped parameter. */
  function GetTangent(m: MathLib, p: TunnelPathCurve, t: real): Vec3 {
    Scene.GetTangent(m, p.mainCurve, ActualParam(p, t))
  }

  /**
   * The path runs over the track circle at its own height, and its tangent is
   * a horizontal unit vector.
   */
  lemma PathFollowsTrack(m: MathLib, p: TunnelPathCurve, t: real)
    requires Valid(m)
    ensures var r := GetPoint(m, p, t);
      r.x * r.x + r.z * r.z == p.mainCurve.radius * p.mainCurve.radius && r.y == p.pathElevation
    ensures IsUnit(GetTangent(m, p, t)) && Horizontal(GetTangent(m, p, t))
  {
    Scene.PointOnCircle(m, p.mainCurve, ActualParam(p, t));
    Scene.TangentIsUnit(m, p.mainCurve, ActualParam(p, t));
  }

  /**
   * When the minimum did not apply, the path starts at `tStart` and ends at
   * `tEnd`, also when it crosses the seam t = 0.
   */
  lemma PathEndpoints(mainCurve: Scene.CircleCurve, tStart: real, tEnd: real, pathElevation: real)
    requires 0.0 <= tStart < 1.0 && 0.0 <= tEnd < 1.0
    requires RawArc(tStart, tEnd) >= MinArcLength
    ensures var p := NewTunnelPath(mainCurve, tStart, tEnd, pathElevation);
      ActualParam(p, 0.0) == tStart && ActualParam(p, 1.0) == tEnd
  {
    var p := NewTunnelPath(mainCurve, tStart, tEnd, pathElevation);
    if tEnd < tStart {
      FracOfUnit(tStart);
      assert tStart + 1.0 * p.arcLength == tEnd + 1.0;
      FracShift(tEnd, 1);
      FracOfUnit(tEnd);
    }
  }

  /**
   * The arc test of `isInTunnelArea`: a closed interval, or the union of the
   * two pieces when the tunnel crosses the seam.
   */
  predicate InArc(pointT: real, startT: real, endT: real) {
    if startT <= endT then pointT >= startT && pointT <= endT
    else pointT >= startT || pointT <= endT
  }

  /**
   * For parameters in [0,1), a point is in the arc exactly when its forward
   * distance from the start is at most the end's.
   */
  lemma InArcIsForwardDistance(pointT: real, startT: real, endT: real)
    requires 0.0 <= pointT < 1.0 && 0.0 <= startT < 1.0 && 0.0 <= endT < 1.0
    ensures InArc(pointT, startT, endT) <==> Frac(pointT - startT) <= Frac(endT - startT)
  {
    FracOfSmall(pointT - startT);
    FracOfSmall(endT - startT);
  }

  /**
   * A path parameter `t` in [0,1] asks `Advance` for a distance `t * arcLength`
   * between 0 and the arc's length (`ScaledWithin`). Any such distance lands
   * in [0,1), exactly that far ahead of the start.
   */
  lemma PathOffset(p: TunnelPathCurve, d: real)
    requires 0.0 <= p.tStart < 1.0 && 0.0 <= p.tEnd < 1.0
    requires p.arcLength == RawArc(p.tStart, p.tEnd)
    requires 0.0 <= d <= p.arcLength
    ensures 0.0 <= Advance(p.tStart, p.tEnd, d) < 1.0
    ensures Frac(Advance(p.tStart, p.tEnd, d) - p.tStart) == d
  {
    ArcIsForwardDistance(p.tStart, p.tEnd);
    ForwardOffset(p.tStart, p.tEnd, d);
  }

  /** Every point of the path lies over the tunnel's arc. */
  lemma PathStaysInArc(p: TunnelPathCurve, d: real)
    requires 0.0 <= p.tStart < 1.0 && 0.0 <= p.tEnd < 1.0
    requires p.arcLength == RawArc(p.tStart, p.tEnd)
    requires 0.0 <= d <= p.arcLength
    ensures InArc(Advance(p.tStart, p.tEnd, d), p.tStart, p.tEnd)
  {
    PathOffset(p, d);
    ArcIsForwardDistance(p.tStart, p.tEnd);
    WithinArc(Advance(p.tStart, p.tEnd, d), p.tStart, p.tEnd, d);
  }

  /**
   * Over the path parameter: for every `t` in [0,1] -- the range `TubeGeometry`
   * samples -- the path's point lies over the tunnel's arc.
   */
  lemma PathParamStaysInArc(p: TunnelPathCurve, t: real)
    requires 0.0 <= p.tStart < 1.0 && 0.0 <= p.tEnd < 1.0
    requires p.arcLength == RawArc(p.tStart, p.tEnd)
    requires 0.0 <= t <= 1.0
    ensures InArc(ActualParam(p, t), p.tStart, p.tEnd)
  {
    ArcIsForwardDistance(p.tStart, p.tEnd);
    ScaledWithin(t, p.arcLength);
    PathStaysInArc(p, Share(t, p.arcLength));
  }

  /** A point no further ahead of the start than the end is in the arc. */
  lemma WithinArc(a: real, s: real, e: real, d: real)
    requires 0.0 <= a < 1.0 && 0.0 <= s < 1.0 && 0.0 <= e < 1.0
    requires Frac(a - s) == d && d <= Frac(e - s)
    ensures InArc(a, s, e)
  {
    InArcIsForwardDistance(a, s, e);
  }

  /** A share `t` in [0,1] of a non-negative `x` lies between 0 and `x`. */
  lemma ScaledWithin(t: real, x: real)
    requires 0.0 <= t <= 1.0 && 0.0 <= x
    ensures 0.0 <= Share(t, x) <= x
  {
    MulMonotone(x, t, 1.0);
    MulMonotone(x, 0.0, t);
    assert x * t <= x;
    assert 0.0 <= x * t;
  }

  /** Going a distance `d` in [0,1) forward from the start lands `d` ahead of it. */
  lemma ForwardOffset(tStart: real, tEnd: real, d: real)
    requires 0.0 <= tStart < 1.0 && 0.0 <= d < 1.0
    requires tEnd >= tStart ==> tStart + d < 1.0
    ensures 0.0 <= Advance(tStart, tEnd, d) < 1.0
    ensures Frac(Advance(tStart, tEnd, d) - tStart) == d
  {
    FracOfUnit(d);
    if tEnd < tStart {
      FracSub(tStart + d, tStart);
      FracOfUnit(tStart);
    }
  }

  /** The tunnel's full length: twice the configured `TUNNEL.LENGTH`. */
  const TunnelLength: real := SimulationConfig.TunnelLength * 2.0

  /** The share of the track the tunnel covers, `LENGTH / (2 * PI * trackRadius)`. */
  function DeltaT(m: MathLib, trackRadius: real): real
    requires m.pi * trackRadius != 0.0
  {
    TunnelLength / (2.0 * m.pi * trackRadius)
  }

  /**
   * `createTunnel(station, trackRadius)`: the tunnel centred at `CENTER_T`,
   * its ends wrapped into [0,1). The "zero arc" bail-out cannot fire, because
   * the path's arc is never below its minimum.
   */
  function CreateTunnel(m: MathLib, trackRadius: real): (r: Option<TunnelData>)
    requires m.pi * trackRadius != 0.0
    ensures r.Some?
    ensures var half := DeltaT(m, trackRadius) / 2.0;
      && r.value.startT == Frac(SimulationConfig.TunnelCenterT - half)
      && r.value.endT == Frac(SimulationConfig.TunnelCenterT + half)
    ensures r.value.pathRadius == trackRadius
    ensures r.value.outerWidth == 2.0 * SimulationConfig.TunnelTubeRadius
    ensures r.value.length == TunnelLength
  {
    var half := DeltaT(m, trackRadius) / 2.0;
    var startT := Wrap(SimulationConfig.TunnelCenterT - half);
    var endT := Wrap(SimulationConfig.TunnelCenterT + half);
    var path := NewTunnelPath(Scene.TrackCurve, startT, endT, SimulationConfig.TunnelTubeRadius * 0.8);
    if path.arcLength <= 0.0 then None
    else Some(TunnelData(startT, endT, trackRadius, SimulationConfig.TunnelTubeRadius * 2.0, TunnelLength))
  }

  /** The tunnel's ends are `deltaT` apart going forward, up to whole turns. */
  lemma TunnelSpansDeltaT(m: MathLib, trackRadius: real)
    requires m.pi * trackRadius != 0.0
    ensures var d := CreateTunnel(m, trackRadius).value;
      Frac(d.endT - d.startT) == Frac(DeltaT(m, trackRadius))
  {
    var half := DeltaT(m, trackRadius) / 2.0;
    var c := SimulationConfig.TunnelCenterT;
    FracSub(c + half, c - half);
    assert (c + half) - (c - half) == DeltaT(m, trackRadius);
  }

  /**
   * On the shipped track of radius 100 the tunnel covers a share of about
   * 0.095 of the track, centred at 0.75, and its path uses that arc unchanged.
   */
  lemma ShippedTunnel(m: MathLib)
    requires Valid(m)
    ensures var dt := DeltaT(m, SimulationConfig.TrackRadius);
      var d := CreateTunnel(m, SimulationConfig.TrackRadius).value;
      && 0.09 < dt < 0.1
      && d.startT == 0.75 - dt / 2.0 && d.endT == 0.75 + dt / 2.0
      && RawArc(d.startT, d.endT) == dt && dt >= MinArcLength
  {
    var dt := DeltaT(m, SimulationConfig.TrackRadius);
    assert dt * (200.0 * m.pi) == 60.0;
    if dt >= 0.1 {
      MulMonotone(200.0 * m.pi, 0.1, dt);
      assert false;
    }
    if dt <= 0.09 {
      MulMonotone(200.0 * m.pi, dt, 0.09);
      assert false;
    }
    FracOfUnit(0.75 - dt / 2.0);
    FracOfUnit(0.75 + dt / 2.0);
  }

  /** The parameter of the point (x, z): its angle around the centre as a share of a turn. */
  function PointParam(m: MathLib, x: real, z: real): real
    requires m.pi != 0.0
  {
    JsMod1(m.atan2(z, x) / (2.0 * m.pi) + 1.0)
  }

  /** The angle's share of a turn lies in [0,1). */
  lemma PointParamInRange(m: MathLib, x: real, z: real)
    requires Valid(m)
    ensures 0.0 <= PointParam(m, x, z) < 1.0
  {
    var a := m.atan2(z, x);
    var q := a / (2.0 * m.pi);
    assert q * (2.0 * m.pi) == a;
    if q < -0.5 {
      MulMonotone(2.0 * m.pi, q, -0.5);
      assert false;
    }
  }

  /** `isInTunnelArea(x, z, tunnelData)`: over the tunnel's arc and within its width of the track. */
  function IsInTunnelArea(m: MathLib, x: real, z: real, tunnelData: Option<TunnelData>): (r: bool)
    requires m.pi != 0.0
    ensures tunnelData.None? ==> !r
  {
    match tunnelData
    case None => false
    case Some(d) =>
      var pointT := PointParam(m, x, z);
      var distFromCenter := m.sqrt(x * x + z * z);
      var inRadialBounds := Abs(distFromCenter - d.pathRadius) < d.outerWidth / 2.0;
      InArc(pointT, d.startT, d.endT) && inRadialBounds
  }

  function Abs(x: real): real {
    if x < 0.0 then -x else x
  }

  /**
   * For a tunnel whose ends lie in [0,1), a point is in its area exactly when
   * its angle is at most the tunnel's arc ahead of the start and its distance
   * from the centre is within half the tunnel's width of the tunnel's radius.
   */
  lemma TunnelAreaCharacterised(m: MathLib, x: real, z: real, d: TunnelData)
    requires Valid(m)
    requires 0.0 <= d.startT < 1.0 && 0.0 <= d.endT < 1.0
    ensures IsInTunnelArea(m, x, z, Some(d)) <==>
      && Frac(PointParam(m, x, z) - d.startT) <= Frac(d.endT - d.startT)
      && d.pathRadius - d.outerWidth / 2.0 < m.sqrt(x * x + z * z) < d.pathRadius + d.outerWidth / 2.0
  {
    PointParamInRange(m, x, z);
    InArcIsForwardDistance(PointParam(m, x, z), d.startT, d.endT);
  }
}
