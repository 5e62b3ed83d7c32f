/**
 * js/tunnel.js: the earlier tunnel, whose path wraps every parameter with
 * `% 1` and whose arc length comes from a single remainder. Its footprint
 * test is the same as the later one (`Tunnel.IsInTunnelArea`).
 */
module LegacyTunnel {
  import opened Wrappers
  import opened Vectors
  import opened JsMath
  import opened JsNumber
  import Scene
  import Tunnel

  /** The length, tube radius and centre written into the earlier `createTunnel`. */
  const LegacyTunnelLength: real := 30.0
  const LegacyTubeRadius: real := 6.0
  const LegacyCenterT: real := 0.75

  /** `(tEnd - tStart + (tEnd < tStart ? 1 : 0)) % 1`. */
  function LegacyArc(tStart: real, tEnd: real): real {
    JsMod1(tEnd - tStart + (if tEnd < tStart then 1.0 else 0.0))
  }

  /**
   * The earlier `TunnelPathCurve` constructor: a zero remainder between
   * different ends is read as a full turn.
   */
  function NewLegacyPath(mainCurve: Scene.CircleCurve, tStart: real, tEnd: real, pathElevation: real): (p: Tunnel.TunnelPathCurve)
    ensures p.mainCurve == mainCurve && p.tStart == tStart && p.tEnd == tEnd
    ensures p.pathElevation == pathElevation
    ensures LegacyArc(tStart, tEnd) == 0.0 && tStart != tEnd ==> p.arcLength == 1.0
    ensures LegacyArc(tStart, tEnd) != 0.0 || tStart == tEnd ==> p.arcLength == LegacyArc(tStart, tEnd)
  {
    var arc := LegacyArc(tStart, tEnd);
    Tunnel.TunnelPathCurve(mainCurve, tStart, tEnd, if arc == 0.0 && tStart != tEnd then 1.0 else arc, pathElevation)
  }

  /**
   * For ends in [0,1) the remainder is the forward distance from start to
   * end, zero exactly when the ends coincide.
   */
  lemma LegacyArcIsForwardDistance(tStart: real, tEnd: real)
    requires 0.0 <= tStart < 1.0 && 0.0 <= tEnd < 1.0
    ensures LegacyArc(tStart, tEnd) == Frac(tEnd - tStart)
    ensures LegacyArc(tStart, tEnd) == 0.0 <==> tStart == tEnd
  {
    FracOfSmall(tEnd - tStart);
  }

  /** So for ends in [0,1) the full-turn fix-up never applies. */
  lemma FixupUnreachable(mainCurve: Scene.CircleCurve, tStart: real, tEnd: real, pathElevation: real)
    requires 0.0 <= tStart < 1.0 && 0.0 <= tEnd < 1.0
    ensures NewLegacyPath(mainCurve, tStart, tEnd, pathElevation).arcLength == Frac(tEnd - tStart)
  {
    LegacyArcIsForwardDistance(tStart, tEnd);
  }

  /** For ends outside [0,1) the fix-up does apply: from 0 to 1 the path is a full turn. */
  lemma FixupForWholeTurn(mainCurve: Scene.CircleCurve, pathElevation: real)
    ensures LegacyArc(0.0, 1.0) == 0.0
    ensures NewLegacyPath(mainCurve, 0.0, 1.0, pathElevation).arcLength == 1.0
  {
    FloorUnique(1.0, 1);
  }

  /** `(tStart + d + 1) % 1`: the earlier path wraps on both sides of the seam. */
  function LegacyAdvance(tStart: real, d: real): real {
    JsMod1(tStart + d + 1.0)
  }

  /** The main-curve parameter that path parameter `t` maps to. */
  function LegacyActualParam(p: Tunnel.TunnelPathCurve, t: real): real {
    LegacyAdvance(p.tStart, Tunnel.Share(t, p.arcLength))
  }

  /** The earlier `getPoint(t)`: the main curve's point at the mapped parameter, lifted. */
  function LegacyGetPoint(m: MathLib, p: Tunnel.TunnelPathCurve, t: real): (r: Vec3)
    ensures r.y == p.pathElevation
    ensures var q := Scene.GetPoint(m, p.mainCurve, LegacyActualParam(p, t)); r.x == q.x && r.z == q.z
  {
    var q := Scene.GetPoint(m, p.mainCurve, LegacyActualParam(p, t));
    Vec3(q.x, p.pathElevation, q.z)
  }

  /**
   * Going a distance `d` in [0,1) from a start in [0,1) lands in [0,1), `d`
   * ahead of the start.
   */
  lemma LegacyOffset(tStart: real, d: real)
    requires 0.0 <= tStart < 1.0 && 0.0 <= d < 1.0
    ensures 0.0 <= LegacyAdvance(tStart, d) < 1.0
    ensures Frac(LegacyAdvance(tStart, d) - tStart) == d
  {
    FracShift(tStart + d, 1);
    FracSub(tStart + d, tStart);
    FracOfUnit(tStart);
    FracOfUnit(d);
  }

  /** Two parameters in [0,1) the same distance ahead of a start are equal. */
  lemma SameOffsetSamePoint(a: real, b: real, s: real)
    requires 0.0 <= a < 1.0 && 0.0 <= b < 1.0 && 0.0 <= s < 1.0
    requires Frac(a - s) == Frac(b - s)
    ensures a == b
  {
    FracOfSmall(a - s);
    FracOfSmall(b - s);
  }

  /** For ends in [0,1) the earlier path starts at `tStart` and ends at `tEnd`. */
  lemma LegacyPathEndpoints(mainCurve: Scene.CircleCurve, tStart: real, tEnd: real, pathElevation: real)
    requires 0.0 <= tStart < 1.0 && 0.0 <= tEnd < 1.0
    ensures var p := NewLegacyPath(mainCurve, tStart, tEnd, pathElevation);
      LegacyActualParam(p, 0.0) == tStart && LegacyActualParam(p, 1.0) == tEnd
  {
    var p := NewLegacyPath(mainCurve, tStart, tEnd, pathElevation);
    LegacyArcIsForwardDistance(tStart, tEnd);
    assert p.arcLength == Frac(tEnd - tStart);
    LegacyOffset(tStart, 0.0);
    FracOfUnit(0.0);
    SameOffsetSamePoint(LegacyAdvance(tStart, 0.0), tStart, tStart);
    assert LegacyActualParam(p, 1.0) == LegacyAdvance(tStart, p.arcLength);
    LegacyOffset(tStart, p.arcLength);
    SameOffsetSamePoint(LegacyAdvance(tStart, p.arcLength), tEnd, tStart);
  }

  /**
   * Every point of the earlier path lies over the tunnel's arc: a distance
   * `d` up to the arc's length from the start (`t * arcLength` for `t` in
   * [0,1], by `Tunnel.ScaledWithin`).
   */
  lemma LegacyPathStaysInArc(p: Tunnel.TunnelPathCurve, d: real)
    requires 0.0 <= p.tStart < 1.0 && 0.0 <= p.tEnd < 1.0
    requires p.arcLength == LegacyArc(p.tStart, p.tEnd)
    requires 0.0 <= d <= p.arcLength
    ensures Tunnel.InArc(LegacyAdvance(p.tStart, d), p.tStart, p.tEnd)
  {
    LegacyArcIsForwardDistance(p.tStart, p.tEnd);
    LegacyOffset(p.tStart, d);
    Tunnel.WithinArc(LegacyAdvance(p.tStart, d), p.tStart, p.tEnd, d);
  }

  /** Over the path parameter: every `t` in [0,1] maps to a point over the tunnel's arc. */
  lemma LegacyPathParamStaysInArc(p: Tunnel.TunnelPathCurve, t: real)
    requires 0.0 <= p.tStart < 1.0 && 0.0 <= p.tEnd < 1.0
    requires p.arcLength == LegacyArc(p.tStart, p.tEnd)
    requires 0.0 <= t <= 1.0
    ensures Tunnel.InArc(LegacyActualParam(p, t), p.tStart, p.tEnd)
  {
    LegacyArcIsForwardDistance(p.tStart, p.tEnd);
    Tunnel.ScaledWithin(t, p.arcLength);
    LegacyPathStaysInArc(p, Tunnel.Share(t, p.arcLength));
  }

  /** The share of the track the earlier tunnel covers. */
  function LegacyDeltaT(m: MathLib, trackRadius: real): real
    requires m.pi * trackRadius != 0.0
  {
    LegacyTunnelLength / (2.0 * m.pi * trackRadius)
  }

  /**
   * The earlier `createTunnel`: centred at 0.75, its ends wrapped with
   * `(x + 1) % 1`, and no tunnel when the path's arc is not positive.
   */
  function LegacyCreateTunnel(m: MathLib, trackRadius: real): (r: Option<Tunnel.TunnelData>)
    requires m.pi * trackRadius != 0.0
    ensures var half := LegacyDeltaT(m, trackRadius) / 2.0;
      var startT := JsMod1(LegacyCenterT - half + 1.0);
      var endT := JsMod1(LegacyCenterT + half + 1.0);
      && (r.None? <==> NewLegacyPath(Scene.TrackCurve, startT, endT, LegacyTubeRadius).arcLength <= 0.0)
      && (r.Some? ==> r.value == Tunnel.TunnelData(startT, endT, trackRadius, 2.0 * LegacyTubeRadius, LegacyTunnelLength))
  {
    var half := LegacyDeltaT(m, trackRadius) / 2.0;
    var startT := JsMod1(LegacyCenterT - half + 1.0);
    var endT := JsMod1(LegacyCenterT + half + 1.0);
    var path := NewLegacyPath(Scene.TrackCurve, startT, endT, LegacyTubeRadius);
    if path.arcLength <= 0.0 then None
    else Some(Tunnel.TunnelData(startT, endT, trackRadius, LegacyTubeRadius * 2.0, LegacyTunnelLength))
  }

  /**
   * While the tunnel is no longer than 3.5 turns, it is left out exactly when
   * it covers a whole number of turns: then its ends coincide and the arc is 0.
   */
  lemma LegacyTunnelDroppedOnWholeTurns(m: MathLib, trackRadius: real)
    requires m.pi * trackRadius != 0.0
    requires 0.0 < LegacyDeltaT(m, trackRadius) <= 3.5
    ensures LegacyCreateTunnel(m, trackRadius).None? <==> Frac(LegacyDeltaT(m, trackRadius)) == 0.0
  {
    var dt := LegacyDeltaT(m, trackRadius);
    var half := dt / 2.0;
    var a, b := LegacyCenterT - half + 1.0, LegacyCenterT + half + 1.0;
    var startT, endT := JsMod1(a), JsMod1(b);
    assert startT == Frac(a) && endT == Frac(b);
    LegacyArcIsForwardDistance(startT, endT);
    FracSub(b, a);
    assert b - a == dt;
    var path := NewLegacyPath(Scene.TrackCurve, startT, endT, LegacyTubeRadius);
    assert path.arcLength == Frac(dt);
  }

  /** On the track of radius 100 the earlier tunnel exists, centred at 0.75. */
  lemma LegacyShippedTunnel(m: MathLib)
    requires Valid(m)
    ensures var dt := LegacyDeltaT(m, 100.0);
      && 0.04 < dt < 0.05
      && LegacyCreateTunnel(m, 100.0) == Some(Tunnel.TunnelData(0.75 - dt / 2.0, 0.75 + dt / 2.0, 100.0, 12.0, 30.0))
  {
    var dt := LegacyDeltaT(m, 100.0);
    assert dt * (200.0 * m.pi) == 30.0;
    if dt >= 0.05 {
      MulMonotone(200.0 * m.pi, 0.05, dt);
      assert false;
    }
    if dt <= 0.04 {
      MulMonotone(200.0 * m.pi, dt, 0.04);
      assert false;
    }
    var s, e := 0.75 - dt / 2.0, 0.75 + dt / 2.0;
    FracShift(s, 1);
    FracShift(e, 1);
    FracOfUnit(s);
    FracOfUnit(e);
    LegacyArcIsForwardDistance(s, e);
    FracOfUnit(dt);
  }
}
