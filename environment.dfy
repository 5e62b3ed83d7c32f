/**
 * src/components/environment.js: `setupEnvironment` builds the station, then
 * the tunnel on the configured track radius, and hands both footprints and
 * their area tests to tree placement, which also keeps a safe circle around
 * the track clear. Ground, track and tree meshes are
 * scene construction and are not modelled.
 */
module Environment {
  import opened Wrappers
  import opened JsMath
  import SimulationConfig
  import Scene
  import Station
  import Tunnel

  /** What `setupEnvironment` returns. */
  datatype EnvironmentData = EnvironmentData(
    station: Station.StationFootprint,
    tunnelData: Option<Tunnel.TunnelData>)

  /** `setupEnvironment()`: the station first, then the tunnel (which ignores the station). */
  function SetupEnvironment(m: MathLib): (r: EnvironmentData)
    requires m.pi != 0.0
    ensures r.station == Station.CreateConfiguredStation(m)
    ensures r.tunnelData == Tunnel.CreateTunnel(m, SimulationConfig.TrackRadius)
    ensures r.tunnelData.Some?
  {
    var station := Station.CreateConfiguredStation(m);
    var tunnelData := Tunnel.CreateTunnel(m, SimulationConfig.TrackRadius);
    EnvironmentData(station, tunnelData)
  }

  /** The radius of the circle around the track centre where no tree is planted: 100 + 5 + 15. */
  const SafeRadius: real := SimulationConfig.TrackRadius + SimulationConfig.TrackGauge + SimulationConfig.SafeRadiusOffset

  /** `isInsideCircle()`: the spot's distance from the centre is below the safe radius. */
  predicate InsideSafeCircle(m: MathLib, x: real, z: real) {
    m.sqrt(x * x + z * z) < SafeRadius
  }

  /** The safe circle is the open disc of radius 120: the square root can be squared away. */
  lemma SafeCircleIsDisc(m: MathLib, x: real, z: real)
    requires Valid(m)
    ensures InsideSafeCircle(m, x, z) <==> x * x + z * z < SafeRadius * SafeRadius
  {
    var v := x * x + z * z;
    var s := m.sqrt(v);
    assert 0.0 <= v;
    assert 0.0 <= s && s * s == v;
    if s < SafeRadius {
      MulMonotone(s, s, SafeRadius);
      MulMonotone(SafeRadius, s, SafeRadius);
    } else {
      MulMonotone(s, SafeRadius, s);
      MulMonotone(SafeRadius, SafeRadius, s);
    }
  }

  /**
   * A spot tree placement turns down (the loop condition of `populateTrees`):
   * inside the safe circle, in the station's area or in the tunnel's.
   */
  predicate KeptClearOfTrees(m: MathLib, env: EnvironmentData, x: real, z: real)
    requires m.pi != 0.0
  {
    || InsideSafeCircle(m, x, z)
    || Station.IsInStationArea(x, z, Some(env.station))
    || Tunnel.IsInTunnelArea(m, x, z, env.tunnelData)
  }

  /** No tree is ever planted on the track: every point of the track circle lies inside the safe circle. */
  lemma TrackKeptClear(m: MathLib, t: real)
    requires Valid(m)
    ensures var p := Scene.GetPoint(m, Scene.TrackCurve, t);
      KeptClearOfTrees(m, SetupEnvironment(m), p.x, p.z)
  {
    var p := Scene.GetPoint(m, Scene.TrackCurve, t);
    Scene.PointOnCircle(m, Scene.TrackCurve, t);
    assert p.x * p.x + p.z * p.z == 10000.0;
    SafeCircleIsDisc(m, p.x, p.z);
  }

  /**
   * The shipped layout keeps the station clear of the tunnel: the station's
   * place on the track lies outside the tunnel's arc, and the station's own
   * position lies in the station's area, so it is kept clear of trees.
   */
  lemma StationOutsideTunnel(m: MathLib)
    requires Valid(m)
    ensures var env := SetupEnvironment(m);
      && !Tunnel.InArc(env.station.t, env.tunnelData.value.startT, env.tunnelData.value.endT)
      && Station.IsInStationArea(env.station.position.x, env.station.position.z, Some(env.station))
      && KeptClearOfTrees(m, env, env.station.position.x, env.station.position.z)
  {
    Tunnel.ShippedTunnel(m);
    Station.StationContainsItsPosition(m, Scene.TrackCurve, SimulationConfig.StationPositionT,
      SimulationConfig.StationFootprintWidth, SimulationConfig.StationFootprintLength);
  }
}
