/**
 * The station's footprint: the record each `createStation` returns
 * (src/components/station/station.js, js/station.js, js/station/station.js)
 * and the area test `isInStationArea` that keeps trees off it. The four
 * copies of the test (the three files above and src/components/environment.js)
 * are the same expression and are modelled once.
 */
module Station {
  import opened Wrappers
  import opened Vectors
  import opened JsMath
  import Scene
  import SimulationConfig

  /** What `createStation` returns besides the scene group. */
  datatype StationFootprint = StationFootprint(
    position: Vec3,
    tangent: Vec3,
    normal: Vec3,
    width: real,
    length: real,
    t: real)

  /** The station normal, `normalize((tangent.z, 0, -tangent.x))`. */
  function StationNormal(m: MathLib, tangent: Vec3): Vec3 {
    Normalize(m, Vec3(tangent.z, 0.0, -tangent.x))
  }

  /**
   * The footprint record: the curve's point and tangent at `stationT`, the
   * normal derived from the tangent, and the given width and length.
   */
  function CreateStation(m: MathLib, c: Scene.CircleCurve, stationT: real, width: real, length: real): (s: StationFootprint)
    ensures s.position == Scene.GetPoint(m, c, stationT)
    ensures s.tangent == Scene.GetTangent(m, c, stationT)
    ensures s.normal == StationNormal(m, s.tangent)
    ensures s.width == width && s.length == length && s.t == stationT
  {
    var tangent := Scene.GetTangent(m, c, stationT);
    StationFootprint(Scene.GetPoint(m, c, stationT), tangent, StationNormal(m, tangent), width, length, stationT)
  }

  function Max(a: real, b: real): real {
    if a >= b then a else b
  }

  /** src/components/station/station.js: the configured footprint at the configured place. */
  function CreateConfiguredStation(m: MathLib): (s: StationFootprint)
    ensures s.width == 80.0 && s.length == 120.0 && s.t == 0.25
  {
    CreateStation(m, Scene.TrackCurve, SimulationConfig.StationPositionT,
      SimulationConfig.StationFootprintWidth, SimulationConfig.StationFootprintLength)
  }

  /**
   * js/station.js: the footprint is the larger of the platform (8 by 40) and
   * the building (12 by 8), with 10 added to each side.
   */
  function CreateSmallStation(m: MathLib): (s: StationFootprint)
    ensures s.width == 22.0 && s.length == 50.0 && s.t == 0.25
  {
    var platformWidth, platformLength := 8.0, 40.0;
    var buildingWidth, buildingDepth := 12.0, 8.0;
    CreateStation(m, Scene.TrackCurve, 0.25,
      Max(platformWidth, buildingWidth) + 10.0, Max(platformLength, buildingDepth) + 10.0)
  }

  /** js/station/station.js: a fixed footprint of 80 by 120 at a quarter turn. */
  function CreateLargeStation(m: MathLib): (s: StationFootprint)
    ensures s.width == 80.0 && s.length == 120.0 && s.t == 0.25
  {
    CreateStation(m, Scene.TrackCurve, 0.25, 80.0, 120.0)
  }

  /**
   * The station's frame is exact: the normal is `(tz, 0, -tx)` itself, a
   * horizontal unit vector perpendicular to the tangent.
   */
  lemma StationFrame(m: MathLib, c: Scene.CircleCurve, stationT: real, width: real, length: real)
    requires Valid(m)
    ensures var s := CreateStation(m, c, stationT, width, length);
      s.normal == Vec3(s.tangent.z, 0.0, -s.tangent.x) && FrameIsOrthonormal(s)
  {
    var s := CreateStation(m, c, stationT, width, length);
    Scene.TangentIsUnit(m, c, stationT);
    NormalOfUnitTangent(m, s.tangent);
    assert IsUnit(s.normal) && Dot(s.normal, s.tangent) == 0.0;
  }

  /** The station normal points away from the track's centre. */
  lemma StationFacesOutward(m: MathLib, c: Scene.CircleCurve, stationT: real, width: real, length: real)
    requires Valid(m) && c.radius != 0.0
    ensures var s := CreateStation(m, c, stationT, width, length);
      s.normal == Scale(s.position, 1.0 / c.radius)
  {
    NormalPointsOutward(m, c, stationT);
  }

  /**
   * For a horizontal unit tangent the normal needs no scaling; by
   * `Scene.HorizontalCross` it is then a horizontal unit vector perpendicular
   * to the tangent.
   */
  lemma NormalOfUnitTangent(m: MathLib, tg: Vec3)
    requires Valid(m)
    requires IsUnit(tg) && Horizontal(tg)
    ensures StationNormal(m, tg) == Vec3(tg.z, 0.0, -tg.x)
  {
    var n := Vec3(tg.z, 0.0, -tg.x);
    assert IsUnit(n);
    NormalizeUnit(m, n);
  }

  /** On the circle the normal at a point is that point scaled down to unit length. */
  lemma NormalPointsOutward(m: MathLib, c: Scene.CircleCurve, stationT: real)
    requires Valid(m) && c.radius != 0.0
    ensures StationNormal(m, Scene.GetTangent(m, c, stationT)) == Scale(Scene.GetPoint(m, c, stationT), 1.0 / c.radius)
  {
    var a := Scene.Theta(m, stationT);
    Scene.TangentIsUnit(m, c, stationT);
    Scene.TangentFormula(m, c, stationT);
    NormalOfUnitTangent(m, Scene.GetTangent(m, c, stationT));
    assert c.radius * m.cos(a) * (1.0 / c.radius) == m.cos(a);
    assert c.radius * m.sin(a) * (1.0 / c.radius) == m.sin(a);
  }

  /** Tangent and normal are horizontal, of unit length and perpendicular. */
  predicate FrameIsOrthonormal(s: StationFootprint) {
    && IsUnit(s.tangent) && Horizontal(s.tangent)
    && IsUnit(s.normal) && Horizontal(s.normal)
    && Dot(s.normal, s.tangent) == 0.0
  }

  function Abs(x: real): real {
    if x < 0.0 then -x else x
  }

  /** How far (x, z) lies along the track from the station, and how far out from it. */
  function AlongTrack(s: StationFootprint, x: real, z: real): real {
    Dot(Vec3(x - s.position.x, 0.0, z - s.position.z), s.tangent)
  }

  function FromTrack(s: StationFootprint, x: real, z: real): real {
    Dot(Vec3(x - s.position.x, 0.0, z - s.position.z), s.normal)
  }

  /**
   * `isInStationArea(x, z, station)`: strictly within half the length along
   * the track, and strictly between a quarter of the width behind the track
   * and the full width out from it.
   */
  function IsInStationArea(x: real, z: real, station: Option<StationFootprint>): (r: bool)
    ensures station.None? ==> !r
  {
    match station
    case None => false
    case Some(s) =>
      var alongTrack := AlongTrack(s, x, z);
      var fromTrack := FromTrack(s, x, z);
      Abs(alongTrack) < s.length / 2.0 && fromTrack > -s.width / 4.0 && fromTrack < s.width
  }

  /** The point `a` along the tangent and `f` along the normal from the station. */
  function PointInFrame(s: StationFootprint, a: real, f: real): (real, real) {
    (s.position.x + a * s.tangent.x + f * s.normal.x, s.position.z + a * s.tangent.z + f * s.normal.z)
  }

  /** In an orthonormal frame the two components are recovered exactly. */
  lemma FrameCoordinates(s: StationFootprint, a: real, f: real)
    requires FrameIsOrthonormal(s)
    ensures var (x, z) := PointInFrame(s, a, f);
      AlongTrack(s, x, z) == a && FromTrack(s, x, z) == f
  {
    var (x, z) := PointInFrame(s, a, f);
    var tg, n := s.tangent, s.normal;
    calc {
      AlongTrack(s, x, z);
      (a * tg.x + f * n.x) * tg.x + (a * tg.z + f * n.z) * tg.z;
      a * (tg.x * tg.x + tg.z * tg.z) + f * (n.x * tg.x + n.z * tg.z);
      a;
    }
    calc {
      FromTrack(s, x, z);
      (a * tg.x + f * n.x) * n.x + (a * tg.z + f * n.z) * n.z;
      a * (tg.x * n.x + tg.z * n.z) + f * (n.x * n.x + n.z * n.z);
      f;
    }
  }

  /**
   * In the station's frame the area is the open box |a| < length/2,
   * -width/4 < f < width.
   */
  lemma StationAreaInFrame(s: StationFootprint, a: real, f: real)
    requires FrameIsOrthonormal(s)
    ensures var (x, z) := PointInFrame(s, a, f);
      IsInStationArea(x, z, Some(s)) <==> Abs(a) < s.length / 2.0 && -s.width / 4.0 < f < s.width
  {
    FrameCoordinates(s, a, f);
  }

  /** Mirroring a point along the track about the station keeps it in or out. */
  lemma StationAreaSymmetric(s: StationFootprint, a: real, f: real)
    requires FrameIsOrthonormal(s)
    ensures var (x, z) := PointInFrame(s, a, f);
      var (x', z') := PointInFrame(s, -a, f);
      IsInStationArea(x, z, Some(s)) == IsInStationArea(x', z', Some(s))
  {
    StationAreaInFrame(s, a, f);
    StationAreaInFrame(s, -a, f);
  }

  /** The heights of the station's position, tangent and normal play no part. */
  lemma StationAreaIgnoresHeight(x: real, z: real, s: StationFootprint, py: real, ty: real, ny: real)
    ensures IsInStationArea(x, z, Some(s)) ==
      IsInStationArea(x, z, Some(s.(position := s.position.(y := py), tangent := s.tangent.(y := ty), normal := s.normal.(y := ny))))
  {
    var s' := s.(position := s.position.(y := py), tangent := s.tangent.(y := ty), normal := s.normal.(y := ny));
    assert AlongTrack(s', x, z) == AlongTrack(s, x, z);
    assert FromTrack(s', x, z) == FromTrack(s, x, z);
  }

  /** Every station built on the track contains its own position when its footprint has size. */
  lemma StationContainsItsPosition(m: MathLib, c: Scene.CircleCurve, stationT: real, width: real, length: real)
    requires 0.0 < width && 0.0 < length
    ensures var s := CreateStation(m, c, stationT, width, length);
      IsInStationArea(s.position.x, s.position.z, Some(s))
  {
  }
}
