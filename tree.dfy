/**
 * js/tree.js: the earlier tree placement's tests. The tunnel test is an
 * axis-aligned bounding box on the ground plane, and a missing box or a
 * missing corner excludes nothing. The safe circle and the station test are
 * the same as the later placement's.
 */
module Tree {
  import opened Wrappers
  import opened Vectors
  import opened JsMath
  import Scene
  import Station
  import Environment

  /** The tunnel box handed to `isInTunnelArea`, whose corners may be absent. */
  datatype TunnelBox = TunnelBox(min: Option<Vec3>, max: Option<Vec3>)

  /** `isInTunnelArea(x, z, tunnelBox)`: inside the box's x and z ranges, bounds included. */
  function IsInTunnelBox(x: real, z: real, tunnelBox: Option<TunnelBox>): (r: bool)
    ensures r ==> tunnelBox.Some? && tunnelBox.value.min.Some? && tunnelBox.value.max.Some?
  {
    if tunnelBox.None? || tunnelBox.value.min.None? || tunnelBox.value.max.None? then false
    else
      var lo, hi := tunnelBox.value.min.value, tunnelBox.value.max.value;
      x >= lo.x && x <= hi.x && z >= lo.z && z <= hi.z
  }

  /** A box with both corners given holds exactly the points between them. */
  lemma BoxIsProductOfRanges(x: real, z: real, lo: Vec3, hi: Vec3)
    ensures IsInTunnelBox(x, z, Some(TunnelBox(Some(lo), Some(hi)))) <==>
      lo.x <= x <= hi.x && lo.z <= z <= hi.z
  {
  }

  /** The four corners of a well-formed box lie in it: the bounds are inclusive. */
  lemma BoxContainsCorners(lo: Vec3, hi: Vec3)
    requires lo.x <= hi.x && lo.z <= hi.z
    ensures var b := Some(TunnelBox(Some(lo), Some(hi)));
      && IsInTunnelBox(lo.x, lo.z, b) && IsInTunnelBox(hi.x, hi.z, b)
      && IsInTunnelBox(lo.x, hi.z, b) && IsInTunnelBox(hi.x, lo.z, b)
  {
  }

  /** A box whose minimum exceeds its maximum on either axis holds nothing. */
  lemma InvertedBoxIsEmpty(x: real, z: real, lo: Vec3, hi: Vec3)
    requires lo.x > hi.x || lo.z > hi.z
    ensures !IsInTunnelBox(x, z, Some(TunnelBox(Some(lo), Some(hi))))
  {
  }

  /** The corners' heights play no part. */
  lemma BoxIgnoresHeight(x: real, z: real, lo: Vec3, hi: Vec3, loY: real, hiY: real)
    ensures IsInTunnelBox(x, z, Some(TunnelBox(Some(lo), Some(hi)))) ==
      IsInTunnelBox(x, z, Some(TunnelBox(Some(lo.(y := loY)), Some(hi.(y := hiY)))))
  {
  }

  /**
   * A spot the earlier `populateTrees` turns down: inside the safe circle of
   * radius `radius + gauge + 15`, in the station's area, or in the tunnel box.
   */
  predicate LegacyKeptClearOfTrees(m: MathLib, station: Option<Station.StationFootprint>,
                                   tunnelBox: Option<TunnelBox>, x: real, z: real)
  {
    || Environment.InsideSafeCircle(m, x, z)
    || Station.IsInStationArea(x, z, station)
    || IsInTunnelBox(x, z, tunnelBox)
  }

  /** Whatever station and box it is handed, the earlier placement never plants a tree on the track. */
  lemma LegacyTrackKeptClear(m: MathLib, station: Option<Station.StationFootprint>,
                             tunnelBox: Option<TunnelBox>, t: real)
    requires Valid(m)
    ensures var p := Scene.GetPoint(m, Scene.TrackCurve, t);
      LegacyKeptClearOfTrees(m, station, tunnelBox, p.x, p.z)
  {
    var p := Scene.GetPoint(m, Scene.TrackCurve, t);
    Scene.PointOnCircle(m, Scene.TrackCurve, t);
    assert p.x * p.x + p.z * p.z == 10000.0;
    Environment.SafeCircleIsDisc(m, p.x, p.z);
  }
}
