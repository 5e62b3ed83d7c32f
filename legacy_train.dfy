/**
 * js/train.js: the earlier train. Its state and its pose operations
 * (`setupTrain`, `updateTrainPosition`, `updateConnectorPositions`,
 * `updateWheelRotationSpeed`) are those of `Train.TrainState`; what differs is
 * that the limits and sizes are written in as literals and that adding and
 * removing compartments return nothing.
 */
module LegacyTrain {
  import opened Vectors
  import opened JsMath
  import opened Scene
  import Train

  /** The literals of js/train.js, and the track radius of js/scene.js. */
  const LegacyMinCompartments: int := 1
  const LegacyMaxCompartments: int := 20
  const LegacyInitialCompartments: int := 3
  const LegacyDistanceBetween: real := 13.0
  const LegacyRadius: real := 100.0

  /** The script's initial state: no objects, three compartments to build, bounds 1 and 20. */
  method NewLegacyTrain(m: MathLib, scene: SceneGraph, localToWorld: (Vec3, Orientation, Vec3) -> Vec3)
    returns (train: Train.TrainState)
    requires Valid(m)
    ensures train.Valid() && train.Unassembled()
    ensures train.math == m && train.curve == TrackCurve && train.scene == scene
    ensures train.minCompartments == 1 && train.maxCompartments == 20 && train.numCompartments == 3
    ensures train.dt == 13.0 / (2.0 * m.pi * 100.0)
    ensures fresh(train)
  {
    train := new Train.TrainState(m, CircleCurve(LegacyRadius), scene, localToWorld,
      LegacyMinCompartments, LegacyMaxCompartments, LegacyInitialCompartments,
      LegacyDistanceBetween, LegacyRadius);
  }

  /**
   * `addCompartment()`: below 20 compartments one new compartment and one new
   * connector are appended and added to the scene, the compartment posed for
   * the current `t` and the connector joining it to the car in front; at 20
   * nothing changes.
   */
  method LegacyAddCompartment(train: Train.TrainState, t: real)
    requires train.Valid() && train.Assembled() && train.maxCompartments == LegacyMaxCompartments
    modifies train, train.scene
    ensures train.Valid() && train.Assembled()
    ensures train.engine == old(train.engine)
    ensures old(train.numCompartments) >= 20 ==>
      train.numCompartments == old(train.numCompartments)
      && train.compartments == old(train.compartments) && train.connectors == old(train.connectors)
      && train.scene.members == old(train.scene.members)
    ensures old(train.numCompartments) < 20 ==>
      var n := |old(train.compartments)|;
      && train.numCompartments == old(train.numCompartments) + 1
      && |train.compartments| == n + 1 && train.compartments[..n] == old(train.compartments)
      && |train.connectors| == n + 1 && train.connectors[..n] == old(train.connectors)
      && fresh(train.compartments[n]) && fresh(train.connectors[n])
      && train.scene.members == old(train.scene.members) + {train.compartments[n], train.connectors[n]}
      && train.OnCurveAt(train.compartments[n], Train.CarParam(t, train.dt, n))
      && train.LinkPlaced(train.connectors[n], train.FrontCar(n), train.FrontHitch(n), train.compartments[n])
    ensures unchanged(old(train.engine)) && forall o :: o in old(train.compartments) || o in old(train.connectors) ==> unchanged(o)
  {
    var _ := train.AddCompartment(t);
  }

  /**
   * `removeCompartment()`: above one compartment the last compartment and
   * connector are popped and leave the scene; at one nothing changes.
   */
  method LegacyRemoveCompartment(train: Train.TrainState)
    requires train.Valid() && train.Assembled() && train.minCompartments == LegacyMinCompartments
    modifies train, train.scene
    ensures train.Valid() && train.Assembled()
    ensures train.engine == old(train.engine)
    ensures old(train.numCompartments) <= 1 ==>
      train.numCompartments == old(train.numCompartments)
      && train.compartments == old(train.compartments) && train.connectors == old(train.connectors)
      && train.scene.members == old(train.scene.members)
    ensures old(train.numCompartments) > 1 ==>
      var n := |old(train.compartments)| - 1;
      && train.numCompartments == old(train.numCompartments) - 1
      && train.compartments == old(train.compartments)[..n] && train.connectors == old(train.connectors)[..n]
      && train.scene.members == old(train.scene.members) - {old(train.compartments)[n], old(train.connectors)[n]}
    ensures unchanged(old(train.engine)) && forall o :: o in train.compartments || o in train.connectors ==> unchanged(o)
  {
    var _ := train.RemoveCompartment();
  }
}
