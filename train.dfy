/**
 * src/components/train/train.js (and, through `LegacyTrain`, js/train.js):
 * the train's module-level state -- an engine, the parallel arrays
 * `compartments` and `connectors`, and the counter `numCompartments` -- and the
 * operations that build, move, lengthen and shorten the formation.
 *
 * Scene objects are handles (`Scene.SceneObject`) whose pose is updated in
 * place; `localToWorld` is a function of an object's pose and a local point.
 */
module Train {
  import opened Wrappers
  import opened Vectors
  import opened JsMath
  import opened JsNumber
  import opened Scene
  import SimulationConfig

  /** Every car rides 1.5 above the curve point. */
  const RideHeight: real := 1.5
  /** The engine's rear hitch, in the engine's local frame. */
  const EngineHitch: Vec3 := Vec3(0.0, 2.0, -6.0)
  /** A compartment's rear hitch, in its local frame. */
  const CarRearHitch: Vec3 := Vec3(0.0, 1.8, -6.0)
  /** A compartment's front hitch, in its local frame. */
  const CarFrontHitch: Vec3 := Vec3(0.0, 1.8, 6.0)

  /** How far behind the engine compartment `i` runs before wrapping, `t - (i + 1) * dt`. */
  function Behind(t: real, dt: real, i: nat): real {
    t - (i + 1) as real * dt
  }

  lemma BehindNext(t: real, dt: real, i: nat)
    ensures Behind(t, dt, i + 1) == Behind(t, dt, i) - dt
  {
  }

  lemma BehindShift(t: real, dt: real, i: nat)
    ensures Behind(t + 1.0, dt, i) == Behind(t, dt, i) + 1 as real
  {
  }

  /** Curve parameter of compartment `i`, `((t - (i + 1) * dt) % 1 + 1) % 1`. */
  function CarParam(t: real, dt: real, i: nat): (r: real)
    ensures 0.0 <= r < 1.0
  {
    Wrap(Behind(t, dt, i))
  }

  /** Moving the engine by one full lap leaves every compartment's parameter unchanged. */
  lemma CarParamPeriodic(t: real, dt: real, i: nat)
    ensures CarParam(t + 1.0, dt, i) == CarParam(t, dt, i)
  {
    BehindShift(t, dt, i);
    FracShift(Behind(t, dt, i), 1);
  }

  /** Compartment `i + 1` trails compartment `i` by exactly `dt` around the circle. */
  lemma CarSpacing(t: real, dt: real, i: nat)
    ensures CarParam(t, dt, i + 1) == Wrap(CarParam(t, dt, i) - dt)
  {
    BehindNext(t, dt, i);
    FracAdd(Behind(t, dt, i), -dt);
  }

  /** The first compartment trails a wrapped engine parameter by `dt`. */
  lemma FirstCarTrailsEngine(t: real, dt: real)
    ensures CarParam(t, dt, 0) == Wrap(Wrap(t) - dt)
  {
    assert Behind(t, dt, 0) == t + -dt;
    FracAdd(t, -dt);
  }

  /** The two operations the controls offer on the formation. */
  datatype FormationOp = AddCar | RemoveCar

  /** The counter after one operation: unchanged at the bound, else one step. */
  function CountAfter(count: int, op: FormationOp, min: int, max: int): (r: int)
    ensures min <= count <= max ==> min <= r <= max
    ensures op.AddCar? ==> (r == count + 1 <==> count < max) && (r == count <==> count >= max)
    ensures op.RemoveCar? ==> (r == count - 1 <==> count > min) && (r == count <==> count <= min)
  {
    match op
    case AddCar => if count >= max then count else count + 1
    case RemoveCar => if count <= min then count else count - 1
  }

  /** The counter after a sequence of operations. */
  function CountAfterAll(count: int, ops: seq<FormationOp>, min: int, max: int): (r: int)
    ensures min <= count <= max ==> min <= r <= max
    ensures count - |ops| <= r <= count + |ops|
    decreases |ops|
  {
    if ops == [] then count else CountAfterAll(CountAfter(count, ops[0], min, max), ops[1..], min, max)
  }

  function Repeat(op: FormationOp, n: nat): (ops: seq<FormationOp>)
    ensures |ops| == n && forall i :: 0 <= i < n ==> ops[i] == op
  {
    if n == 0 then [] else [op] + Repeat(op, n - 1)
  }

  /** Pressing "remove" `n` times stops at the minimum. */
  lemma {:induction false} RemovesStopAtMin(count: int, n: nat, min: int, max: int)
    requires min <= count
    decreases n
    ensures CountAfterAll(count, Repeat(RemoveCar, n), min, max) == if count - n >= min then count - n else min
  {
    if n > 0 {
      var ops := Repeat(RemoveCar, n);
      assert ops[1..] == Repeat(RemoveCar, n - 1);
      RemovesStopAtMin(CountAfter(count, RemoveCar, min, max), n - 1, min, max);
    }
  }

  /** Pressing "add" `n` times stops at the maximum. */
  lemma {:induction false} AddsStopAtMax(count: int, n: nat, min: int, max: int)
    requires count <= max
    decreases n
    ensures CountAfterAll(count, Repeat(AddCar, n), min, max) == if count + n <= max then count + n else max
  {
    if n > 0 {
      var ops := Repeat(AddCar, n);
      assert ops[1..] == Repeat(AddCar, n - 1);
      AddsStopAtMax(CountAfter(count, AddCar, min, max), n - 1, min, max);
    }
  }

  /** An add that succeeds followed by a remove restores the count. */
  lemma AddThenRemoveCount(count: int, min: int, max: int)
    requires min <= count < max
    ensures CountAfterAll(count, [AddCar, RemoveCar], min, max) == count
  {
    assert [AddCar, RemoveCar][1..] == [RemoveCar];
    assert [RemoveCar][1..] == [];
  }

  /** No two entries of `s` are the same object. */
  ghost predicate Distinct(s: seq<SceneObject>) {
    forall i, j :: 0 <= i < |s| && 0 <= j < |s| && i != j ==> s[i] != s[j]
  }

  /**
   * The objects of a built train: parallel arrays, no object used twice,
   * and everything in the scene.
   */
  ghost predicate Formation(e: SceneObject, cs: seq<SceneObject>, ks: seq<SceneObject>, members: set<SceneObject>) {
    && |cs| == |ks|
    && Distinct(cs) && Distinct(ks)
    && (forall i :: 0 <= i < |cs| ==> cs[i] != e && ks[i] != e)
    && (forall i, j :: 0 <= i < |cs| && 0 <= j < |ks| ==> cs[i] != ks[j])
    && e in members
    && (forall i :: 0 <= i < |cs| ==> cs[i] in members && ks[i] in members)
  }

  /** Appending two new objects keeps the formation well formed. */
  lemma FormationPush(e: SceneObject, cs: seq<SceneObject>, ks: seq<SceneObject>, members: set<SceneObject>,
                      c: SceneObject, k: SceneObject)
    requires Formation(e, cs, ks, members)
    requires c != k && c != e && k != e
    requires forall i :: 0 <= i < |cs| ==> cs[i] != c && cs[i] != k && ks[i] != c && ks[i] != k
    ensures Formation(e, cs + [c], ks + [k], members + {c} + {k})
  {
  }

  /** Dropping the last car and connector, and taking them out of the scene, keeps it well formed. */
  lemma FormationPop(e: SceneObject, cs: seq<SceneObject>, ks: seq<SceneObject>, members: set<SceneObject>)
    requires Formation(e, cs, ks, members) && |cs| > 0
    ensures var n := |cs| - 1;
      Formation(e, cs[..n], ks[..n], members - {cs[n]} - {ks[n]})
  {
  }

  /** What `getTrainState` hands out: the live counter and arrays. */
  datatype TrainSnapshot = TrainSnapshot(
    numCompartments: int,
    engine: SceneObject?,
    compartments: seq<SceneObject>,
    connectors: seq<SceneObject>)

  /** The train's module state. */
  class TrainState {
    const math: MathLib
    const curve: CircleCurve
    const scene: SceneGraph
    const localToWorld: (Vec3, Orientation, Vec3) -> Vec3
    const minCompartments: int
    const maxCompartments: int
    /** Curve-parameter spacing of the compartments, `distanceBetween / (2 * PI * radius)`. */
    const dt: real

    var engine: SceneObject?
    var compartments: seq<SceneObject>
    var connectors: seq<SceneObject>
    var numCompartments: int
    var wheelRotationSpeed: real

    /** The module's initial state: no objects yet, the counter at its initial value. */
    constructor (m: MathLib, curve: CircleCurve, scene: SceneGraph,
                 localToWorld: (Vec3, Orientation, Vec3) -> Vec3,
                 minCompartments: int, maxCompartments: int, initialCompartments: int,
                 distanceBetween: real, trackRadius: real)
      requires 0 <= minCompartments <= initialCompartments <= maxCompartments
      requires m.pi * trackRadius != 0.0
      ensures Valid() && Unassembled()
      ensures this.math == m && this.curve == curve && this.scene == scene
      ensures this.localToWorld == localToWorld
      ensures this.minCompartments == minCompartments && this.maxCompartments == maxCompartments
      ensures numCompartments == initialCompartments
      ensures dt == distanceBetween / (2.0 * m.pi * trackRadius)
      ensures wheelRotationSpeed == 0.002
    {
      this.math := m;
      this.curve := curve;
      this.scene := scene;
      this.localToWorld := localToWorld;
      this.minCompartments := minCompartments;
      this.maxCompartments := maxCompartments;
      this.dt := distanceBetween / (2.0 * m.pi * trackRadius);
      engine := null;
      compartments := [];
      connectors := [];
      numCompartments := initialCompartments;
      wheelRotationSpeed := 0.002;
    }

    /** The counter stays within the configured bounds. */
    ghost predicate Bounded()
      reads this
    {
      0 <= minCompartments <= numCompartments <= maxCompartments
    }

    /** Before `setupTrain`: no engine and empty arrays. */
    ghost predicate Unassembled()
      reads this
    {
      engine == null && compartments == [] && connectors == []
    }

    /**
     * After `setupTrain`: one distinct object per car and per connector, the
     * arrays parallel to the counter, and every object in the scene.
     */
    ghost predicate Assembled()
      reads this, scene
    {
      engine != null && |compartments| == numCompartments
      && Formation(engine, compartments, connectors, scene.members)
    }

    ghost predicate Valid()
      reads this, scene
    {
      Bounded() && (Unassembled() || Assembled())
    }

    /** `o` sits on the curve at parameter `t`, raised to ride height, facing along the tangent. */
    ghost predicate OnCurveAt(o: SceneObject, t: real)
      reads o
    {
      o.position == PositionOnCurve(math, curve, t, RideHeight)
      && o.orientation == OrientationOnCurve(math, curve, t)
    }

    /** The world position of a hitch on `o`. */
    ghost function Anchor(o: SceneObject, hitch: Vec3): Vec3
      reads o
    {
      localToWorld(o.position, o.orientation, hitch)
    }

    /**
     * Connector `k` sits halfway between the rear hitch of the car in front
     * and the front hitch of `back`, and faces the latter.
     */
    ghost predicate LinkPlaced(k: SceneObject, front: SceneObject, frontHitch: Vec3, back: SceneObject)
      reads k, front, back
    {
      k.position == Lerp(Anchor(front, frontHitch), Anchor(back, CarFrontHitch), 0.5)
      && k.orientation == FacingToward(Anchor(back, CarFrontHitch))
    }

    /** The car in front of compartment `i`: the engine for the first, else compartment `i - 1`. */
    function FrontCar(i: nat): SceneObject
      requires engine != null && i < |compartments|
      reads this
    {
      if i == 0 then engine else compartments[i - 1]
    }

    function FrontHitch(i: nat): Vec3 {
      if i == 0 then EngineHitch else CarRearHitch
    }

    ghost predicate CarsPlaced(t: real)
      reads this, compartments
    {
      forall i :: 0 <= i < |compartments| ==> OnCurveAt(compartments[i], CarParam(t, dt, i))
    }

    ghost predicate LinksPlaced()
      requires engine != null
      reads this, engine, compartments, connectors
    {
      forall i :: 0 <= i < |connectors| && i < |compartments| ==>
        LinkPlaced(connectors[i], FrontCar(i), FrontHitch(i), compartments[i])
    }

    /**
     * The whole formation is posed for engine parameter `t`: the engine at
     * `t`, compartment `i` at `CarParam(t, dt, i)`, connector `i` between its
     * two cars.
     */
    ghost predicate Placed(t: real)
      reads this, scene, engine, compartments, connectors
    {
      Assembled() && OnCurveAt(engine, t) && CarsPlaced(t) && LinksPlaced()
    }

    /**
     * `setupTrain(t)`: build the engine and `numCompartments` cars and
     * connectors, add exactly those to the scene, then pose them.
     */
    method SetupTrain(t: real)
      requires Valid() && Unassembled()
      modifies this, scene
      ensures Valid() && Placed(t)
      ensures numCompartments == old(numCompartments) && wheelRotationSpeed == old(wheelRotationSpeed)
      ensures fresh(engine)
      ensures forall i :: 0 <= i < |compartments| ==> fresh(compartments[i]) && fresh(connectors[i])
      ensures forall o :: o in scene.members <==>
        o in old(scene.members) || o == engine || o in compartments || o in connectors
    {
      var e := new SceneObject();
      scene.Add(e);
      engine := e;
      var i := 0;
      while i < numCompartments
        invariant 0 <= i <= numCompartments && Bounded()
        invariant engine == e
        invariant forall o :: o in scene.members <==>
          o in old(scene.members) || o == e || o in compartments || o in connectors
        invariant |compartments| == i
        invariant Formation(e, compartments, connectors, scene.members)
        invariant forall j :: 0 <= j < i ==> fresh(compartments[j]) && fresh(connectors[j])
        invariant numCompartments == old(numCompartments) && wheelRotationSpeed == old(wheelRotationSpeed)
      {
        var c, k := PushParts();
        i := i + 1;
      }
      PlaceCars(t);
      UpdateConnectorPositions();
    }

    /** The engine at `t` and compartment `i` at `CarParam(t, dt, i)` (the pose loop of `setupTrain`/`updateTrainPosition`). */
    method PlaceCars(t: real)
      requires Assembled()
      modifies engine, compartments
      ensures OnCurveAt(engine, t) && CarsPlaced(t)
    {
      SetObjectOnCurve(engine, math, curve, t, RideHeight);
      var i := 0;
      while i < |compartments|
        invariant 0 <= i <= |compartments|
        invariant OnCurveAt(engine, t)
        invariant forall j :: 0 <= j < i ==> OnCurveAt(compartments[j], CarParam(t, dt, j))
      {
        SetObjectOnCurve(compartments[i], math, curve, CarParam(t, dt, i), RideHeight);
        i := i + 1;
      }
    }

    /** Put connector `k` halfway between two hitches and point it at the rear one. */
    method PlaceConnector(k: SceneObject, front: SceneObject, frontHitch: Vec3, back: SceneObject)
      requires k != front && k != back
      modifies k
      ensures LinkPlaced(k, front, frontHitch, back)
    {
      var frontPos := localToWorld(front.position, front.orientation, frontHitch);
      var backPos := localToWorld(back.position, back.orientation, CarFrontHitch);
      k.position := Lerp(frontPos, backPos, 0.5);
      k.orientation := FacingToward(backPos);
    }

    /** `updateConnectorPositions()`: every connector between its two cars. */
    method UpdateConnectorPositions()
      requires Assembled()
      modifies connectors
      ensures LinksPlaced()
    {
      var i := 0;
      while i < |compartments|
        invariant 0 <= i <= |compartments|
        invariant forall j :: 0 <= j < i && j < |connectors| ==>
          LinkPlaced(connectors[j], FrontCar(j), FrontHitch(j), compartments[j])
      {
        if i < |connectors| {
          PlaceConnector(connectors[i], FrontCar(i), FrontHitch(i), compartments[i]);
        }
        i := i + 1;
      }
    }

    /** `updateTrainPosition(t)`: re-pose the whole formation for engine parameter `t`. */
    method UpdateTrainPosition(t: real)
      requires Assembled()
      modifies engine, compartments, connectors
      ensures Placed(t)
    {
      PlaceCars(t);
      UpdateConnectorPositions();
    }

    /** `updateWheelRotationSpeed()`: twice the simulation speed. */
    method UpdateWheelRotationSpeed(speed: real)
      modifies this
      ensures wheelRotationSpeed == speed * 2.0
      ensures engine == old(engine) && compartments == old(compartments)
      ensures connectors == old(connectors) && numCompartments == old(numCompartments)
    {
      wheelRotationSpeed := speed * 2.0;
    }

    /**
     * `addCompartment()`: at the maximum nothing happens and nothing is
     * returned; otherwise one new compartment and one new connector are
     * appended and posed for the current `t`, and the new count is returned.
     * The engine and the earlier cars and connectors are not touched.
     */
    method AddCompartment(currentT: real) returns (r: Option<int>)
      requires Valid() && Assembled()
      modifies this, scene
      ensures Valid() && Assembled()
      ensures numCompartments == CountAfter(old(numCompartments), AddCar, minCompartments, maxCompartments)
      ensures r.None? <==> old(numCompartments) >= maxCompartments
      ensures r.Some? ==> r.value == numCompartments
      ensures engine == old(engine) && wheelRotationSpeed == old(wheelRotationSpeed)
      ensures r.None? ==>
        compartments == old(compartments) && connectors == old(connectors) && scene.members == old(scene.members)
      ensures r.Some? ==>
        var n := |old(compartments)|;
        && |compartments| == n + 1 && compartments[..n] == old(compartments)
        && |connectors| == n + 1 && connectors[..n] == old(connectors)
        && fresh(compartments[n]) && fresh(connectors[n])
        && scene.members == old(scene.members) + {compartments[n], connectors[n]}
        && OnCurveAt(compartments[n], CarParam(currentT, dt, n))
        && LinkPlaced(connectors[n], FrontCar(n), FrontHitch(n), compartments[n])
      ensures unchanged(engine) && forall o :: o in old(compartments) || o in old(connectors) ==> unchanged(o)
    {
      if numCompartments >= maxCompartments {
        return None;
      }
      AppendCar(currentT);
      r := Some(numCompartments);
    }

    /** The body of `addCompartment` past its guard. */
    method AppendCar(currentT: real)
      requires Valid() && Assembled() && numCompartments < maxCompartments
      modifies this, scene
      ensures Valid() && Assembled()
      ensures numCompartments == old(numCompartments) + 1
      ensures engine == old(engine) && wheelRotationSpeed == old(wheelRotationSpeed)
      ensures var n := |old(compartments)|;
        && |compartments| == n + 1 && compartments[..n] == old(compartments)
        && |connectors| == n + 1 && connectors[..n] == old(connectors)
        && fresh(compartments[n]) && fresh(connectors[n])
        && scene.members == old(scene.members) + {compartments[n], connectors[n]}
        && OnCurveAt(compartments[n], CarParam(currentT, dt, n))
        && LinkPlaced(connectors[n], FrontCar(n), FrontHitch(n), compartments[n])
    {
      ghost var n := |compartments|;
      var c, k := PushParts();
      var lastIndex := |compartments| - 1;
      assert lastIndex == n;
      assert lastIndex > 0 ==> compartments[lastIndex - 1] == old(compartments)[lastIndex - 1];
      SetObjectOnCurve(c, math, curve, CarParam(currentT, dt, lastIndex), RideHeight);
      PlaceConnector(k, FrontCar(lastIndex), FrontHitch(lastIndex), c);
      numCompartments := numCompartments + 1;
      assert compartments[n] == c && connectors[n] == k;
    }

    /** A new compartment and connector, each added to the scene and pushed onto its array. */
    method PushParts() returns (c: SceneObject, k: SceneObject)
      requires engine != null && Formation(engine, compartments, connectors, scene.members)
      modifies this, scene
      ensures fresh(c) && fresh(k) && c != k
      ensures compartments == old(compartments) + [c] && connectors == old(connectors) + [k]
      ensures scene.members == old(scene.members) + {c} + {k}
      ensures engine == old(engine) && numCompartments == old(numCompartments)
      ensures wheelRotationSpeed == old(wheelRotationSpeed)
      ensures Formation(engine, compartments, connectors, scene.members)
    {
      c := new SceneObject();
      k := new SceneObject();
      FormationPush(engine, compartments, connectors, scene.members, c, k);
      scene.Add(c);
      compartments := compartments + [c];
      scene.Add(k);
      connectors := connectors + [k];
    }

    /**
     * `removeCompartment()`: at the minimum nothing happens and nothing is
     * returned; otherwise the last compartment and connector are popped and
     * taken out of the scene, and the new count is returned. Before
     * `setupTrain` the arrays are empty, so popping takes nothing. The
     * engine and the remaining cars and connectors are not touched.
     */
    method RemoveCompartment() returns (r: Option<int>)
      requires Valid()
      modifies this, scene
      ensures Valid() && (Assembled() <==> old(Assembled())) && (Unassembled() <==> old(Unassembled()))
      ensures numCompartments == CountAfter(old(numCompartments), RemoveCar, minCompartments, maxCompartments)
      ensures r.None? <==> old(numCompartments) <= minCompartments
      ensures r.Some? ==> r.value == numCompartments
      ensures engine == old(engine) && wheelRotationSpeed == old(wheelRotationSpeed)
      ensures r.None? || old(compartments) == [] ==>
        compartments == old(compartments) && connectors == old(connectors) && scene.members == old(scene.members)
      ensures r.Some? && old(compartments) != [] ==>
        var n := |old(compartments)| - 1;
        && compartments == old(compartments)[..n] && connectors == old(connectors)[..n]
        && scene.members == old(scene.members) - {old(compartments)[n], old(connectors)[n]}
      ensures engine != null ==> unchanged(engine)
      ensures forall o :: o in compartments || o in connectors ==> unchanged(o)
    {
      if numCompartments <= minCompartments {
        return None;
      }
      DropLastCar();
      r := Some(numCompartments);
    }

    /** The body of `removeCompartment` past its guard. */
    method DropLastCar()
      requires Valid() && numCompartments > minCompartments
      modifies this, scene
      ensures Valid() && (Assembled() <==> old(Assembled())) && (Unassembled() <==> old(Unassembled()))
      ensures numCompartments == old(numCompartments) - 1
      ensures engine == old(engine) && wheelRotationSpeed == old(wheelRotationSpeed)
      ensures old(compartments) == [] ==>
        compartments == old(compartments) && connectors == old(connectors) && scene.members == old(scene.members)
      ensures old(compartments) != [] ==>
        var n := |old(compartments)| - 1;
        && compartments == old(compartments)[..n] && connectors == old(connectors)[..n]
        && scene.members == old(scene.members) - {old(compartments)[n], old(connectors)[n]}
    {
      if compartments != [] && connectors != [] {
        var lastCompartment := compartments[|compartments| - 1];
        var lastConnector := connectors[|connectors| - 1];
        FormationPop(engine, compartments, connectors, scene.members);
        compartments := compartments[..|compartments| - 1];
        connectors := connectors[..|connectors| - 1];
        scene.Remove(lastCompartment);
        scene.Remove(lastConnector);
      }
      numCompartments := numCompartments - 1;
    }

    /** `getTrainState()`: the live counter and arrays, which agree once the train is built. */
    method GetTrainState() returns (s: TrainSnapshot)
      requires Valid()
      ensures s == TrainSnapshot(numCompartments, engine, compartments, connectors)
      ensures engine != null ==> |s.compartments| == s.numCompartments == |s.connectors|
      ensures minCompartments <= s.numCompartments <= maxCompartments
    {
      s := TrainSnapshot(numCompartments, engine, compartments, connectors);
    }
  }

  /** The state `train.js` starts from, with the shipped configuration. */
  method NewTrain(m: MathLib, scene: SceneGraph, localToWorld: (Vec3, Orientation, Vec3) -> Vec3)
    returns (train: TrainState)
    requires Valid(m)
    ensures train.Valid() && train.Unassembled()
    ensures train.math == m && train.curve == TrackCurve && train.scene == scene
    ensures train.minCompartments == 1 && train.maxCompartments == 20 && train.numCompartments == 3
    ensures train.dt == 13.0 / (2.0 * m.pi * 100.0) && train.dt > 0.0
    ensures fresh(train)
  {
    train := new TrainState(m, TrackCurve, scene, localToWorld,
      SimulationConfig.MinCompartments, SimulationConfig.MaxCompartments,
      SimulationConfig.InitialCompartments,
      SimulationConfig.DistanceBetweenCompartments, SimulationConfig.TrackRadius);
  }

  /** A successful add followed by a remove leaves the arrays, the count and the scene as they were. */
  method AddThenRemove(train: TrainState, t: real)
    requires train.Valid() && train.Assembled() && train.numCompartments < train.maxCompartments
    modifies train, train.scene
    ensures train.Valid() && train.Assembled()
    ensures train.compartments == old(train.compartments) && train.connectors == old(train.connectors)
    ensures train.numCompartments == old(train.numCompartments)
    ensures train.scene.members == old(train.scene.members)
  {
    var added := train.AddCompartment(t);
    var removed := train.RemoveCompartment();
  }
}
