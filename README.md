# Train simulator: a Dafny model of its geometry and state

The train simulator runs a steam train around a circular track in a three.js
scene. It has a station at a quarter turn, a tunnel at three quarters, trees
kept out of both, and controls to start and stop the train, change its speed,
and add or remove compartments. The repository holds two generations of the
program:

- the module version under `src/`;
- the earlier script version under `js/`.

This project models the parts that decide where things are and how the
train's state evolves:

- **Track curve** (`Scene`): `CircleCurve`'s point, tangent and normal.
  `setObjectOnCurve` puts an object on the curve and faces it along the
  tangent.
- **JavaScript remainders** (`JsNumber`): `x % 1` and the wrap-around
  `((x % 1) + 1) % 1` are stated with truncation, as JavaScript computes them.
- **Train** (`Train`, `LegacyTrain`): a class over the module state of
  `train.js`:
  - the engine, the parallel arrays of compartments and connectors, and the
    counter;
  - `setupTrain`, `updateTrainPosition`, `updateConnectorPositions`,
    `updateWheelRotationSpeed`, `addCompartment`, `removeCompartment` and
    `getTrainState`.
  The pose of every object is proved against the curve: compartment `i` sits
  at `((t - (i + 1) * dt) % 1 + 1) % 1`, and each connector sits between its
  two cars' hitches.
- **Application clock** (`Simulation`, `LegacyMain`): start-up behind the
  configuration check, and the per-frame step `t := (t + speed) % 1`.
- **Configuration** (`SimulationConfig`, `Utils`): the shipped constants,
  `validateConfiguration`, `clamp` and `lerp`.
- **Tunnel** (`Tunnel`, `LegacyTunnel`): the tunnel path over the track, the
  record `createTunnel` returns, and the footprint test `isInTunnelArea`.
- **Station** (`Station`): the footprint record of the three `createStation`
  copies and the area test `isInStationArea`.
- **Tree placement test** (`Tree`): the earlier bounding-box test and the
  earlier loop's rejection test.
- **Environment** (`Environment`): the order in which `setupEnvironment`
  builds the station and the tunnel, and the spots tree placement turns down:
  the safe circle of radius 120 around the track centre, the station's area
  and the tunnel's area.
- **Shared-resource caches**: the reference-counted `GeometryPool` and the
  lazy `MaterialManager`.

State the source updates in place is modelled as classes:

- the train module;
- the application clock;
- the geometry pool;
- the material manager;
- scene objects and the scene's membership set.

Values that are built once are modelled as datatypes and functions: the
curve, the tunnel path and record, and the station footprint.

Numbers are exact reals. `Math.PI`, `sin`, `cos`, `sqrt` and `atan2` are
fields of a `JsMath.MathLib` value passed in. `JsMath.Valid` names the
identities the proofs rely on:

- `sin² + cos² = 1`;
- `sin` and `cos` repeat after `2π`;
- for `v >= 0`, `sqrt(v)` is non-negative and squares back to `v`;
- the range of `atan2`;
- `3.14 < π < 3.15`.

`Object3D.localToWorld` is a function of an object's pose and a local point,
fixed for the train.

Where two copies of a file are the same code, one member models both:

- `js/curves.js` and `js/scene.js` against `src/core/scene.js`;
- the four copies of `isInStationArea`;
- `setupTrain`, `updateTrainPosition`, `updateConnectorPositions` and
  `updateWheelRotationSpeed` in js/train.js:183-231 against their
  `src/components/train/train.js` twins, modelled by the `Train.TrainState`
  methods.

Where the copies differ, the earlier code has its own members:

- the literal bounds of js/train.js, and `addCompartment` and
  `removeCompartment` returning nothing;
- the remainder-based arc and `% 1` path of js/tunnel.js;
- the station footprint sizes;
- js/main.js without configuration check.

## Model

| member | source | states |
|---|---|---|
| JsNumber.JsMod1 | src/main.js:62 | `x % 1` is the fractional part `x - floor(x)` for non-negative `x`, lies in (-1, 0] for non-positive `x`, and differs from `x` by a whole number |
| JsNumber.Wrap | src/components/train/train.js:231 | `((x % 1) + 1) % 1` is the fractional part `x - floor(x)` for every `x`, negative ones included, so it lies in [0,1) |
| Scene.PointOnCircle | src/core/scene.js:13-20 | `getPoint(t)` lies in the plane y = 0 at distance `radius` from the centre |
| Scene.TangentIsUnitAndOrthogonal | src/core/scene.js:22-25 | `getTangent(t)` is `(-sin, 0, cos)` of the angle, a horizontal unit vector orthogonal to the point |
| Scene.NormalPointsToCentre | src/core/scene.js:27-30 | `getNormal(t)` is a horizontal unit vector orthogonal to the tangent, and is the point scaled by `-1/radius`, so it points at the centre |
| Scene.CurveIsPeriodic | js/curves.js:10-27 | parameters one apart give the same point, tangent and normal |
| Scene.PositionOnCurve | src/core/scene.js:90-92 | the object's position has the curve point's x and z, at height `yOffset` |
| Scene.HorizontalFrame | src/core/scene.js:94-97 | for a horizontal unit forward vector, `normalize(up x forward)` is `(fz, 0, -fx)` and the corrected up is the world up `(0, 1, 0)` |
| Scene.PlacementOnCurve | src/core/scene.js:94-99 | an object set on the curve faces along the horizontal unit tangent and stays upright: its basis is `((fz, 0, -fx), (0, 1, 0), f)` |
| Scene.SetObjectOnCurve | src/core/scene.js:89-100 | the object's new position is the curve point raised by `yOffset`, and its orientation is the basis built on the tangent |
| Train.CarParam | src/components/train/train.js:230-233 | every compartment's curve parameter lies in [0,1) |
| Train.CarParamPeriodic | src/components/train/train.js:231 | moving the engine by one full lap leaves every compartment's parameter unchanged |
| Train.CarSpacing | src/components/train/train.js:231 | compartment `i + 1` trails compartment `i` by exactly `dt` around the circle, across the seam t = 0 too |
| Train.FirstCarTrailsEngine | src/components/train/train.js:231 | the first compartment trails the wrapped engine parameter by exactly `dt` |
| Train.CountAfter | src/components/train/train.js:269-305 | an add raises the counter by one exactly when it is below the maximum, otherwise it is unchanged; a remove lowers it by one exactly when it is above the minimum; within [min, max] it stays there |
| Train.CountAfterAll | src/components/train/train.js:269-305 | any sequence of adds and removes keeps a counter within [min, max] and moves it by at most one per operation |
| Train.RemovesStopAtMin | src/components/train/train.js:294-305 | pressing remove `n` times takes the counter to `count - n`, or to the minimum if that is higher |
| Train.AddsStopAtMax | src/components/train/train.js:269-292 | pressing add `n` times takes the counter to `count + n`, or to the maximum if that is lower |
| Train.AddThenRemoveCount | src/components/train/train.js:269-305 | below the maximum, an add followed by a remove restores the counter |
| Train.TrainState.constructor | src/components/train/train.js:7-11 | no engine and empty arrays; the counter at its initial value; `dt = distanceBetween / (2 * PI * radius)`; wheel speed 0.002 |
| Train.TrainState.SetupTrain | src/components/train/train.js:219-236 | builds a fresh engine and `numCompartments` fresh, distinct compartments and connectors. The scene gains exactly these objects and loses none. The call leaves the whole formation posed for `t` |
| Train.TrainState.PlaceCars | src/components/train/train.js:228-233 | the engine sits on the curve at `t` and compartment `i` at `CarParam(t, dt, i)`, at ride height 1.5 and facing along the tangent |
| Train.TrainState.PlaceConnector | src/components/train/train.js:241-248 | the connector sits halfway between the front car's rear hitch and the back car's front hitch, facing the latter |
| Train.TrainState.UpdateConnectorPositions | src/components/train/train.js:238-250 | every connector `i` sits between its front car (the engine for the first) and compartment `i` |
| Train.TrainState.UpdateTrainPosition | src/components/train/train.js:252-263 | the engine, every compartment and every connector are posed for the new `t` |
| Train.TrainState.UpdateWheelRotationSpeed | src/components/train/train.js:265-267 | the wheel rotation speed becomes twice the simulation speed; the formation and the counter are untouched |
| Train.TrainState.AddCompartment | src/components/train/train.js:269-292 | at the maximum: nothing returned and nothing changed. Otherwise: the counter rises by one and is returned; one fresh compartment and one fresh connector are appended and added to the scene; the compartment is posed at `CarParam(t, dt, n)` and the connector joins it to the car in front; the engine and earlier objects are untouched |
| Train.TrainState.RemoveCompartment | src/components/train/train.js:294-305 | at the minimum: nothing returned and nothing changed. Otherwise: the counter falls by one and is returned; the last compartment and connector are popped and leave the scene; the remaining objects are untouched |
| Train.TrainState.GetTrainState | src/components/train/train.js:317-324 | the snapshot is the live counter and arrays; once built, both arrays have the counter's length; the counter is within its bounds |
| Train.NewTrain | src/core/constants.js:7-14 | the shipped train starts unbuilt, with bounds 1 and 20, 3 compartments and `dt = 13 / (200 * PI) > 0` |
| Train.AddThenRemove | src/components/train/train.js:269-305 | below the maximum, an add followed by a remove gives back the same arrays, counter and scene membership |
| LegacyTrain.NewLegacyTrain | js/train.js:1-5 | the earlier train starts unbuilt, with bounds 1 and 20 written in, 3 compartments and `dt = 13 / (200 * PI)` |
| LegacyTrain.LegacyAddCompartment | js/train.js:233-256 | at 20 compartments nothing changes, the scene included. Below that: one fresh compartment and one fresh connector are appended and both are added to the scene, which gains nothing else. The compartment is posed at `CarParam(t, dt, n)` and the connector is placed between its front neighbour's hitch and it. The earlier cars and connectors are kept, and the engine and earlier objects are untouched |
| LegacyTrain.LegacyRemoveCompartment | js/train.js:258-269 | the engine is kept. At one compartment nothing changes, the scene included. Above that: the last compartment and connector are popped and leave the scene, and the rest are untouched |
| Simulation.Tick | src/main.js:62 | `(t + speed) % 1` is the fractional part of the sum for non-negative sums, and lies in (-1, 0] for non-positive ones |
| Simulation.TickAfterFrac | src/main.js:62 | for a non-negative speed, a frame taken from a wrapped value gives the same result as wrapping the unwrapped sum |
| Simulation.StepsWrap | src/main.js:61-65 | from a start in [0,1) at a non-negative speed, `n` running frames reach the fractional part of `t0 + n * speed`: the per-frame remainders lose nothing |
| Simulation.App.constructor | src/main.js:10-16 | the application starts stopped at `t = 0.25`, mirrored in `window.t`, with speed 0.001 |
| Simulation.App.Init | src/main.js:18-55 | given a configuration whose train bounds are the train module's own, start-up succeeds exactly when no configuration check fails. On failure the train and the scene are left untouched and the train stays unbuilt. On success the train is built with at least one compartment, posed at `t`, and the wheel speed is twice the speed |
| Simulation.App.Animate | src/main.js:57-68 | while running, `window.t` becomes `(window.t + speed) % 1`, `t` mirrors it, and the whole train is posed there; while stopped, nothing changes |
| LegacyMain.LegacyApp.constructor | js/main.js:1-4 | the earlier application starts stopped at `t = 0.25` with speed 0.001 |
| LegacyMain.LegacyApp.Init | js/main.js:6-20 | with no configuration check, the train is built and posed at `t` and the wheel speed is twice the speed |
| LegacyMain.LegacyApp.Animate | js/main.js:22-32 | while running, `t` becomes `(t + speed) % 1` and the train is posed there; while stopped, nothing changes |
| Utils.ValidateConfiguration | src/utils/index.js:2-21 | each of the three errors is reported exactly when its check fails, in check order, at most once each; the result is valid exactly when there are no errors. A missing property compares as JavaScript `undefined` does |
| Utils.MissingTrainIsNotMaxBelowMin | src/utils/index.js:9-15 | a missing TRAIN section is reported as a bad minimum and never as max below min |
| Utils.ShippedConfigIsValid | src/core/constants.js:3-14 | the shipped configuration passes every check |
| Utils.Clamp | src/utils/index.js:35-37 | with `min <= max` the result lies in [min, max], equals `value` when that already does, `min` when `value` is below it and `max` when `value` is above it; with `max < min` the result is `max` |
| Utils.Lerp | src/utils/index.js:39-41 | factor 0 gives `start`, factor 1 gives `end`, and factor 0.5 gives the midpoint |
| Tunnel.NewTunnelPath | src/components/environment/tunnel.js:6-27 | the arc is the forward distance from start to end, raised to 0.01 when it is shorter; it is never below 0.01 |
| Tunnel.ArcIsForwardDistance | src/components/environment/tunnel.js:13-18 | for ends in [0,1), the two-branch arc formula is the forward distance `frac(tEnd - tStart)` |
| Tunnel.GetPoint | src/components/environment/tunnel.js:29-42 | the path point is the track point at the mapped parameter, at the path's elevation |
| Tunnel.PathFollowsTrack | src/components/environment/tunnel.js:29-54 | every path point lies over the track circle at the path's height, and the path tangent is a horizontal unit vector |
| Tunnel.PathEndpoints | src/components/environment/tunnel.js:29-42 | unless the minimum arc applied, the path starts at `tStart` and ends at `tEnd`, also across the seam |
| Tunnel.PathOffset | src/components/environment/tunnel.js:32-37 | a distance `d` up to the arc's length, mapped by either branch, lands in [0,1), exactly `d` ahead of the start |
| Tunnel.ScaledWithin | src/components/environment/tunnel.js:33 | for `t` in [0,1], `t * arcLength` lies between 0 and the arc's length |
| Tunnel.PathStaysInArc | src/components/environment/tunnel.js:29-42 | every path point lies inside the tunnel's own arc test |
| Tunnel.PathParamStaysInArc | src/components/environment/tunnel.js:29-42 | for every path parameter `t` in [0,1], the main-curve parameter the path maps it to lies inside the tunnel's arc test |
| Tunnel.CreateTunnel | src/components/environment/tunnel.js:57-116 | the tunnel always exists: its ends are `CENTER_T ± deltaT/2` wrapped into [0,1), its radius is the track's, its width twice the tube radius and its length twice `LENGTH`. The zero-arc bail-out cannot fire |
| Tunnel.TunnelSpansDeltaT | src/components/environment/tunnel.js:63-72 | going forward, the tunnel's ends are `deltaT` apart, up to whole turns |
| Tunnel.ShippedTunnel | src/components/environment/tunnel.js:57-82 | on the radius-100 track, `deltaT` is between 0.09 and 0.1; the ends are `0.75 ∓ deltaT/2`; the path keeps the arc unchanged |
| Tunnel.PointParamInRange | src/components/environment/tunnel.js:122 | the angle of (x, z) as a share of a turn lies in [0,1) |
| Tunnel.InArcIsForwardDistance | src/components/environment/tunnel.js:125-132 | the two-case arc test holds exactly when the point's forward distance from the start is at most the end's |
| Tunnel.IsInTunnelArea | src/components/environment/tunnel.js:118-138 | without tunnel data no point is in the tunnel area |
| Tunnel.TunnelAreaCharacterised | src/components/environment/tunnel.js:118-138 | a point is in the tunnel area exactly when its angle is at most the tunnel's arc ahead of the start and its distance from the centre is strictly within half the width of the tunnel's radius |
| LegacyTunnel.NewLegacyPath | js/tunnel.js:4-18 | the arc is the remainder of the forward distance; a zero remainder between different ends is read as a full turn |
| LegacyTunnel.LegacyArcIsForwardDistance | js/tunnel.js:10 | for ends in [0,1), the remainder is the forward distance `frac(tEnd - tStart)`, which is zero exactly when the ends coincide |
| LegacyTunnel.FixupUnreachable | js/tunnel.js:10-16 | for ends in [0,1) the full-turn fix-up never applies |
| LegacyTunnel.FixupForWholeTurn | js/tunnel.js:11-12 | for ends 0 and 1 the remainder is zero and the fix-up makes the path a full turn |
| LegacyTunnel.LegacyGetPoint | js/tunnel.js:20-26 | the path point is the track point at `(tStart + t * arcLength + 1) % 1`, at the path's elevation |
| LegacyTunnel.LegacyOffset | js/tunnel.js:22 | from a start in [0,1), a distance in [0,1) lands in [0,1), exactly that far ahead |
| LegacyTunnel.LegacyPathEndpoints | js/tunnel.js:20-26 | for ends in [0,1) the earlier path starts at `tStart` and ends at `tEnd` |
| LegacyTunnel.LegacyPathStaysInArc | js/tunnel.js:20-26 | every point of the earlier path lies inside the tunnel's arc test |
| LegacyTunnel.LegacyPathParamStaysInArc | js/tunnel.js:20-26 | for every path parameter `t` in [0,1], the earlier path's main-curve parameter lies inside the tunnel's arc test |
| LegacyTunnel.LegacyCreateTunnel | js/tunnel.js:29-68 | the tunnel is left out exactly when the path's arc is not positive; otherwise its record has the wrapped ends, the track radius, width 12 and length 30 |
| LegacyTunnel.LegacyTunnelDroppedOnWholeTurns | js/tunnel.js:34-50 | for a tunnel up to 3.5 turns long, it is left out exactly when it covers a whole number of turns |
| LegacyTunnel.LegacyShippedTunnel | js/tunnel.js:29-67 | on the radius-100 track the earlier tunnel exists: `deltaT` is between 0.04 and 0.05, and the ends are `0.75 ∓ deltaT/2` |
| Station.CreateStation | src/components/station/station.js:35-121 | the footprint holds the curve's point and tangent at the station's parameter, the normal `StationNormal` of that tangent, and the given width and length |
| Station.CreateConfiguredStation | src/components/station/station.js:114-121 | the module station's footprint is 80 by 120 at a quarter turn |
| Station.CreateSmallStation | js/station.js:130-137 | the earlier footprint is 22 by 50: the larger of platform and building, plus 10 |
| Station.CreateLargeStation | js/station/station.js:90-98 | that copy's footprint is 80 by 120 at a quarter turn |
| Station.StationFrame | src/components/station/station.js:42-43 | the normal `normalize((tz, 0, -tx))` needs no scaling; with the tangent it forms an orthonormal horizontal frame |
| Station.StationFacesOutward | js/station.js:19-20 | the station normal is the station's position scaled to unit length, so it points away from the centre |
| Station.IsInStationArea | src/components/station/station.js:124-134 | without a station no point is in its area |
| Station.StationAreaInFrame | src/components/station/station.js:124-134 | in the station's frame, the area is exactly the open box `|a| < length/2`, `-width/4 < f < width` |
| Station.StationAreaSymmetric | js/station.js:140-151 | mirroring a point along the track about the station does not change whether it is in the area |
| Station.StationAreaIgnoresHeight | js/station/station.js:129-139 | the heights of the station's position, tangent and normal play no part in the test |
| Station.StationContainsItsPosition | src/components/environment.js:10-20 | a station with a footprint of positive size contains its own position |
| Tree.IsInTunnelBox | js/tree.js:5-9 | a missing box or a missing corner excludes nothing |
| Tree.BoxIsProductOfRanges | js/tree.js:7-8 | with both corners given, the box holds exactly the points between them on x and on z, bounds included |
| Tree.BoxContainsCorners | js/tree.js:7-8 | all four corners of a well-formed box lie in it |
| Tree.InvertedBoxIsEmpty | js/tree.js:7-8 | a box whose minimum exceeds its maximum on either axis holds nothing |
| Tree.BoxIgnoresHeight | js/tree.js:5-9 | the corners' heights play no part |
| Tree.LegacyTrackKeptClear | js/tree.js:37-53 | whatever station and tunnel box the earlier loop is handed, it turns down every point of the track, since each lies inside the safe circle of radius `radius + gauge + 15` |
| Environment.SetupEnvironment | src/components/environment.js:22-37 | the environment holds the configured station and the tunnel on the configured radius, and the tunnel always exists |
| Environment.SafeCircleIsDisc | src/components/environment/trees.js:32-36 | `Math.sqrt(x*x + z*z) < safeRadius` holds exactly when `x*x + z*z` is below the square of the safe radius 120 |
| Environment.TrackKeptClear | src/components/environment/trees.js:31-43 | the placement loop turns down every point of the track: each lies inside the safe circle |
| Environment.StationOutsideTunnel | src/components/environment.js:28-34 | in the shipped layout the station's parameter lies outside the tunnel's arc, and trees are kept off the station's own position |
| GeometryPool.Acquire | src/core/geometry-pool.js:8-20 | a get adds the key with count 1, or raises its count by one, and leaves every other count as it was |
| GeometryPool.Release | src/core/geometry-pool.js:22-38 | a release leaves unknown keys alone; it removes a key whose count would reach zero and lowers the count otherwise |
| GeometryPool.AcquireKeepsPositive | src/core/geometry-pool.js:11-18 | after a get every stored count is still at least one |
| GeometryPool.ReleaseKeepsPositive | src/core/geometry-pool.js:25-36 | after a release every stored count is still at least one, because a count that would reach zero is removed |
| GeometryPool.ReleaseUndoesAcquire | src/core/geometry-pool.js:8-38 | a release undoes a get, and a key that was absent is absent again |
| GeometryPool.AcquireNKeepsPositive | src/core/geometry-pool.js:8-20 | any number of gets keeps every count positive |
| GeometryPool.ReleaseNUndoesAcquireN | src/core/geometry-pool.js:8-38 | `n` gets followed by `n` releases of a key give back the counts from before |
| GeometryPool.Pool.constructor | src/core/geometry-pool.js:3-6 | the pool starts with both maps empty |
| GeometryPool.Pool.GetGeometry | src/core/geometry-pool.js:8-20 | the counts follow `Acquire`. A known key returns the stored geometry with the map unchanged; otherwise a fresh geometry for the key is stored and returned. Both maps keep the same keys |
| GeometryPool.Pool.ReleaseGeometry | src/core/geometry-pool.js:22-38 | the counts follow `Release`. A geometry whose key leaves the pool is disposed; the remaining entries and geometries are unchanged |
| GeometryPool.Pool.Dispose | src/core/geometry-pool.js:40-46 | every stored geometry is disposed and both maps are emptied |
| Materials.Lookup | src/core/materials.js:44-54 | a lookup adds its name to the cache exactly when the name is configured, and nothing else |
| Materials.OnlyConfiguredCached | src/core/materials.js:44-54 | whatever names are looked up, only configured names are ever cached, and cached names stay cached |
| Materials.LookupAllCaches | src/core/materials.js:44-54 | after a run of lookups, a name is cached exactly when it was cached before or is configured and was looked up |
| Materials.MaterialManager.constructor | src/core/materials.js:5-8 | the manager starts with an empty cache and not initialised |
| Materials.MaterialManager.Materials | src/core/materials.js:10-16 | the getter leaves the manager initialised, and never resets it or the cache |
| Materials.MaterialManager.Get | src/core/materials.js:44-54 | a cached name returns its material. A configured new name returns a fresh material built from its own table entry, and caches it. Any other name returns nothing and caches nothing |
| Materials.MaterialManager.Dispose | src/core/materials.js:57-62 | every cached material is disposed and the cache is emptied; the initialised flag is kept |

## Left out

- Rendering, camera, lights, orbit controls, window resizing and the DOM
  controls (`setupControls`, `updateCompartmentInfo`, `formatSpeed`,
  `debounce`). They are I/O with no state the model reads.
- Mesh construction: engine, compartment, wheel, connector, platform,
  building, amenity, ground, track and tree meshes, and `addToGroup`. Scene
  objects keep only their pose and their scene membership.
- `rotateWheels`: it walks the children of three.js groups and touches only
  wheel meshes, which are not modelled. Only the wheel speed is kept.
- `populateTrees` and `createTree`: the random positions, the tree count,
  the ground size and the tree meshes are left out. The loop's rejection
  test is modelled: the safe circle, the station's area and the tunnel's
  area (`Environment.KeptClearOfTrees`, `Tree.LegacyKeptClearOfTrees`).
- The `requestAnimationFrame` loop: one frame is `Animate`, and repeated
  frames are `Simulation.Steps`.
- Floating point: numbers are exact reals. Rounding in the remainders and in
  `Math.sqrt` is not modelled.
- `Math.PI`, `sin`, `cos`, `sqrt` and `atan2` are a `MathLib` parameter
  with the identities listed above, not the IEEE functions.
- `Object3D.lookAt` and `Matrix4.makeBasis` are the orientation values
  `FacingToward(target)` and `Basis(right, up, forward)`, not quaternions.
  `localToWorld` is a function of the pose and is not computed from them.
- `Scene.SetObjectOnCurve`: the three.js `normalize()` of the cross products
  is modelled with `JsMath.Normalize`. Its exactness is proved only for
  horizontal unit tangents (`Scene.HorizontalFrame`).
- The `try`/`catch` blocks of `init` and `createTunnel`: the model has no
  exceptions, so the catch branches are not modelled.
- `setupScene`, and the environment data `init` obtains from
  `setupEnvironment` without using it. `Simulation.App.Init` leaves them
  out; `Environment.SetupEnvironment` models the latter on its own.
- js/environment.js calls no tunnel code. It is a context file and is not
  part of this model.
- `GeometryPool.GeometryKey`: the source key is the string
  `${type}_${JSON.stringify(args)}`. The model uses the pair (type, args),
  so keys that would collide as strings are kept apart.
- `CommonGeometries` and `createOptimizedGeometry` only forward to
  `getGeometry`.
- `Materials.MaterialManager.Get`: the source's proxy also answers names
  inherited from `Object.prototype`, such as `toString`. The model treats
  only the configured table as configured.
- js/materials.js is a plain table of materials, and src/core/constants.js
  a plain table of numbers. Only the entries the model reads are kept
  (`SimulationConfig`).
- The tunnel mesh's own material (colour 0x404040 in
  src/components/environment/tunnel.js) and its tube segments are left out.
- js/curves.js and js/scene.js `setObjectOnCurve` are the same code as
  src/core/scene.js and are modelled by the same members. The earlier tunnel
  path has no `getTangent`.
- `Tunnel.PathOffset`, `Tunnel.PathStaysInArc`,
  `LegacyTunnel.LegacyPathStaysInArc`: stated over the distance
  `d = t * arcLength`. `Tunnel.PathParamStaysInArc` and
  `LegacyTunnel.LegacyPathParamStaysInArc` restate them over the path
  parameter `t` in [0,1].
- `Train.TrainState.AddCompartment`, `Train.TrainState.RemoveCompartment`:
  they state that the engine and the untouched cars and connectors keep
  their pose (`unchanged`). They do not restate the whole formation's pose
  predicate afterwards.
- `LegacyTrain.LegacyAddCompartment`, `LegacyTrain.LegacyRemoveCompartment`:
  they require an assembled train. The earlier script's `removeCompartment`
  before `setupTrain` pops from empty arrays; the module version of that
  case is covered by `Train.TrainState.RemoveCompartment`.
- `Simulation.App.Animate`, `LegacyMain.LegacyApp.Animate`: they require an
  assembled train. The source calls `animate` only after `setupTrain`.
