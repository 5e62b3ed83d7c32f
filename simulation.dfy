/**
 * src/main.js: the application state (the run flag, the engine parameter `t`
 * and the speed, kept on `window`), the start-up sequence `init` behind the
 * configuration check, and the per-frame step of `animate`. Scene, camera,
 * controls and rendering are not modelled; the train is `Train.TrainState`.
 */
module Simulation {
  import opened Wrappers
  import opened JsNumber
  import opened SimulationConfig
  import Utils
  import Train

  /** One running frame's clock step, `(t + speed) % 1`. */
  function Tick(t: real, speed: real): (r: real)
    ensures 0.0 <= t + speed ==> 0.0 <= r < 1.0 && r == Frac(t + speed)
    ensures t + speed <= 0.0 ==> -1.0 < r <= 0.0
    ensures (t + speed - r).Floor as real == t + speed - r
  {
    JsMod1(t + speed)
  }

  /** The engine parameter after `n` running frames at a constant speed. */
  function Steps(t0: real, speed: real, n: nat): real {
    if n == 0 then t0 else Tick(Steps(t0, speed, n - 1), speed)
  }

  /**
   * From a start in [0,1) and with a non-negative speed, `n` running frames
   * reach the fractional part of `t0 + n * speed`: the per-frame remainders
   * lose nothing.
   */
  lemma {:induction false} StepsWrap(t0: real, speed: real, n: nat)
    requires 0.0 <= t0 < 1.0 && 0.0 <= speed
    ensures Steps(t0, speed, n) == Frac(Travel(t0, speed, n))
    ensures 0.0 <= Steps(t0, speed, n) < 1.0
  {
    if n == 0 {
      FracOfUnit(t0);
    } else {
      StepsWrap(t0, speed, n - 1);
      TravelStep(t0, speed, n);
      TickAfterFrac(Travel(t0, speed, n - 1), speed);
    }
  }

  /** A frame taken from a wrapped value loses nothing against the unwrapped one. */
  lemma TickAfterFrac(a: real, speed: real)
    requires 0.0 <= speed
    ensures Tick(Frac(a), speed) == Frac(a + speed)
  {
    FracAdd(a, speed);
  }

  /** Where the engine would be after `n` frames without any wrapping. */
  function Travel(t0: real, speed: real, n: nat): real {
    t0 + n as real * speed
  }

  lemma TravelStep(t0: real, speed: real, n: nat)
    requires n > 0
    ensures Travel(t0, speed, n) == Travel(t0, speed, n - 1) + speed
  {
  }

  /**
   * The configuration checked at start-up is the one the train was built
   * from: when it has a TRAIN section, its bounds are the train's.
   */
  predicate ConfiguresTrain(config: Config, train: Train.TrainState) {
    config.train.Some? ==>
      && config.train.value.minCompartments == Some(train.minCompartments as real)
      && config.train.value.maxCompartments == Some(train.maxCompartments as real)
  }

  /** The application: `window.isRunning`, `window.t` (mirrored into `t`) and `window.speed`. */
  class App {
    const config: Config
    const train: Train.TrainState
    var isRunning: bool
    var windowT: real
    var t: real
    var speed: real

    /** The state the module sets up when it loads. */
    constructor (config: Config, train: Train.TrainState)
      ensures this.config == config && this.train == train
      ensures !isRunning && t == InitialPosition && windowT == t && speed == DefaultSpeed
    {
      this.config := config;
      this.train := train;
      isRunning := false;
      t := InitialPosition;
      windowT := t;
      speed := DefaultSpeed;
    }

    /**
     * `init()`: with an invalid configuration nothing is set up, not even the
     * scene; otherwise the train is built and posed at `t`, the wheel speed
     * follows the simulation speed, and the train's minimum is at least one.
     */
    method Init() returns (started: bool)
      requires train.Valid() && train.Unassembled() && ConfiguresTrain(config, train)
      modifies train, train.scene
      ensures started <==> !Utils.BadRadius(config) && !Utils.BadMin(config) && !Utils.MaxBelowMinimum(config)
      ensures !started ==> train.Unassembled() && unchanged(train) && unchanged(train.scene)
      ensures started ==> train.Valid() && train.Placed(t) && train.wheelRotationSpeed == speed * 2.0
      ensures started ==> 1 <= train.minCompartments <= train.numCompartments
    {
      var validation := Utils.ValidateConfiguration(config);
      if !validation.isValid {
        var e := validation.errors[0];
        assert e in validation.errors;
        assert e == Utils.InvalidTrackRadius || e == Utils.InvalidMinCompartments || e == Utils.MaxBelowMin;
        return false;
      }
      assert validation.errors == [];
      train.SetupTrain(t);
      train.UpdateWheelRotationSpeed(speed);
      return true;
    }

    /**
     * One `animate()` frame: while running, the clock advances by the speed
     * modulo 1 and the train is posed at the new value; while stopped,
     * nothing changes.
     */
    method Animate()
      requires train.Assembled()
      modifies this, train.engine, train.compartments, train.connectors
      ensures isRunning == old(isRunning) && speed == old(speed)
      ensures !old(isRunning) ==> windowT == old(windowT) && t == old(t)
      ensures !old(isRunning) ==> unchanged(train.engine) && forall o :: o in train.compartments || o in train.connectors ==> unchanged(o)
      ensures old(isRunning) ==> windowT == Tick(old(windowT), speed) && t == windowT && train.Placed(t)
    {
      if isRunning {
        windowT := Tick(windowT, speed);
        t := windowT;
        train.UpdateTrainPosition(t);
      }
    }
  }
}
