/**
 * js/main.js: the earlier entry point. The same clock as `Simulation`, held
 * in the script's own `t` and `isRunning`, with `window.speed`; start-up has
 * no configuration check. The train is the one of js/train.js, built by
 * `LegacyTrain.NewLegacyTrain`.
 */
module LegacyMain {
  import Simulation
  import Train

  class LegacyApp {
    const train: Train.TrainState
    var isRunning: bool
    var t: real
    var speed: real

    /** The script's top-level state: stopped, at 0.25, with speed 0.001. */
    constructor (train: Train.TrainState)
      ensures this.train == train
      ensures !isRunning && t == 0.25 && speed == 0.001
    {
      this.train := train;
      isRunning := false;
      t := 0.25;
      speed := 0.001;
    }

    /** `init()`: builds the train at `t` and sets the wheel speed, unconditionally. */
    method Init()
      requires train.Valid() && train.Unassembled()
      modifies train, train.scene
      ensures train.Valid() && train.Placed(t) && train.wheelRotationSpeed == speed * 2.0
    {
      train.SetupTrain(t);
      train.UpdateWheelRotationSpeed(speed);
    }

    /** One `animate()` frame: `t := (t + speed) % 1` and a re-pose while running, nothing otherwise. */
    method Animate()
      requires train.Assembled()
      modifies this, train.engine, train.compartments, train.connectors
      ensures isRunning == old(isRunning) && speed == old(speed)
      ensures !old(isRunning) ==> t == old(t)
      ensures !old(isRunning) ==> unchanged(train.engine) && forall o :: o in train.compartments || o in train.connectors ==> unchanged(o)
      ensures old(isRunning) ==> t == Simulation.Tick(old(t), speed) && train.Placed(t)
    {
      if isRunning {
        t := Simulation.Tick(t, speed);
        train.UpdateTrainPosition(t);
      }
    }
  }
}
