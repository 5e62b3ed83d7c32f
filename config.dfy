/**
 * The shipped simulation configuration (src/core/constants.js), and the shape
 * of a configuration object as the validator sees it: a property that is
 * missing is `None`.
 */
module SimulationConfig {
  import opened Wrappers

  const TrackRadius: real := 100.0
  const TrackGauge: real := 5.0

  const SafeRadiusOffset: real := 15.0

  const DistanceBetweenCompartments: real := 13.0
  const MinCompartments: int := 1
  const MaxCompartments: int := 20
  const InitialCompartments: int := 3
  const InitialPosition: real := 0.25
  const DefaultSpeed: real := 0.001

  const StationPositionT: real := 0.25
  const StationFootprintWidth: real := 80.0
  const StationFootprintLength: real := 120.0

  const TunnelLength: real := 30.0
  const TunnelTubeRadius: real := 6.0
  const TunnelCenterT: real := 0.75

  datatype TrackConfig = TrackConfig(radius: Option<real>)
  datatype TrainConfig = TrainConfig(minCompartments: Option<real>, maxCompartments: Option<real>)
  datatype Config = Config(track: Option<TrackConfig>, train: Option<TrainConfig>)

  /** `SIMULATION_CONFIG` as far as the validator reads it. */
  const Shipped: Config :=
    Config(Some(TrackConfig(Some(TrackRadius))),
           Some(TrainConfig(Some(MinCompartments as real), Some(MaxCompartments as real))))
}
