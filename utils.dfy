/** src/utils/index.js: configuration validation, `clamp` and `lerp`. */
module Utils {
  import opened Wrappers
  import opened SimulationConfig

  datatype ConfigError =
    | InvalidTrackRadius            // "Invalid track radius"
    | InvalidMinCompartments        // "Invalid minimum compartments"
    | MaxBelowMin                   // "Max compartments must be >= min compartments"

  datatype Validation = Validation(isValid: bool, errors: seq<ConfigError>)

  /** JavaScript `a < b` where either side may be `undefined` (then it is false). */
  predicate JsLess(a: Option<real>, b: Option<real>) {
    a.Some? && b.Some? && a.value < b.value
  }

  /** The order in which the checks run. */
  function Rank(e: ConfigError): nat {
    match e
    case InvalidTrackRadius => 0
    case InvalidMinCompartments => 1
    case MaxBelowMin => 2
  }

  predicate BadRadius(config: Config) {
    config.track.None? || JsLess(config.track.value.radius, Some(0.0)) || config.track.value.radius == Some(0.0)
  }

  predicate BadMin(config: Config) {
    config.train.None? || JsLess(config.train.value.minCompartments, Some(1.0))
  }

  predicate MaxBelowMinimum(config: Config) {
    config.train.Some? && JsLess(config.train.value.maxCompartments, config.train.value.minCompartments)
  }

  /** `validateConfiguration`: the errors found, in check order, and whether there were none. */
  method ValidateConfiguration(config: Config) returns (r: Validation)
    ensures r.isValid <==> r.errors == []
    ensures InvalidTrackRadius in r.errors <==> BadRadius(config)
    ensures InvalidMinCompartments in r.errors <==> BadMin(config)
    ensures MaxBelowMin in r.errors <==> MaxBelowMinimum(config)
    ensures forall i, j :: 0 <= i < j < |r.errors| ==> Rank(r.errors[i]) < Rank(r.errors[j])
    ensures |r.errors| <= 3
  {
    var errors: seq<ConfigError> := [];
    if config.track.None? || (config.track.value.radius.Some? && config.track.value.radius.value <= 0.0) {
      errors := errors + [InvalidTrackRadius];
    }
    if config.train.None? || (config.train.value.minCompartments.Some? && config.train.value.minCompartments.value < 1.0) {
      errors := errors + [InvalidMinCompartments];
    }
    if config.train.Some? && JsLess(config.train.value.maxCompartments, config.train.value.minCompartments) {
      errors := errors + [MaxBelowMin];
    }
    r := Validation(|errors| == 0, errors);
  }

  /** A missing TRAIN section is reported once, as a bad minimum, never as max < min. */
  lemma MissingTrainIsNotMaxBelowMin(config: Config)
    requires config.train.None?
    ensures BadMin(config) && !MaxBelowMinimum(config)
  {
  }

  /** The shipped configuration passes every check. */
  lemma ShippedConfigIsValid()
    ensures !BadRadius(Shipped) && !BadMin(Shipped) && !MaxBelowMinimum(Shipped)
  {
  }

  /** `clamp(value, min, max)` = `Math.min(Math.max(value, min), max)`. */
  function Clamp(value: real, min: real, max: real): (r: real)
    ensures min <= max ==> min <= r <= max
    ensures min <= value <= max ==> r == value
    ensures min <= max && value < min ==> r == min
    ensures min <= max && max < value ==> r == max
    ensures max < min ==> r == max
  {
    var low := if value > min then value else min;
    if low < max then low else max
  }

  /** `lerp(start, end, factor)`. */
  function Lerp(start: real, end: real, factor: real): (r: real)
    ensures factor == 0.0 ==> r == start
    ensures factor == 1.0 ==> r == end
    ensures factor == 0.5 ==> r - start == end - r
  {
    start + (end - start) * factor
  }
}
