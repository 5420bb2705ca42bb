/**
 * The values one step of vehicle inference works on: the journey phase of a
 * vehicle (a closed enumeration, two of whose cases carry the place where the
 * current deadhead began), the observation, the schedule assignment and the
 * vehicle state (one particle) that bundles them.
 */
module InferenceState {
  import opened Wrappers

  /** A position report's coordinates. */
  datatype Location = Location(lat: real, lon: real)

  /** A single position report; the model only reads its location. */
  datatype Observation = Observation(time: int, location: Location)

  /** The eight journey phases of a vehicle's duty cycle. */
  datatype Phase =
    | AtBase
    | DeadheadBefore
    | LayoverBefore
    | InProgress
    | DeadheadDuring
    | LayoverDuring
    | DeadheadAfter
    | LayoverAfter

  /**
   * A journey phase together with its data. The deadhead phases carry the
   * location at which the deadhead journey started; no other phase carries
   * data, so a phase without its required data cannot be written down.
   */
  datatype JourneyState =
    | AtBaseState
    | DeadheadBeforeState(journeyStart: Location)
    | LayoverBeforeState
    | InProgressState
    | DeadheadDuringState(journeyStart: Location)
    | LayoverDuringState
    | DeadheadAfterState
    | LayoverAfterState
  {
    /** The phase tag of this journey state. */
    function Phase(): Phase
    {
      match this
      case AtBaseState => AtBase
      case DeadheadBeforeState(_) => DeadheadBefore
      case LayoverBeforeState => LayoverBefore
      case InProgressState => InProgress
      case DeadheadDuringState(_) => DeadheadDuring
      case LayoverDuringState => LayoverDuring
      case DeadheadAfterState => DeadheadAfter
      case LayoverAfterState => LayoverAfter
    }

    /** Whether this journey state carries a journey start. */
    predicate HasJourneyStart()
    {
      DeadheadBeforeState? || DeadheadDuringState?
    }
  }

  /** A candidate schedule assignment and the schedule deviation (minutes) it implies. */
  datatype BlockStateObservation = BlockStateObservation(blockInstanceId: string, scheduleDeviation: real)

  /**
   * One particle: the road-network edge state and motion state (opaque to
   * this model, hence type parameters), the schedule assignment (None where
   * the source has a null block state), the journey state and the observation.
   */
  datatype VehicleState<Edge, Motion> = VehicleState(
    edge: Edge,
    motion: Motion,
    block: Option<BlockStateObservation>,
    journey: JourneyState,
    obs: Observation)
}
