/**
 * The schedule-deviation sensor rule. For a candidate vehicle state it adds
 * one named log-probability factor: the log density of the schedule-deviation
 * prior (a Student-t distribution in minutes, 2 degrees of freedom, mean 0,
 * precision 1/60), evaluated either at the candidate's schedule deviation or
 * at a fixed "generic" point, the 95th percentile of the folded normal with
 * the prior's mean and standard deviation. Which point, and the factor's
 * label, depend on whether the candidate has a schedule assignment and on
 * its journey phase.
 */
module ScheduleRule {
  import opened Wrappers
  import opened InferenceState

  /** One named factor in log space. */
  datatype LogFactor = LogFactor(name: string, logProbability: real)

  /**
   * A sensor-model result: its name, its starting probability and the
   * factors AND-combined into it, in the order they were added.
   */
  datatype SensorModelResult = SensorModelResult(name: string, startProbability: real, factors: seq<LogFactor>)

  /** AND-combine one log-space factor into a result. */
  function AddLogResultAsAnd(r: SensorModelResult, name: string, logProbability: real): (r': SensorModelResult)
    ensures r'.name == r.name && r'.startProbability == r.startProbability
    ensures r'.factors == r.factors + [LogFactor(name, logProbability)]
  {
    r.(factors := r.factors + [LogFactor(name, logProbability)])
  }

  /**
   * The floating-point numerics the rule borrows from statistics libraries,
   * passed in as values: the prior's log density, the folded normal's
   * inverse distribution function (mean, standard deviation, probability)
   * and the square root.
   */
  datatype PriorNumerics = PriorNumerics(
    logDensity: real -> real,
    foldedNormalInverseF: (real, real, real) -> real,
    sqrt: real -> real)

  const PriorDegreesOfFreedom: real := 2.0
  const PriorMean: real := 0.0
  const PriorPrecision: real := 1.0 / 60.0
  const GenericPercentile: real := 0.95

  /** The generic evaluation point: the folded normal's 0.95 quantile for the prior's mean and spread. */
  function GenericPoint(num: PriorNumerics): real
  {
    num.foldedNormalInverseF(PriorMean, num.sqrt(1.0 / PriorPrecision), GenericPercentile)
  }

  /** The name given to the rule's result. */
  const ResultName: string := "pSchedule"

  /**
   * The rule's case analysis. A missing schedule assignment comes first,
   * whatever the phase; AT_BASE and LAYOVER_AFTER with an assignment match
   * no case and add nothing.
   */
  function ComputeSchedTimeProb(block: Option<BlockStateObservation>, phase: Phase, num: PriorNumerics): (r: SensorModelResult)
    ensures r.name == ResultName && r.startProbability == 1.0
    ensures |r.factors| <= 1
    ensures r.factors == [] <==> block.Some? && phase in {AtBase, LayoverAfter}
    ensures r.factors != [] ==> FactorLabel(block.Some?, phase) == Some(r.factors[0].name)
  {
    var result := SensorModelResult(ResultName, 1.0, []);
    var generic := GenericPoint(num);
    if block.None? then
      AddLogResultAsAnd(result, "null state", num.logDensity(generic))
    else
      var deviation := block.value.scheduleDeviation;
      match phase
      case DeadheadAfter =>
        AddLogResultAsAnd(result, "deadhead after", num.logDensity(generic))
      case DeadheadBefore =>
        var x := if Abs(deviation) > 0.0 then deviation else generic;
        AddLogResultAsAnd(result, "deadhead before", num.logDensity(x))
      case LayoverBefore =>
        var x := if Abs(deviation) > 0.0 then deviation else generic;
        AddLogResultAsAnd(result, "layover before", num.logDensity(x))
      case DeadheadDuring =>
        AddLogResultAsAnd(result, "deadhead during", num.logDensity(deviation))
      case LayoverDuring =>
        AddLogResultAsAnd(result, "layover during", num.logDensity(deviation))
      case InProgress =>
        AddLogResultAsAnd(result, "in progress", num.logDensity(deviation))
      case AtBase => result
      case LayoverAfter => result
  }

  function Abs(x: real): real
  {
    if x < 0.0 then -x else x
  }

  /** The rule's input: the candidate state, the observation and the parent state. */
  datatype Context<E, M> = Context(state: VehicleState<E, M>, obs: Observation, parentState: VehicleState<E, M>)

  /**
   * The rule itself: a result named "pSchedule" that starts at probability 1
   * and carries at most the one factor labelled by the candidate's own
   * assignment and phase.
   */
  function Likelihood<E, M>(context: Context<E, M>, num: PriorNumerics): (r: SensorModelResult)
    ensures r.name == ResultName && r.startProbability == 1.0
    ensures var tag := FactorLabel(context.state.block.Some?, context.state.journey.Phase());
            && (r.factors == [] <==> tag.None?)
            && (tag.Some? ==> |r.factors| == 1 && r.factors[0].name == tag.value)
  {
    ComputeSchedTimeProb(context.state.block, context.state.journey.Phase(), num)
  }

  // ---------------------------------------------------------------------
  // Properties
  // ---------------------------------------------------------------------

  /**
   * The label table, written independently of the case analysis: the label
   * of the one factor the rule adds, or None when it adds none.
   */
  function FactorLabel(hasBlock: bool, phase: Phase): Option<string>
  {
    if !hasBlock then Some("null state")
    else
      match phase
      case AtBase => None
      case DeadheadBefore => Some("deadhead before")
      case LayoverBefore => Some("layover before")
      case InProgress => Some("in progress")
      case DeadheadDuring => Some("deadhead during")
      case LayoverDuring => Some("layover during")
      case DeadheadAfter => Some("deadhead after")
      case LayoverAfter => None
  }

  /** Whether the rule falls back to the generic point for this assignment and phase. */
  predicate UsesGenericPoint(block: Option<BlockStateObservation>, phase: Phase)
  {
    || block.None?
    || phase == DeadheadAfter
    || (phase in {DeadheadBefore, LayoverBefore} && block.value.scheduleDeviation == 0.0)
  }

  /**
   * The whole factor list: nothing when the table has no label, otherwise one
   * factor with the table's label and the prior's log density at the
   * generic point or at the candidate's deviation.
   */
  lemma RuleFactor(block: Option<BlockStateObservation>, phase: Phase, num: PriorNumerics)
    ensures ComputeSchedTimeProb(block, phase, num).factors ==
              match FactorLabel(block.Some?, phase)
              case None => []
              case Some(tag) =>
                [LogFactor(tag, num.logDensity(
                  if UsesGenericPoint(block, phase) then GenericPoint(num) else block.value.scheduleDeviation))]
  {
  }

  /** A missing assignment takes precedence over the phase: one "null state" factor at the generic point. */
  lemma NullStateTakesPrecedence(phase: Phase, num: PriorNumerics)
    ensures ComputeSchedTimeProb(None, phase, num).factors == [LogFactor("null state", num.logDensity(GenericPoint(num)))]
  {
  }

  /**
   * Every fallback evaluates the prior at the same generic point, so all
   * fallbacks give the same log value whatever the deviation or phase; every
   * other added factor is the log density at the candidate's own deviation.
   */
  lemma EvaluationPoint(block: Option<BlockStateObservation>, phase: Phase, num: PriorNumerics)
    requires ComputeSchedTimeProb(block, phase, num).factors != []
    ensures var f := ComputeSchedTimeProb(block, phase, num).factors[0];
            f.logProbability == num.logDensity(
              if UsesGenericPoint(block, phase) then GenericPoint(num) else block.value.scheduleDeviation)
  {
  }

  lemma FallbacksAgree(b1: Option<BlockStateObservation>, p1: Phase, b2: Option<BlockStateObservation>, p2: Phase, num: PriorNumerics)
    requires UsesGenericPoint(b1, p1) && UsesGenericPoint(b2, p2)
    ensures ComputeSchedTimeProb(b1, p1, num).factors[0].logProbability
         == ComputeSchedTimeProb(b2, p2, num).factors[0].logProbability
  {
    EvaluationPoint(b1, p1, num);
    EvaluationPoint(b2, p2, num);
  }

  /** During a trip or an interruption of it, the factor follows the deviation, zero included. */
  lemma DuringPhasesUseDeviation(b: BlockStateObservation, phase: Phase, num: PriorNumerics)
    requires phase in {DeadheadDuring, LayoverDuring, InProgress}
    ensures ComputeSchedTimeProb(Some(b), phase, num).factors[0].logProbability == num.logDensity(b.scheduleDeviation)
  {
  }

  /** Before the trip, a non-zero deviation is used; a zero deviation falls back to the generic point. */
  lemma BeforePhasesFallBackOnZero(b: BlockStateObservation, phase: Phase, num: PriorNumerics)
    requires phase in {DeadheadBefore, LayoverBefore}
    ensures ComputeSchedTimeProb(Some(b), phase, num).factors[0].logProbability
         == num.logDensity(if b.scheduleDeviation != 0.0 then b.scheduleDeviation else GenericPoint(num))
  {
  }

  /** The label names the case taken: each phase with an assignment has its own label, distinct from "null state". */
  lemma LabelsIdentifyCase(b1: Option<BlockStateObservation>, p1: Phase, b2: Option<BlockStateObservation>, p2: Phase, num: PriorNumerics)
    requires ComputeSchedTimeProb(b1, p1, num).factors != [] && ComputeSchedTimeProb(b2, p2, num).factors != []
    requires ComputeSchedTimeProb(b1, p1, num).factors[0].name == ComputeSchedTimeProb(b2, p2, num).factors[0].name
    ensures b1.None? <==> b2.None?
    ensures b1.Some? ==> p1 == p2
  {
  }

  /** The rule reads neither the parent state nor the observation. */
  lemma LikelihoodIgnoresParentAndObservation<E, M>(c1: Context<E, M>, c2: Context<E, M>, num: PriorNumerics)
    requires c1.state == c2.state
    ensures Likelihood(c1, num) == Likelihood(c2, num)
  {
  }
}
