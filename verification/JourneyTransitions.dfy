/**
 * The journey-phase transition model: for the parent vehicle's journey
 * state it lists, in a fixed order, the candidate journey states of the next
 * step; the driver then pairs each candidate with a schedule assignment,
 * scores it, puts it into a fresh cumulative-weight sampler and draws one.
 */
module JourneyTransitions {
  import opened Wrappers
  import opened InferenceState
  import opened WeightedSampling

  // ---------------------------------------------------------------------
  // The transition table
  // ---------------------------------------------------------------------

  function MoveAtBase(obs: Observation): (r: seq<JourneyState>)
    ensures Phases(r) == SuccessorPhases(AtBase)
  {
    [AtBaseState, LayoverBeforeState, DeadheadBeforeState(obs.location), InProgressState]
  }

  /** A deadhead before the trip continues: its journey start is kept. */
  function MoveDeadheadBefore(start: Location): (r: seq<JourneyState>)
    ensures Phases(r) == SuccessorPhases(DeadheadBefore)
  {
    [AtBaseState, LayoverBeforeState, DeadheadBeforeState(start), InProgressState]
  }

  function MoveLayoverBefore(obs: Observation): (r: seq<JourneyState>)
    ensures Phases(r) == SuccessorPhases(LayoverBefore)
  {
    [AtBaseState, LayoverBeforeState, DeadheadBeforeState(obs.location), InProgressState]
  }

  function MoveInProgress(obs: Observation): (r: seq<JourneyState>)
    ensures Phases(r) == SuccessorPhases(InProgress)
  {
    [InProgressState, DeadheadDuringState(obs.location), LayoverDuringState, DeadheadAfterState, LayoverAfterState]
  }

  /** A deadhead during the trip continues: its journey start is kept. */
  function MoveDeadheadDuring(start: Location): (r: seq<JourneyState>)
    ensures Phases(r) == SuccessorPhases(DeadheadDuring)
  {
    [InProgressState, DeadheadDuringState(start), LayoverDuringState]
  }

  function MoveLayoverDuring(obs: Observation): (r: seq<JourneyState>)
    ensures Phases(r) == SuccessorPhases(LayoverDuring)
  {
    [InProgressState, DeadheadDuringState(obs.location), LayoverDuringState]
  }

  function MoveDeadheadAfter(obs: Observation): (r: seq<JourneyState>)
    ensures Phases(r) == SuccessorPhases(DeadheadAfter)
  {
    [AtBaseState, DeadheadBeforeState(obs.location), InProgressState, DeadheadAfterState, LayoverAfterState]
  }

  function MoveLayoverAfter(obs: Observation): (r: seq<JourneyState>)
    ensures Phases(r) == SuccessorPhases(LayoverAfter)
  {
    [AtBaseState, DeadheadBeforeState(obs.location), InProgressState, DeadheadAfterState, LayoverAfterState]
  }

  /**
   * The candidate journey states for a parent journey state: their phases are
   * the SuccessorPhases row of the parent's phase, in its order, whatever the
   * observation. The match is exhaustive: the "unknown journey state" failure
   * has no case here.
   */
  function TransitionJourneyStates(parent: JourneyState, obs: Observation): (r: seq<JourneyState>)
    ensures Phases(r) == SuccessorPhases(parent.Phase())
  {
    match parent
    case AtBaseState => MoveAtBase(obs)
    case DeadheadBeforeState(start) => MoveDeadheadBefore(start)
    case LayoverBeforeState => MoveLayoverBefore(obs)
    case InProgressState => MoveInProgress(obs)
    case DeadheadDuringState(start) => MoveDeadheadDuring(start)
    case LayoverDuringState => MoveLayoverDuring(obs)
    case DeadheadAfterState => MoveDeadheadAfter(obs)
    case LayoverAfterState => MoveLayoverAfter(obs)
  }

  /** The phase tags of a list of journey states, in order. */
  function Phases(states: seq<JourneyState>): (ps: seq<Phase>)
    ensures |ps| == |states|
    ensures forall i :: 0 <= i < |states| ==> ps[i] == states[i].Phase()
  {
    seq(|states|, i requires 0 <= i < |states| => states[i].Phase())
  }

  /**
   * The phase-level transition table, written independently of the Move*
   * functions and of the journey-state constructors: pre-trip phases, the trip itself,
   * interruptions during the trip, and the phases after it.
   */
  function SuccessorPhases(p: Phase): seq<Phase>
  {
    if p in {AtBase, DeadheadBefore, LayoverBefore} then
      [AtBase, LayoverBefore, DeadheadBefore, InProgress]
    else if p == InProgress then
      [InProgress, DeadheadDuring, LayoverDuring, DeadheadAfter, LayoverAfter]
    else if p in {DeadheadDuring, LayoverDuring} then
      [InProgress, DeadheadDuring, LayoverDuring]
    else
      [AtBase, DeadheadBefore, InProgress, DeadheadAfter, LayoverAfter]
  }

  // ---------------------------------------------------------------------
  // Properties of the table
  // ---------------------------------------------------------------------

  /** The candidate phases depend on the parent's phase only, not on its data or the observation. */
  lemma CandidatePhasesIgnoreData(p1: JourneyState, o1: Observation, p2: JourneyState, o2: Observation)
    requires p1.Phase() == p2.Phase()
    ensures Phases(TransitionJourneyStates(p1, o1)) == Phases(TransitionJourneyStates(p2, o2))
  {
  }

  /**
   * Where a candidate carries a journey start: a deadhead that continues
   * (same phase as the parent) keeps the parent's start; a deadhead that
   * begins now starts at the observed location.
   */
  lemma JourneyStartRule(parent: JourneyState, obs: Observation, i: nat)
    requires i < |TransitionJourneyStates(parent, obs)|
    requires TransitionJourneyStates(parent, obs)[i].HasJourneyStart()
    ensures var c := TransitionJourneyStates(parent, obs)[i];
            c.journeyStart == if c.Phase() == parent.Phase() then parent.journeyStart else obs.location
  {
  }

  /**
   * Every candidate list is non-empty, lists each phase at most once, and
   * offers both staying in the parent's phase and being in progress.
   */
  lemma CandidatesWellFormed(parent: JourneyState, obs: Observation)
    ensures var cs := TransitionJourneyStates(parent, obs);
            && 3 <= |cs| <= 5
            && (forall i, j :: 0 <= i < j < |cs| ==> cs[i].Phase() != cs[j].Phase())
            && parent.Phase() in Phases(cs)
            && InProgressState in cs
  {
  }

  /** A during-trip interruption is entered only from the trip or from another interruption. */
  lemma DuringPhasesEnteredOnlyFromTrip(parent: JourneyState, obs: Observation)
    ensures var ps := Phases(TransitionJourneyStates(parent, obs));
            (DeadheadDuring in ps || LayoverDuring in ps)
            <==> parent.Phase() in {InProgress, DeadheadDuring, LayoverDuring}
  {
  }

  /** A vehicle returns to base only from a pre-trip or after-trip phase, never straight from a trip. */
  lemma AtBaseNotEnteredFromTrip(parent: JourneyState, obs: Observation)
    ensures AtBaseState in TransitionJourneyStates(parent, obs)
            <==> parent.Phase() !in {InProgress, DeadheadDuring, LayoverDuring}
  {
  }

  // ---------------------------------------------------------------------
  // Reachability over several steps
  // ---------------------------------------------------------------------

  /**
   * The target phase can be reached from s in at most |observations| steps,
   * step k using observations[k].
   */
  ghost predicate ReachableAlong(s: JourneyState, target: Phase, observations: seq<Observation>)
    decreases |observations|
  {
    || s.Phase() == target
    || (&& |observations| > 0
        && exists c :: c in TransitionJourneyStates(s, observations[0])
                       && ReachableAlong(c, target, observations[1..]))
  }

  lemma {:induction false} ReachableFromInProgress(target: Phase, observations: seq<Observation>)
    requires |observations| >= 3
    ensures ReachableAlong(InProgressState, target, observations)
  {
    var o0, rest1 := observations[0], observations[1..];
    var o1, rest2 := rest1[0], rest1[1..];
    var o2, rest3 := rest2[0], rest2[1..];
    match target
    case InProgress =>
    case DeadheadDuring =>
      var c := DeadheadDuringState(o0.location);
      assert c in TransitionJourneyStates(InProgressState, o0) && ReachableAlong(c, target, rest1);
    case LayoverDuring =>
      var c := LayoverDuringState;
      assert c in TransitionJourneyStates(InProgressState, o0) && ReachableAlong(c, target, rest1);
    case DeadheadAfter =>
      var c := DeadheadAfterState;
      assert c in TransitionJourneyStates(InProgressState, o0) && ReachableAlong(c, target, rest1);
    case LayoverAfter =>
      var c := LayoverAfterState;
      assert c in TransitionJourneyStates(InProgressState, o0) && ReachableAlong(c, target, rest1);
    case AtBase =>
      var c1, c2 := DeadheadAfterState, AtBaseState;
      assert c2 in TransitionJourneyStates(c1, o1) && ReachableAlong(c2, target, rest2);
      assert c1 in TransitionJourneyStates(InProgressState, o0) && ReachableAlong(c1, target, rest1);
    case DeadheadBefore =>
      var c1, c2 := DeadheadAfterState, DeadheadBeforeState(o1.location);
      assert c2 in TransitionJourneyStates(c1, o1) && ReachableAlong(c2, target, rest2);
      assert c1 in TransitionJourneyStates(InProgressState, o0) && ReachableAlong(c1, target, rest1);
    case LayoverBefore =>
      var c1, c2, c3 := DeadheadAfterState, AtBaseState, LayoverBeforeState;
      assert c3 in TransitionJourneyStates(c2, o2) && ReachableAlong(c3, target, rest3);
      assert c2 in TransitionJourneyStates(c1, o1) && ReachableAlong(c2, target, rest2);
      assert c1 in TransitionJourneyStates(InProgressState, o0) && ReachableAlong(c1, target, rest1);
  }

  /** The phase machine has no trap: every phase is reachable from every journey state within four steps. */
  lemma {:induction false} EveryPhaseReachable(s: JourneyState, target: Phase, observations: seq<Observation>)
    requires |observations| >= 4
    ensures ReachableAlong(s, target, observations)
  {
    ReachableFromInProgress(target, observations[1..]);
    assert InProgressState in TransitionJourneyStates(s, observations[0]);
  }

  /** From a trip in progress three steps are needed: layover-before is not reachable in two. */
  lemma {:induction false} LayoverBeforeFarFromInProgress(observations: seq<Observation>)
    requires |observations| <= 2
    ensures !ReachableAlong(InProgressState, LayoverBefore, observations)
  {
    if |observations| > 0 {
      var rest := observations[1..];
      forall c | c in TransitionJourneyStates(InProgressState, observations[0])
        ensures !ReachableAlong(c, LayoverBefore, rest)
      {
        if |rest| > 0 {
          forall d | d in TransitionJourneyStates(c, rest[0])
            ensures !ReachableAlong(d, LayoverBefore, rest[1..])
          {
            assert d.Phase() != LayoverBefore;
          }
        }
      }
    }
  }

  // ---------------------------------------------------------------------
  // One inference step
  // ---------------------------------------------------------------------

  /** The candidate vehicle state built for one journey state, and its sensor-model weight. */
  function CandidateEntry<E, M>(
    parent: VehicleState<E, M>, edge: E, motion: M, js: JourneyState, obs: Observation,
    transitionBlockState: (VehicleState<E, M>, M, JourneyState, Observation) -> Option<BlockStateObservation>,
    likelihood: (VehicleState<E, M>, VehicleState<E, M>, Observation) -> real): Entry<VehicleState<E, M>>
  {
    var state := VehicleState(edge, motion, transitionBlockState(parent, motion, js, obs), js, obs);
    Entry(likelihood(parent, state, obs), state)
  }

  /** The sampler table after every candidate has been put, in list order. */
  function CandidateEntries<E, M>(
    parent: VehicleState<E, M>, edge: E, motion: M, journeyStates: seq<JourneyState>, obs: Observation,
    transitionBlockState: (VehicleState<E, M>, M, JourneyState, Observation) -> Option<BlockStateObservation>,
    likelihood: (VehicleState<E, M>, VehicleState<E, M>, Observation) -> real): seq<Entry<VehicleState<E, M>>>
    decreases |journeyStates|
  {
    if journeyStates == [] then []
    else
      var n := |journeyStates| - 1;
      CandidateEntries(parent, edge, motion, journeyStates[..n], obs, transitionBlockState, likelihood)
        + [CandidateEntry(parent, edge, motion, journeyStates[n], obs, transitionBlockState, likelihood)]
  }

  /** Exactly one entry per candidate, the k-th built from the k-th journey state. */
  lemma {:induction false} CandidateEntriesOnePerCandidate<E, M>(
    parent: VehicleState<E, M>, edge: E, motion: M, journeyStates: seq<JourneyState>, obs: Observation,
    transitionBlockState: (VehicleState<E, M>, M, JourneyState, Observation) -> Option<BlockStateObservation>,
    likelihood: (VehicleState<E, M>, VehicleState<E, M>, Observation) -> real)
    ensures var es := CandidateEntries(parent, edge, motion, journeyStates, obs, transitionBlockState, likelihood);
            && |es| == |journeyStates|
            && forall k :: 0 <= k < |es| ==>
                 es[k] == CandidateEntry(parent, edge, motion, journeyStates[k], obs, transitionBlockState, likelihood)
    decreases |journeyStates|
  {
    if journeyStates != [] {
      var n := |journeyStates| - 1;
      CandidateEntriesOnePerCandidate(parent, edge, motion, journeyStates[..n], obs, transitionBlockState, likelihood);
    }
  }

  /**
   * Build each candidate vehicle state, score it, put it into a fresh
   * sampler and draw one with the injected uniform draw.
   */
  method SampleJourneyState<E, M>(
    parent: VehicleState<E, M>, edge: E, motion: M, journeyStates: seq<JourneyState>, obs: Observation,
    transitionBlockState: (VehicleState<E, M>, M, JourneyState, Observation) -> Option<BlockStateObservation>,
    likelihood: (VehicleState<E, M>, VehicleState<E, M>, Observation) -> real,
    draw: real)
    returns (r: Result<VehicleState<E, M>, SampleError>)
    requires 0.0 <= draw < 1.0
    ensures r == SampleOf(CandidateEntries(parent, edge, motion, journeyStates, obs, transitionBlockState, likelihood), draw)
  {
    var cdf := new CdfMap<VehicleState<E, M>>();
    for i := 0 to |journeyStates|
      invariant cdf.entries == CandidateEntries(parent, edge, motion, journeyStates[..i], obs, transitionBlockState, likelihood)
    {
      var journeyState := journeyStates[i];
      var blockState := transitionBlockState(parent, motion, journeyState, obs);
      var vehicleState := VehicleState(edge, motion, blockState, journeyState, obs);
      var p := likelihood(parent, vehicleState, obs);
      cdf.Put(p, vehicleState);
      assert journeyStates[..i + 1][..i] == journeyStates[..i];
    }
    assert journeyStates[..|journeyStates|] == journeyStates;
    r := cdf.Sample(draw);
  }

  /**
   * One transition: the result is the draw from the sampler filled with the
   * parent's candidates in table order. The drawn vehicle state keeps the
   * given edge and motion states and the observation, its journey state is
   * one of the parent's candidates and its weight was positive; the step
   * fails only when every candidate scored zero or less.
   */
  method Move<E, M>(
    parent: VehicleState<E, M>, edge: E, motion: M, obs: Observation,
    transitionBlockState: (VehicleState<E, M>, M, JourneyState, Observation) -> Option<BlockStateObservation>,
    likelihood: (VehicleState<E, M>, VehicleState<E, M>, Observation) -> real,
    draw: real)
    returns (r: Result<VehicleState<E, M>, SampleError>)
    requires 0.0 <= draw < 1.0
    ensures r == SampleOf(CandidateEntries(parent, edge, motion, TransitionJourneyStates(parent.journey, obs),
                                           obs, transitionBlockState, likelihood), draw)
    ensures var js := TransitionJourneyStates(parent.journey, obs);
            r.Failure? <==> forall k :: 0 <= k < |js| ==>
              CandidateEntry(parent, edge, motion, js[k], obs, transitionBlockState, likelihood).weight <= 0.0
    ensures r.Success? ==>
              && r.value.edge == edge && r.value.motion == motion && r.value.obs == obs
              && r.value.journey in TransitionJourneyStates(parent.journey, obs)
              && r.value.block == transitionBlockState(parent, motion, r.value.journey, obs)
              && likelihood(parent, r.value, obs) > 0.0
  {
    var journeyStates := TransitionJourneyStates(parent.journey, obs);
    r := SampleJourneyState(parent, edge, motion, journeyStates, obs, transitionBlockState, likelihood, draw);
    var es := CandidateEntries(parent, edge, motion, journeyStates, obs, transitionBlockState, likelihood);
    CandidateEntriesOnePerCandidate(parent, edge, motion, journeyStates, obs, transitionBlockState, likelihood);
  }
}
