# OneBusAway NYC inference and SIRI helpers in Dafny

This project models three pieces of the OneBusAway NYC real-time system and
proves properties of them.

- **Journey-phase transitions** of the vehicle-tracking particle filter
  (`JourneyStateTransitionModel`). For the parent particle's journey state the
  model lists the candidate journey states of the next step, in a fixed order.
  It builds one candidate vehicle state per journey state and scores each with
  the sensor model. All candidates go into a fresh cumulative-weight sampler
  (`CDFMap`), from which one is drawn.
- **The schedule-deviation sensor rule** (`ScheduleLikelihood`). It adds one
  named log-probability factor to a `pSchedule` result. The factor is the
  Student-t prior's log density, evaluated either at the candidate's schedule
  deviation or at a fixed generic point, depending on the phase and on
  whether the candidate has a schedule assignment.
- **The SIRI version 2 presentation helpers** (`SiriSupportV2`):
  - the progress rate shown for a vehicle;
  - the case-insensitive line-reference filter;
  - the per-trip visit counter;
  - the walks over a block that choose the onward calls and the monitored call;
  - the validity check that decides whether an annotated stop point is filled in.

Files:

- `Wrappers.dfy`: `Option` and `Result`.
- `InferenceState.dfy`: the phases, journey states, observation, schedule assignment and vehicle state.
- `JourneyTransitions.dfy`: the transition table, its properties, and the sampling step as methods.
- `WeightedSampling.dfy`: the cumulative-weight sampler. It is a class that is filled by `Put`, plus the draw it specifies.
- `ScheduleRule.dfy`: `computeSchedTimeProb` and its properties.
- `JavaText.dfy`: the Java string operations the helpers use.
- `SiriSupport.dfy`: the SIRI helpers.

Some state changes in place, and the model keeps it that way:

- The sampler and the visit counter (a `HashMap` mutated by `getVisitNumber`) are classes.
- The stop point that `fillAnnotatedStopPointStructure` fills is a class.
- The walks are methods with loops.

The walks (`FillOnwardCalls`, `AddTripOnwardCalls`, `FillMonitoredCall`,
`FindTripMonitoredCall`, `SampleJourneyState`, `ScanRouteDirections`,
`VisitStopTime`) are proved equal to specification functions, and the
properties are lemmas about those functions. `Move`, `CdfMap.Put`,
`VisitNumbers.GetVisitNumber` and `FillAnnotatedStopPointStructure` are
specified by the new state they leave and by the properties they keep.

## Model

| member | source | states |
|---|---|---|
| JourneyTransitions.TransitionJourneyStates | onebusaway-nyc-vehicle-tracking/src/main/java/org/onebusaway/nyc/vehicle_tracking/impl/inference/JourneyStateTransitionModel.java:50-76 | For every parent state, whatever the observation, the candidate phases are, in order, the row of an independently written phase table for the parent's phase: pre-trip phases lead to at-base, layover-before, deadhead-before and in-progress; in-progress leads to itself, the two during phases and the two after phases; the during phases lead to in-progress and the during phases; the after phases lead to at-base, deadhead-before, in-progress and the after phases |
| JourneyTransitions.MoveAtBase | onebusaway-nyc-vehicle-tracking/src/main/java/org/onebusaway/nyc/vehicle_tracking/impl/inference/JourneyStateTransitionModel.java:101-106 | The candidates after at-base have the phases of the table row for at-base (at-base, layover-before, deadhead-before and in-progress) |
| JourneyTransitions.MoveDeadheadBefore | onebusaway-nyc-vehicle-tracking/src/main/java/org/onebusaway/nyc/vehicle_tracking/impl/inference/JourneyStateTransitionModel.java:108-115 | The candidates after deadhead-before have the phases of the table row for deadhead-before (at-base, layover-before, deadhead-before and in-progress) |
| JourneyTransitions.MoveLayoverBefore | onebusaway-nyc-vehicle-tracking/src/main/java/org/onebusaway/nyc/vehicle_tracking/impl/inference/JourneyStateTransitionModel.java:117-122 | The candidates after layover-before have the phases of the table row for layover-before (at-base, layover-before, deadhead-before and in-progress) |
| JourneyTransitions.MoveInProgress | onebusaway-nyc-vehicle-tracking/src/main/java/org/onebusaway/nyc/vehicle_tracking/impl/inference/JourneyStateTransitionModel.java:124-130 | The candidates after in-progress have the phases of the table row for in-progress (in-progress, deadhead-during, layover-during, deadhead-after and layover-after) |
| JourneyTransitions.MoveDeadheadDuring | onebusaway-nyc-vehicle-tracking/src/main/java/org/onebusaway/nyc/vehicle_tracking/impl/inference/JourneyStateTransitionModel.java:132-139 | The candidates after deadhead-during have the phases of the table row for deadhead-during (in-progress, deadhead-during and layover-during) |
| JourneyTransitions.MoveLayoverDuring | onebusaway-nyc-vehicle-tracking/src/main/java/org/onebusaway/nyc/vehicle_tracking/impl/inference/JourneyStateTransitionModel.java:141-146 | The candidates after layover-during have the phases of the table row for layover-during (in-progress, deadhead-during and layover-during) |
| JourneyTransitions.MoveDeadheadAfter | onebusaway-nyc-vehicle-tracking/src/main/java/org/onebusaway/nyc/vehicle_tracking/impl/inference/JourneyStateTransitionModel.java:148-154 | The candidates after deadhead-after have the phases of the table row for deadhead-after (at-base, deadhead-before, in-progress, deadhead-after and layover-after) |
| JourneyTransitions.MoveLayoverAfter | onebusaway-nyc-vehicle-tracking/src/main/java/org/onebusaway/nyc/vehicle_tracking/impl/inference/JourneyStateTransitionModel.java:156-162 | The candidates after layover-after have the phases of the table row for layover-after (at-base, deadhead-before, in-progress, deadhead-after and layover-after) |
| JourneyTransitions.CandidatePhasesIgnoreData | onebusaway-nyc-vehicle-tracking/src/main/java/org/onebusaway/nyc/vehicle_tracking/impl/inference/JourneyStateTransitionModel.java:50-76 | The candidate phases depend only on the parent's phase, not on its journey start or the observation |
| JourneyTransitions.JourneyStartRule | onebusaway-nyc-vehicle-tracking/src/main/java/org/onebusaway/nyc/vehicle_tracking/impl/inference/JourneyStateTransitionModel.java:101-162 | A candidate deadhead that continues the parent's phase keeps the parent's journey start; one that begins now starts at the observed location |
| JourneyTransitions.CandidatesWellFormed | onebusaway-nyc-vehicle-tracking/src/main/java/org/onebusaway/nyc/vehicle_tracking/impl/inference/JourneyStateTransitionModel.java:101-162 | Every candidate list has 3 to 5 entries, no phase twice, includes the parent's own phase and includes in-progress |
| JourneyTransitions.DuringPhasesEnteredOnlyFromTrip | onebusaway-nyc-vehicle-tracking/src/main/java/org/onebusaway/nyc/vehicle_tracking/impl/inference/JourneyStateTransitionModel.java:101-162 | A deadhead-during or layover-during candidate is offered exactly when the parent is in progress or in a during phase |
| JourneyTransitions.AtBaseNotEnteredFromTrip | onebusaway-nyc-vehicle-tracking/src/main/java/org/onebusaway/nyc/vehicle_tracking/impl/inference/JourneyStateTransitionModel.java:101-162 | At-base is a candidate exactly when the parent is not in progress and not in a during phase |
| JourneyTransitions.ReachableFromInProgress | onebusaway-nyc-vehicle-tracking/src/main/java/org/onebusaway/nyc/vehicle_tracking/impl/inference/JourneyStateTransitionModel.java:124-162 | From in-progress every phase is reachable within three steps, whatever the observations |
| JourneyTransitions.EveryPhaseReachable | onebusaway-nyc-vehicle-tracking/src/main/java/org/onebusaway/nyc/vehicle_tracking/impl/inference/JourneyStateTransitionModel.java:101-162 | The phase machine has no trap: from any journey state every phase is reachable within four steps |
| JourneyTransitions.LayoverBeforeFarFromInProgress | onebusaway-nyc-vehicle-tracking/src/main/java/org/onebusaway/nyc/vehicle_tracking/impl/inference/JourneyStateTransitionModel.java:124-162 | The bound is tight in one case: layover-before cannot be reached from in-progress within two steps |
| JourneyTransitions.CandidateEntriesOnePerCandidate | onebusaway-nyc-vehicle-tracking/src/main/java/org/onebusaway/nyc/vehicle_tracking/impl/inference/JourneyStateTransitionModel.java:84-96 | The sampler table has one entry per candidate, the k-th holding the k-th candidate's vehicle state (edge and motion kept, block state from the block transition) and its sensor-model weight |
| JourneyTransitions.SampleJourneyState | onebusaway-nyc-vehicle-tracking/src/main/java/org/onebusaway/nyc/vehicle_tracking/impl/inference/JourneyStateTransitionModel.java:78-99 | The loop that puts every candidate into a fresh sampler leaves exactly the candidate table in it, so the result is the draw from that table |
| JourneyTransitions.Move | onebusaway-nyc-vehicle-tracking/src/main/java/org/onebusaway/nyc/vehicle_tracking/impl/inference/JourneyStateTransitionModel.java:40-48 | The result is the draw, with the given uniform draw, from the sampler filled with the parent's candidates in table order. One transition fails exactly when every candidate scored at most zero; otherwise the drawn state keeps the edge, motion and observation, its journey state is one of the parent's candidates, its block state is the transition of that journey state, and its weight was positive |
| WeightedSampling.TotalWeightNonNegative | onebusaway-nyc-vehicle-tracking/src/main/java/org/onebusaway/nyc/vehicle_tracking/impl/inference/JourneyStateTransitionModel.java:82-98 | The cumulative weight of the sampler's table is never negative |
| WeightedSampling.PrefixStep | onebusaway-nyc-vehicle-tracking/src/main/java/org/onebusaway/nyc/vehicle_tracking/impl/inference/JourneyStateTransitionModel.java:82-98 | The boundary after entry i is the boundary before it plus the entry's positive weight |
| WeightedSampling.PrefixMonotone | onebusaway-nyc-vehicle-tracking/src/main/java/org/onebusaway/nyc/vehicle_tracking/impl/inference/JourneyStateTransitionModel.java:82-98 | The cumulative table never decreases |
| WeightedSampling.TotalWeightZeroIff | onebusaway-nyc-vehicle-tracking/src/main/java/org/onebusaway/nyc/vehicle_tracking/impl/inference/JourneyStateTransitionModel.java:82-98 | The total weight is zero exactly when no entry has a positive weight |
| WeightedSampling.SelectFrom | onebusaway-nyc-vehicle-tracking/src/main/java/org/onebusaway/nyc/vehicle_tracking/impl/inference/JourneyStateTransitionModel.java:98 | The walk over the cumulative table lands on an entry with a positive weight whose half-open slice contains the target |
| WeightedSampling.Scale | onebusaway-nyc-vehicle-tracking/src/main/java/org/onebusaway/nyc/vehicle_tracking/impl/inference/JourneyStateTransitionModel.java:98 | A uniform draw in [0, 1) scaled to a positive total lies in [0, total) |
| WeightedSampling.SampleOf | onebusaway-nyc-vehicle-tracking/src/main/java/org/onebusaway/nyc/vehicle_tracking/impl/inference/JourneyStateTransitionModel.java:98 | Sampling fails exactly when no entry has a positive weight; a drawn value is the value of an entry with a positive weight |
| WeightedSampling.SelectionSlices | onebusaway-nyc-vehicle-tracking/src/main/java/org/onebusaway/nyc/vehicle_tracking/impl/inference/JourneyStateTransitionModel.java:98 | Entry j is drawn exactly when the scaled draw falls in its slice [before, before + weight), so each entry is drawn with probability weight / total |
| WeightedSampling.SinglePositiveAlwaysDrawn | onebusaway-nyc-vehicle-tracking/src/main/java/org/onebusaway/nyc/vehicle_tracking/impl/inference/JourneyStateTransitionModel.java:98 | With a single positive weight, that entry is always drawn |
| WeightedSampling.CdfMap.constructor | onebusaway-nyc-vehicle-tracking/src/main/java/org/onebusaway/nyc/vehicle_tracking/impl/inference/JourneyStateTransitionModel.java:82 | A new sampler is empty |
| WeightedSampling.CdfMap.Put | onebusaway-nyc-vehicle-tracking/src/main/java/org/onebusaway/nyc/vehicle_tracking/impl/inference/JourneyStateTransitionModel.java:95 | Putting appends one (weight, value) entry and changes nothing else |
| ScheduleRule.ComputeSchedTimeProb | onebusaway-nyc-vehicle-tracking/src/main/java/org/onebusaway/nyc/vehicle_tracking/impl/inference/rules/ScheduleLikelihood.java:102-164 | The result is named pSchedule, starts at probability 1 and holds at most one factor; it holds none exactly when there is an assignment and the phase is at-base or layover-after; a factor's label is the label table's entry for the assignment and phase ("null state" without an assignment, "deadhead after" for deadhead-after, and so on) |
| ScheduleRule.RuleFactor | onebusaway-nyc-vehicle-tracking/src/main/java/org/onebusaway/nyc/vehicle_tracking/impl/inference/rules/ScheduleLikelihood.java:102-164 | The factor list is empty when an independently written label table has no label for the case, and otherwise one factor carrying the table's label ("null state" without an assignment; "deadhead before", "layover before", "in progress", "deadhead during", "layover during" or "deadhead after" by phase) and the prior's log density at the generic point or at the candidate's deviation |
| ScheduleRule.Likelihood | onebusaway-nyc-vehicle-tracking/src/main/java/org/onebusaway/nyc/vehicle_tracking/impl/inference/rules/ScheduleLikelihood.java:73-100 | The rule's result is named pSchedule, starts at probability 1 and carries exactly the one factor labelled by the label table for the candidate's own assignment and phase, or none when the table has no label |
| ScheduleRule.NullStateTakesPrecedence | onebusaway-nyc-vehicle-tracking/src/main/java/org/onebusaway/nyc/vehicle_tracking/impl/inference/rules/ScheduleLikelihood.java:104-111 | Without an assignment, whatever the phase, the only factor is "null state" at the generic point |
| ScheduleRule.EvaluationPoint | onebusaway-nyc-vehicle-tracking/src/main/java/org/onebusaway/nyc/vehicle_tracking/impl/inference/rules/ScheduleLikelihood.java:102-161 | The factor is the prior's log density at the generic point for a missing assignment, deadhead-after, or a zero deviation before the trip; otherwise it is the log density at the candidate's own deviation |
| ScheduleRule.FallbacksAgree | onebusaway-nyc-vehicle-tracking/src/main/java/org/onebusaway/nyc/vehicle_tracking/impl/inference/rules/ScheduleLikelihood.java:105-142 | All fallbacks give the same log value |
| ScheduleRule.DuringPhasesUseDeviation | onebusaway-nyc-vehicle-tracking/src/main/java/org/onebusaway/nyc/vehicle_tracking/impl/inference/rules/ScheduleLikelihood.java:144-161 | In progress and in the during phases, the deviation is used even when it is zero |
| ScheduleRule.BeforePhasesFallBackOnZero | onebusaway-nyc-vehicle-tracking/src/main/java/org/onebusaway/nyc/vehicle_tracking/impl/inference/rules/ScheduleLikelihood.java:120-142 | Before the trip, a non-zero deviation is used and a zero one falls back to the generic point |
| ScheduleRule.LabelsIdentifyCase | onebusaway-nyc-vehicle-tracking/src/main/java/org/onebusaway/nyc/vehicle_tracking/impl/inference/rules/ScheduleLikelihood.java:102-161 | The factor's label identifies the case: the same label means both lack an assignment, or both have one and share the phase |
| ScheduleRule.LikelihoodIgnoresParentAndObservation | onebusaway-nyc-vehicle-tracking/src/main/java/org/onebusaway/nyc/vehicle_tracking/impl/inference/rules/ScheduleLikelihood.java:73-100 | The rule's result depends on the candidate state only, not on the parent state or the observation |
| JavaText.ToLower | onebusaway-nyc-presentation/src/main/java/org/onebusaway/nyc/presentation/impl/realtime/SiriSupportV2.java:932-942 | Lower-casing keeps the length, maps each character on its own and leaves no upper-case ASCII letter |
| JavaText.EqualsIgnoreCaseIffSameLower | onebusaway-nyc-presentation/src/main/java/org/onebusaway/nyc/presentation/impl/realtime/SiriSupportV2.java:952 | String.equalsIgnoreCase, modelled character by character, holds exactly when the lower-cased strings are equal |
| JavaText.TrimStart | onebusaway-nyc-presentation/src/main/java/org/onebusaway/nyc/presentation/impl/realtime/SiriSupportV2.java:952 | After trimming the front, the string is empty or starts above U+0020 |
| JavaText.TrimEnd | onebusaway-nyc-presentation/src/main/java/org/onebusaway/nyc/presentation/impl/realtime/SiriSupportV2.java:952 | After trimming the back, the string is empty or ends above U+0020 |
| JavaText.TrimStartDropsPadding | onebusaway-nyc-presentation/src/main/java/org/onebusaway/nyc/presentation/impl/realtime/SiriSupportV2.java:952 | Trimming the front keeps a suffix and drops only characters at or below U+0020 |
| JavaText.TrimEndDropsPadding | onebusaway-nyc-presentation/src/main/java/org/onebusaway/nyc/presentation/impl/realtime/SiriSupportV2.java:952 | Trimming the back keeps a prefix and drops only characters at or below U+0020 |
| JavaText.TrimmedSlice | onebusaway-nyc-presentation/src/main/java/org/onebusaway/nyc/presentation/impl/realtime/SiriSupportV2.java:952 | Trimming both ends cuts out one slice of the string with only characters at or below U+0020 around it |
| JavaText.Trim | onebusaway-nyc-presentation/src/main/java/org/onebusaway/nyc/presentation/impl/realtime/SiriSupportV2.java:952 | String.trim returns a slice of the string with only characters at or below U+0020 around it, and it is empty or starts and ends above U+0020 |
| JavaText.TrimStartPadding | onebusaway-nyc-presentation/src/main/java/org/onebusaway/nyc/presentation/impl/realtime/SiriSupportV2.java:952 | Leading padding at or below U+0020 is dropped exactly, down to the first character above it |
| JavaText.TrimEndPadding | onebusaway-nyc-presentation/src/main/java/org/onebusaway/nyc/presentation/impl/realtime/SiriSupportV2.java:952 | Trailing padding at or below U+0020 is dropped exactly |
| JavaText.TrimPadded | onebusaway-nyc-presentation/src/main/java/org/onebusaway/nyc/presentation/impl/realtime/SiriSupportV2.java:952 | Trim returns the word exactly, for a word starting and ending above U+0020 with padding on both sides |
| JavaText.BlankAsciiTrimsToEmpty | onebusaway-nyc-presentation/src/main/java/org/onebusaway/nyc/presentation/impl/realtime/SiriSupportV2.java:951 | An ASCII string that StringUtils.isBlank accepts trims to the empty string |
| SiriSupport.ProgressRateForPhaseAndStatus | onebusaway-nyc-presentation/src/main/java/org/onebusaway/nyc/presentation/impl/realtime/SiriSupportV2.java:926-947 | A null phase gives UNKNOWN. The rate is NO_PROGRESS exactly when the lower-cased phase starts with layover or deadhead, is at_base, or the status is stalled ignoring case. It is NORMAL_PROGRESS exactly when the phase is in_progress ignoring case and the vehicle is not stalled |
| SiriSupport.ProgressRateOfPhases | onebusaway-nyc-presentation/src/main/java/org/onebusaway/nyc/presentation/impl/realtime/SiriSupportV2.java:926-947 | For the names of the eight journey phases, in any letter case, the rate is NORMAL_PROGRESS for a vehicle in progress that is not stalled and NO_PROGRESS for every other phase, so a real phase never gives UNKNOWN |
| SiriSupport.PassFilter | onebusaway-nyc-presentation/src/main/java/org/onebusaway/nyc/presentation/impl/realtime/SiriSupportV2.java:950-956 | A value passes exactly when the filter is null or blank, or when it equals the trimmed filter ignoring case |
| SiriSupport.PassFilterIgnoresPaddingAndCase | onebusaway-nyc-presentation/src/main/java/org/onebusaway/nyc/presentation/impl/realtime/SiriSupportV2.java:950-956 | A filter word with padding on both sides selects exactly the values that spell the word in some letter case |
| SiriSupport.OccurrencesPositive | onebusaway-nyc-presentation/src/main/java/org/onebusaway/nyc/presentation/impl/realtime/SiriSupportV2.java:911-924 | A stop id has been counted a positive number of times exactly when it has been visited |
| SiriSupport.VisitCountsAppend | onebusaway-nyc-presentation/src/main/java/org/onebusaway/nyc/presentation/impl/realtime/SiriSupportV2.java:911-924 | Visiting one more stop updates only that stop's count, to one more than the number of earlier visits |
| SiriSupport.VisitCountsAreOccurrences | onebusaway-nyc-presentation/src/main/java/org/onebusaway/nyc/presentation/impl/realtime/SiriSupportV2.java:911-924 | The counter map holds exactly the visited stops, each mapped to its number of visits |
| SiriSupport.VisitNumbers.constructor | onebusaway-nyc-presentation/src/main/java/org/onebusaway/nyc/presentation/impl/realtime/SiriSupportV2.java:622 | A new counter is empty and has seen no stop |
| SiriSupport.VisitNumbers.GetVisitNumber | onebusaway-nyc-presentation/src/main/java/org/onebusaway/nyc/presentation/impl/realtime/SiriSupportV2.java:911-924 | Returns 1 for an unseen stop and the stored value plus 1 otherwise. Stores that value under the stop and leaves other keys unchanged. The result is the number of visits to the stop so far, and the counter invariant is kept |
| SiriSupport.VisitNumberAt | onebusaway-nyc-presentation/src/main/java/org/onebusaway/nyc/presentation/impl/realtime/SiriSupportV2.java:622-626 | The visit number of the j-th stop time is between 1 and j + 1 |
| SiriSupport.OccurrencesOfStopIds | onebusaway-nyc-presentation/src/main/java/org/onebusaway/nyc/presentation/impl/realtime/SiriSupportV2.java:622-626 | The counter's notion of visits, counted over the stop ids seen, agrees with counting the trip's stop times at the stop |
| SiriSupport.VisitStopTime | onebusaway-nyc-presentation/src/main/java/org/onebusaway/nyc/presentation/impl/realtime/SiriSupportV2.java:717-719 | Counting the j-th stop time of a trip hands out its visit number: how often its stop occurs up to and including it |
| SiriSupport.FirstTripWithId | onebusaway-nyc-presentation/src/main/java/org/onebusaway/nyc/presentation/impl/realtime/SiriSupportV2.java:588-612 | The trip found carries the id and no earlier trip from the starting index does; if none is found, no trip from there carries it |
| SiriSupport.TripCallsPrefix | onebusaway-nyc-presentation/src/main/java/org/onebusaway/nyc/presentation/impl/realtime/SiriSupportV2.java:622-663 | Walking more stop times only appends calls |
| SiriSupport.TripCallsNumbered | onebusaway-nyc-presentation/src/main/java/org/onebusaway/nyc/presentation/impl/realtime/SiriSupportV2.java:622-663 | The calls of a trip count the stops after the vehicle consecutively: the i-th call is numbered base + i |
| SiriSupport.TripCallsCount | onebusaway-nyc-presentation/src/main/java/org/onebusaway/nyc/presentation/impl/realtime/SiriSupportV2.java:622-663 | A trip yields exactly one call per stop time ahead of the vehicle, as counted independently, whatever the numbering base |
| SiriSupport.TripCallsSound | onebusaway-nyc-presentation/src/main/java/org/onebusaway/nyc/presentation/impl/realtime/SiriSupportV2.java:622-663 | Every call is the call of a stop time of the trip that is ahead of the vehicle, with its stop, visit number and distances |
| SiriSupport.TripCallsComplete | onebusaway-nyc-presentation/src/main/java/org/onebusaway/nyc/presentation/impl/realtime/SiriSupportV2.java:622-663 | Every stop time ahead of the vehicle has its call |
| SiriSupport.FutureTripCallsAllStops | onebusaway-nyc-presentation/src/main/java/org/onebusaway/nyc/presentation/impl/realtime/SiriSupportV2.java:634-648 | On a trip other than the active one, every stop time yields a call |
| SiriSupport.SelectedTrip | onebusaway-nyc-presentation/src/main/java/org/onebusaway/nyc/presentation/impl/realtime/SiriSupportV2.java:614-620 | The trip whose calls are listed is the active trip or a later one |
| SiriSupport.FillOnwardCalls | onebusaway-nyc-presentation/src/main/java/org/onebusaway/nyc/presentation/impl/realtime/SiriSupportV2.java:559-668 | The walk returns exactly the onward calls of the specification: the calls of the selected trip, cut at the limit |
| SiriSupport.AddTripOnwardCalls | onebusaway-nyc-presentation/src/main/java/org/onebusaway/nyc/presentation/impl/realtime/SiriSupportV2.java:622-663 | The stop-time loop returns the first calls of the trip, as many as the limit allows |
| SiriSupport.OnwardCallsBounded | onebusaway-nyc-presentation/src/main/java/org/onebusaway/nyc/presentation/impl/realtime/SiriSupportV2.java:576-663 | A maximum of zero gives no onward calls, and a positive maximum is never exceeded |
| SiriSupport.OnwardCallsNeedActiveTrip | onebusaway-nyc-presentation/src/main/java/org/onebusaway/nyc/presentation/impl/realtime/SiriSupportV2.java:588-612 | Without the active trip in the block there are no onward calls |
| SiriSupport.OnwardCallsFromSelectedTrip | onebusaway-nyc-presentation/src/main/java/org/onebusaway/nyc/presentation/impl/realtime/SiriSupportV2.java:614-663 | Onward calls are numbered 0, 1, 2 and so on. All of them are calls of stops ahead of the vehicle on one trip: the active trip for vehicle monitoring, the first trip from it with the monitored trip id for stop monitoring |
| SiriSupport.OnwardCallsAheadOfVehicle | onebusaway-nyc-presentation/src/main/java/org/onebusaway/nyc/presentation/impl/realtime/SiriSupportV2.java:634-648 | When the listed trip is the active one, no onward call lies behind the vehicle, and every visit number is at least 1 |
| SiriSupport.OnwardCallsCompleteWithinLimit | onebusaway-nyc-presentation/src/main/java/org/onebusaway/nyc/presentation/impl/realtime/SiriSupportV2.java:622-663 | For vehicle monitoring with a maximum at least the trip's length, every stop of the active trip the vehicle has not passed appears as an onward call |
| SiriSupport.TripMonitoredCallStable | onebusaway-nyc-presentation/src/main/java/org/onebusaway/nyc/presentation/impl/realtime/SiriSupportV2.java:740-762 | Once a trip's walk finds the monitored stop, walking further does not change the call |
| SiriSupport.TripMonitoredCallExact | onebusaway-nyc-presentation/src/main/java/org/onebusaway/nyc/presentation/impl/realtime/SiriSupportV2.java:717-763 | A trip's monitored call is the call of the first stop ahead of the vehicle with the monitored id: no earlier stop ahead of the vehicle has that id, and its stopsFromCall is base plus the number of stops ahead of the vehicle before it. There is none exactly when no such stop exists |
| SiriSupport.FindMonitoredCallExact | onebusaway-nyc-presentation/src/main/java/org/onebusaway/nyc/presentation/impl/realtime/SiriSupportV2.java:689-764 | From trip t on, the monitored call is the call of the first stop in block order that is ahead of the vehicle and has the monitored id: no earlier trip from t and no earlier stop of its own trip has one, and its stopsFromCall is base plus the number of stops ahead of the vehicle before it across those trips. There is none exactly when no trip from t has such a stop |
| SiriSupport.MonitoredCallAtMonitoredStop | onebusaway-nyc-presentation/src/main/java/org/onebusaway/nyc/presentation/impl/realtime/SiriSupportV2.java:740-761 | The monitored call is at the monitored stop and has a visit number of at least 1. There is none on a detour or without an active trip |
| SiriSupport.MonitoredCallIsFirstAhead | onebusaway-nyc-presentation/src/main/java/org/onebusaway/nyc/presentation/impl/realtime/SiriSupportV2.java:674-765 | Off a detour, with active trip k, the monitored call is the call of the first stop from trip k on that is ahead of the vehicle and has the monitored id, and its stopsFromCall is the number of stops ahead of the vehicle before it; there is none exactly when no trip from k has such a stop |
| SiriSupport.FillMonitoredCall | onebusaway-nyc-presentation/src/main/java/org/onebusaway/nyc/presentation/impl/realtime/SiriSupportV2.java:674-765 | The walk returns exactly the monitored call of the specification |
| SiriSupport.FindTripMonitoredCall | onebusaway-nyc-presentation/src/main/java/org/onebusaway/nyc/presentation/impl/realtime/SiriSupportV2.java:715-763 | The walk over one trip finds the monitored stop exactly when the specification does. It keeps the call only when not on a detour. When the stop is not found, it returns the count of stops after the vehicle so far |
| SiriSupport.FillAnnotatedStopPointStructure | onebusaway-nyc-presentation/src/main/java/org/onebusaway/nyc/presentation/impl/realtime/SiriSupportV2.java:328-405 | Returns true exactly when some route passes the LINE_REF filter; returning false leaves the stop point unchanged. When true, the stop name is appended and the stop id set; location, the line directions of all routes, and monitored = true are set only at the basic, normal and calls detail levels |
| SiriSupport.ScanRouteDirections | onebusaway-nyc-presentation/src/main/java/org/onebusaway/nyc/presentation/impl/realtime/SiriSupportV2.java:351-373 | The route loop returns the line direction of every route, in order, and whether some route id passes the LINE_REF filter |
| SiriSupport.ValidRouteHasLines | onebusaway-nyc-presentation/src/main/java/org/onebusaway/nyc/presentation/impl/realtime/SiriSupportV2.java:376 | A valid route implies at least one line direction |
| SiriSupport.UnfilteredStopPointValidIffServed | onebusaway-nyc-presentation/src/main/java/org/onebusaway/nyc/presentation/impl/realtime/SiriSupportV2.java:342-377 | With no LINE_REF filter, or a blank one, a stop point is valid exactly when some route serves the stop |
| SiriSupport.FilteredStopPointValidIffRouteMatches | onebusaway-nyc-presentation/src/main/java/org/onebusaway/nyc/presentation/impl/realtime/SiriSupportV2.java:342-377 | With a non-blank LINE_REF filter, a stop point is valid exactly when one of its route ids equals the trimmed filter ignoring case |

## Left out

- `RealtimeServiceV2Impl`:
  - Spring wiring and service lookups;
  - wall-clock time;
  - the comparators that swallow exceptions;
  - its call sites.
- `CDFMap`, the tracker's cumulative-weight sampler, is specified by these properties rather than modelled from its code:
  - entries with weight at most zero are never drawn;
  - positive weights own half-open slices of the cumulative table;
  - the uniform draw in [0, 1) is a parameter rather than a random number generator.
- The block-state transition model and the vehicle-state sensor model are function parameters. The journey-state factories are the datatype constructors. These collaborators are called in a per-candidate order the model does not track.
- Statistics and floating point:
  - The Student-t log density, the folded-normal inverse distribution function and the square root are function-valued fields of `ScheduleRule.PriorNumerics`. No numeric value or monotonicity is claimed for them.
  - Doubles are `real`, so NaN, infinities and rounding are not modelled.
- The commented-out schedule-deviation transition term of `ScheduleLikelihood.likelihood` is not modelled.
- The SIRI structures are values or plain fields: JAXB objects, `DecimalFormat` distances, `BigDecimal` coordinates, `DateUtil` timestamps, predictions and situations.
- `fillMonitoredVehicleJourney`, `fillSituations`, `getOnwardCallStructure`, `getMonitoredCallStructure` and `fillAnnotatedLineStructure` are not modelled. The first four only build structures. The last one does not compile.
- `isOnDetour` of the presentation service is a boolean parameter of the monitored-call walk.
- JavaText.ToLower: only ASCII letters are case-mapped. `toLowerCase` and `equalsIgnoreCase` on other scripts are not modelled.
  `toLowerCase()` uses the JVM's default locale. The model assumes a locale whose lower-casing of ASCII is the plain one. Under a Turkish or Azerbaijani default locale, "IN_PROGRESS" lower-cases with a dotless i and `getProgressRateForPhaseAndStatus` would not recognise it; that case is not modelled.
- Java `int` overflow of the visit and stop counters is not modelled: integers are unbounded.
- SiriSupport.OnwardLimit: a negative `maximumOnwardCalls` is modelled as written. The check `onwardCallsAdded >= maximumOnwardCalls` after the first call stops the walk, so the result has at most one call.
- `DetailLevel` is declared outside SiriSupportV2; its constants are modelled by name. Only those the helpers compare against are declared: BASIC, NORMAL, CALLS, STOPS and FULL (SiriSupportV2.java lines 395, 481 and 512).
