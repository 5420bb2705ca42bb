/**
 * The decision logic of the SIRI version 2 presentation helpers: the
 * progress rate shown for a vehicle, the line-reference filter, the visit
 * counter of a trip, the walks over a block that pick the onward calls and
 * the monitored call, and the validity check of an annotated stop point.
 * SIRI structures are values here; building them is a record update.
 */
module SiriSupport {
  import opened Wrappers
  import opened JavaText
  import InferenceState

  // ---------------------------------------------------------------------
  // Progress rate
  // ---------------------------------------------------------------------

  /** ProgressRateEnumeration values the helper produces. */
  datatype ProgressRate = NormalProgress | NoProgress | Unknown

  /** The lower-cased name of each journey phase, as it reaches the presentation layer. */
  function PhaseLabel(p: InferenceState.Phase): string
  {
    match p
    case AtBase => "at_base"
    case DeadheadBefore => "deadhead_before"
    case LayoverBefore => "layover_before"
    case InProgress => "in_progress"
    case DeadheadDuring => "deadhead_during"
    case LayoverDuring => "layover_during"
    case DeadheadAfter => "deadhead_after"
    case LayoverAfter => "layover_after"
  }

  /** A lower-cased phase name of a vehicle that is not serving a trip. */
  predicate IsOffTripLabel(name: string)
  {
    StartsWith(name, "layover") || StartsWith(name, "deadhead") || name == "at_base"
  }

  /** The status reports a stalled vehicle (compared ignoring case). */
  predicate IsStalled(status: Option<string>)
  {
    status.Some? && ToLower(status.value) == "stalled"
  }

  /**
   * Progress rate from the trip status and phase strings (None is Java's
   * null). Off-trip phases and stalled vehicles make no progress; a vehicle in
   * progress makes normal progress; anything else, or no phase, is unknown.
   */
  function ProgressRateForPhaseAndStatus(status: Option<string>, phase: Option<string>): (r: ProgressRate)
    ensures phase.None? ==> r == Unknown
    ensures r == NoProgress <==> phase.Some? && (IsOffTripLabel(ToLower(phase.value)) || IsStalled(status))
    ensures r == NormalProgress <==> phase.Some? && ToLower(phase.value) == "in_progress" && !IsStalled(status)
  {
    assert !StartsWith("in_progress", "layover") by { assert "in_progress"[0] != "layover"[0]; }
    assert !StartsWith("in_progress", "deadhead") by { assert "in_progress"[0] != "deadhead"[0]; }
    if phase.None? then Unknown
    else if IsOffTripLabel(ToLower(phase.value)) then NoProgress
    else if IsStalled(status) then NoProgress
    else if ToLower(phase.value) == "in_progress" then NormalProgress
    else Unknown
  }

  /**
   * Over the eight journey phases, in any letter case: only a vehicle in
   * progress that is not stalled makes normal progress, every other phase
   * makes no progress, and no phase yields an unknown rate.
   */
  lemma ProgressRateOfPhases(status: Option<string>, phase: string, p: InferenceState.Phase)
    requires ToLower(phase) == PhaseLabel(p)
    ensures ProgressRateForPhaseAndStatus(status, Some(phase))
         == if p == InferenceState.InProgress && !IsStalled(status) then NormalProgress else NoProgress
  {
    var l := ToLower(phase);
    match p
    case AtBase =>
    case DeadheadBefore => assert l[..8] == "deadhead";
    case LayoverBefore => assert l[..7] == "layover";
    case InProgress =>
    case DeadheadDuring => assert l[..8] == "deadhead";
    case LayoverDuring => assert l[..7] == "layover";
    case DeadheadAfter => assert l[..8] == "deadhead";
    case LayoverAfter => assert l[..7] == "layover";
  }

  // ---------------------------------------------------------------------
  // Line-reference filter
  // ---------------------------------------------------------------------

  /**
   * A value passes a filter that is absent or blank, and otherwise exactly
   * when it equals the trimmed filter ignoring case.
   */
  function PassFilter(value: string, filterValue: Option<string>): (pass: bool)
    ensures pass <==> filterValue.None? || IsBlank(filterValue.value) || ToLower(value) == ToLower(Trim(filterValue.value))
  {
    if IsNotBlank(filterValue) then
      EqualsIgnoreCaseIffSameLower(value, Trim(filterValue.value));
      !(IsNotBlank(filterValue) && !EqualsIgnoreCase(value, Trim(filterValue.value)))
    else true
  }

  /**
   * A filter word surrounded by padding selects exactly the values that spell
   * the word in some letter case.
   */
  lemma PassFilterIgnoresPaddingAndCase(value: string, left: string, word: string, right: string)
    requires forall i :: 0 <= i < |left| ==> left[i] <= ' '
    requires forall i :: 0 <= i < |right| ==> right[i] <= ' '
    requires word != [] && word[0] > ' ' && word[|word| - 1] > ' '
    requires !IsBlank(word)
    ensures PassFilter(value, Some(left + word + right)) <==> ToLower(value) == ToLower(word)
  {
    TrimPadded(left, word, right);
    var f := left + word + right;
    var i :| 0 <= i < |word| && !IsJavaWhitespace(word[i]);
    assert f[|left| + i] == word[i];
  }

  // ---------------------------------------------------------------------
  // Visit numbers
  // ---------------------------------------------------------------------

  /** How many times a stop id occurs in a sequence of stop ids. */
  function Occurrences(ids: seq<string>, id: string): (n: nat)
    ensures n <= |ids|
  {
    if ids == [] then 0
    else Occurrences(ids[..|ids| - 1], id) + (if ids[|ids| - 1] == id then 1 else 0)
  }

  /** A stop id occurs a positive number of times exactly when it is in the sequence. */
  lemma {:induction false} OccurrencesPositive(ids: seq<string>, id: string)
    ensures Occurrences(ids, id) > 0 <==> id in ids
  {
    if ids != [] {
      assert ids == ids[..|ids| - 1] + [ids[|ids| - 1]];
      OccurrencesPositive(ids[..|ids| - 1], id);
    }
  }

  /** The visit counts after the stops in ids have been visited in order. */
  function VisitCounts(ids: seq<string>): map<string, int>
  {
    if ids == [] then map[]
    else VisitCounts(ids[..|ids| - 1])[ids[|ids| - 1] := Occurrences(ids, ids[|ids| - 1])]
  }

  lemma VisitCountsAppend(ids: seq<string>, id: string)
    ensures VisitCounts(ids + [id]) == VisitCounts(ids)[id := Occurrences(ids, id) + 1]
  {
    var extended := ids + [id];
    assert extended[..|extended| - 1] == ids;
    assert extended[|extended| - 1] == id;
    assert Occurrences(extended, id) == Occurrences(ids, id) + 1;
  }

  /** The visit counts hold, for every stop visited and no other, how often it was visited. */
  lemma {:induction false} VisitCountsAreOccurrences(ids: seq<string>)
    ensures forall id :: id in VisitCounts(ids) <==> id in ids
    ensures forall id :: id in VisitCounts(ids) ==> VisitCounts(ids)[id] == Occurrences(ids, id)
  {
    if ids != [] {
      var prefix := ids[..|ids| - 1];
      assert ids == prefix + [ids[|ids| - 1]];
      VisitCountsAreOccurrences(prefix);
    }
  }

  /**
   * The per-trip counter of visits to each stop: the n-th time a trip serves
   * a stop, that call has visit number n.
   */
  class VisitNumbers {
    var counts: map<string, int>
    ghost var seen: seq<string>

    ghost predicate Valid()
      reads this
    {
      counts == VisitCounts(seen)
    }

    constructor ()
      ensures Valid() && seen == [] && counts == map[]
    {
      counts := map[];
      seen := [];
    }

    /** Count one more visit to the stop and return its visit number. */
    method GetVisitNumber(stopId: string) returns (visitNumber: int)
      requires Valid()
      modifies this
      ensures Valid() && seen == old(seen) + [stopId]
      ensures visitNumber == if stopId in old(counts) then old(counts)[stopId] + 1 else 1
      ensures counts == old(counts)[stopId := visitNumber]
      ensures visitNumber == Occurrences(seen, stopId)
    {
      VisitCountsAreOccurrences(seen);
      OccurrencesPositive(seen, stopId);
      if stopId in counts {
        visitNumber := counts[stopId] + 1;
      } else {
        visitNumber := 1;
      }
      counts := counts[stopId := visitNumber];
      VisitCountsAppend(seen, stopId);
      seen := seen + [stopId];
    }
  }

  // ---------------------------------------------------------------------
  // Blocks, trips and calls
  // ---------------------------------------------------------------------

  /** A stop time of a block trip with the distance of its stop along the block. */
  datatype StopTime = StopTime(stopId: string, distanceAlongBlock: real)

  /** A trip of a block; its distance along the block is where the trip begins. */
  datatype BlockTrip = BlockTrip(tripId: string, distanceAlongBlock: real, stopTimes: seq<StopTime>)

  /** The part of a vehicle's trip status the walks read. */
  datatype TripStatus = TripStatus(activeTripId: string, distanceAlongTrip: real)

  datatype OnwardCallsMode = VehicleMonitoring | StopMonitoring

  /** The data handed to the builder of one onward or monitored call. */
  datatype Call = Call(stopId: string, visitNumber: int, stopsFromCall: int,
                       callDistanceAlongRoute: real, distanceFromCall: real)

  function StopIds(stops: seq<StopTime>): (ids: seq<string>)
    ensures |ids| == |stops|
    ensures forall i :: 0 <= i < |stops| ==> ids[i] == stops[i].stopId
  {
    seq(|stops|, i requires 0 <= i < |stops| => stops[i].stopId)
  }

  lemma StopIdsStep(stops: seq<StopTime>, j: nat)
    requires j < |stops|
    ensures StopIds(stops[..j + 1]) == StopIds(stops[..j]) + [stops[j].stopId]
  {
    assert stops[..j + 1] == stops[..j] + [stops[j]];
  }

  /** How many of the first n stop times are at the given stop. */
  function StopCount(stops: seq<StopTime>, stopId: string, n: nat): (count: nat)
    requires n <= |stops|
    ensures count <= n
  {
    if n == 0 then 0
    else StopCount(stops, stopId, n - 1) + (if stops[n - 1].stopId == stopId then 1 else 0)
  }

  /** The visit number of the j-th stop time: how often its stop occurs up to and including it. */
  function VisitNumberAt(stops: seq<StopTime>, j: nat): (n: nat)
    requires j < |stops|
    ensures 1 <= n <= j + 1
  {
    StopCount(stops, stops[j].stopId, j + 1)
  }

  /** Counting the ids of the first n stop times counts the stop times at that stop. */
  lemma {:induction false} OccurrencesOfStopIds(stops: seq<StopTime>, n: nat, stopId: string)
    requires n <= |stops|
    ensures Occurrences(StopIds(stops[..n]), stopId) == StopCount(stops, stopId, n)
  {
    if n > 0 {
      StopIdsStep(stops, n - 1);
      assert (StopIds(stops[..n - 1]) + [stops[n - 1].stopId])[..n - 1] == StopIds(stops[..n - 1]);
      OccurrencesOfStopIds(stops, n - 1, stopId);
    }
  }

  /**
   * Count the visit of the j-th stop time of a trip whose earlier stop times
   * have been counted: the number handed out is the stop time's visit number.
   */
  method VisitStopTime(visits: VisitNumbers, stops: seq<StopTime>, j: nat) returns (visitNumber: int)
    requires j < |stops|
    requires visits.Valid() && visits.seen == StopIds(stops[..j])
    modifies visits
    ensures visits.Valid() && visits.seen == StopIds(stops[..j + 1])
    ensures visitNumber == VisitNumberAt(stops, j)
  {
    visitNumber := visits.GetVisitNumber(stops[j].stopId);
    StopIdsStep(stops, j);
    OccurrencesOfStopIds(stops, j + 1, stops[j].stopId);
  }

  /** The first trip at or after index from with the given id. */
  function FirstTripWithId(trips: seq<BlockTrip>, tripId: string, from: nat): (k: Option<nat>)
    requires from <= |trips|
    ensures k.Some? ==> from <= k.value < |trips| && trips[k.value].tripId == tripId
    ensures forall j :: from <= j < |trips| && (k.None? || j < k.value) ==> trips[j].tripId != tripId
    decreases |trips| - from
  {
    if from == |trips| then None
    else if trips[from].tripId == tripId then Some(from)
    else FirstTripWithId(trips, tripId, from + 1)
  }

  /**
   * How far along the block the vehicle is when its active trip is trip k:
   * the start of trip k (zero for the first trip) plus the distance along
   * the trip.
   */
  function VehicleDistanceAlongBlock(trips: seq<BlockTrip>, k: nat, status: TripStatus): real
    requires k < |trips|
  {
    (if k == 0 then 0.0 else trips[k].distanceAlongBlock) + status.distanceAlongTrip
  }

  /** Stops of the active trip count only once the vehicle has not passed them; stops of other trips always count. */
  predicate AheadOfVehicle(trip: BlockTrip, stop: StopTime, activeTripId: string, vehicleDistance: real)
  {
    trip.tripId != activeTripId || stop.distanceAlongBlock >= vehicleDistance
  }

  /** The call of the j-th stop time of a trip, numbered stopsFromCall. */
  function CallAt(trip: BlockTrip, vehicleDistance: real, j: nat, stopsFromCall: int): Call
    requires j < |trip.stopTimes|
  {
    var stop := trip.stopTimes[j];
    Call(stop.stopId, VisitNumberAt(trip.stopTimes, j), stopsFromCall,
         stop.distanceAlongBlock - trip.distanceAlongBlock, stop.distanceAlongBlock - vehicleDistance)
  }

  /**
   * The calls produced by the first n stop times of a trip, numbered from
   * base on: one per stop ahead of the vehicle, in stop order.
   */
  function TripCalls(trip: BlockTrip, activeTripId: string, vehicleDistance: real, base: int, n: nat): (calls: seq<Call>)
    requires n <= |trip.stopTimes|
    ensures |calls| <= n
    decreases n
  {
    if n == 0 then []
    else
      var prev := TripCalls(trip, activeTripId, vehicleDistance, base, n - 1);
      if AheadOfVehicle(trip, trip.stopTimes[n - 1], activeTripId, vehicleDistance) then
        prev + [CallAt(trip, vehicleDistance, n - 1, base + |prev|)]
      else prev
  }

  /** Call c is the call of the j-th stop time of the trip. */
  predicate IsCallOf(trip: BlockTrip, activeTripId: string, vehicleDistance: real, c: Call, j: nat)
    requires j < |trip.stopTimes|
  {
    var stop := trip.stopTimes[j];
    && AheadOfVehicle(trip, stop, activeTripId, vehicleDistance)
    && c.stopId == stop.stopId
    && c.visitNumber == VisitNumberAt(trip.stopTimes, j)
    && c.callDistanceAlongRoute == stop.distanceAlongBlock - trip.distanceAlongBlock
    && c.distanceFromCall == stop.distanceAlongBlock - vehicleDistance
  }

  /** How many of the first n stop times of a trip lie ahead of the vehicle. */
  function StopsAhead(trip: BlockTrip, activeTripId: string, vehicleDistance: real, n: nat): (count: nat)
    requires n <= |trip.stopTimes|
    ensures count <= n
    decreases n
  {
    if n == 0 then 0
    else StopsAhead(trip, activeTripId, vehicleDistance, n - 1)
         + (if AheadOfVehicle(trip, trip.stopTimes[n - 1], activeTripId, vehicleDistance) then 1 else 0)
  }

  /** A trip yields one call per stop time ahead of the vehicle, whatever the numbering base. */
  lemma {:induction false} TripCallsCount(trip: BlockTrip, activeTripId: string, vehicleDistance: real, base: int, n: nat)
    requires n <= |trip.stopTimes|
    ensures |TripCalls(trip, activeTripId, vehicleDistance, base, n)| == StopsAhead(trip, activeTripId, vehicleDistance, n)
    decreases n
  {
    if n > 0 {
      TripCallsCount(trip, activeTripId, vehicleDistance, base, n - 1);
    }
  }

  /** Walking more stop times only appends calls. */
  lemma {:induction false} TripCallsPrefix(trip: BlockTrip, activeTripId: string, vehicleDistance: real, base: int, n: nat, m: nat)
    requires n <= m <= |trip.stopTimes|
    ensures TripCalls(trip, activeTripId, vehicleDistance, base, n) <= TripCalls(trip, activeTripId, vehicleDistance, base, m)
    decreases m - n
  {
    if n < m {
      TripCallsPrefix(trip, activeTripId, vehicleDistance, base, n, m - 1);
    }
  }

  /** The calls of a trip are numbered consecutively from base. */
  lemma {:induction false} TripCallsNumbered(trip: BlockTrip, activeTripId: string, vehicleDistance: real, base: int, n: nat)
    requires n <= |trip.stopTimes|
    ensures forall i :: 0 <= i < |TripCalls(trip, activeTripId, vehicleDistance, base, n)| ==>
      TripCalls(trip, activeTripId, vehicleDistance, base, n)[i].stopsFromCall == base + i
    decreases n
  {
    if n > 0 {
      TripCallsNumbered(trip, activeTripId, vehicleDistance, base, n - 1);
      var prev := TripCalls(trip, activeTripId, vehicleDistance, base, n - 1);
      var calls := TripCalls(trip, activeTripId, vehicleDistance, base, n);
      forall i | 0 <= i < |calls|
        ensures calls[i].stopsFromCall == base + i
      {
        if i < |prev| {
          assert calls[i] == prev[i];
        }
      }
    }
  }

  /** Call c is the call of some stop time of the trip. */
  predicate IsCallOfSomeStop(trip: BlockTrip, activeTripId: string, vehicleDistance: real, c: Call)
  {
    exists j :: 0 <= j < |trip.stopTimes| && IsCallOf(trip, activeTripId, vehicleDistance, c, j)
  }

  /** Each call in calls is the call of some stop time of the trip. */
  predicate CallsFromStops(trip: BlockTrip, activeTripId: string, vehicleDistance: real, calls: seq<Call>)
  {
    forall i :: 0 <= i < |calls| ==> IsCallOfSomeStop(trip, activeTripId, vehicleDistance, calls[i])
  }

  /** Each of the first n stop times that lies ahead of the vehicle has its call in calls. */
  predicate StopsHaveCalls(trip: BlockTrip, activeTripId: string, vehicleDistance: real, calls: seq<Call>, n: nat)
    requires n <= |trip.stopTimes|
  {
    forall j :: 0 <= j < n && AheadOfVehicle(trip, trip.stopTimes[j], activeTripId, vehicleDistance) ==>
      exists i :: 0 <= i < |calls| && IsCallOf(trip, activeTripId, vehicleDistance, calls[i], j)
  }

  /** Each call of a trip is the call of one of its stops ahead of the vehicle. */
  lemma {:induction false} TripCallsSound(trip: BlockTrip, activeTripId: string, vehicleDistance: real, base: int, n: nat)
    requires n <= |trip.stopTimes|
    ensures CallsFromStops(trip, activeTripId, vehicleDistance, TripCalls(trip, activeTripId, vehicleDistance, base, n))
    decreases n
  {
    if n > 0 {
      TripCallsSound(trip, activeTripId, vehicleDistance, base, n - 1);
      var prev := TripCalls(trip, activeTripId, vehicleDistance, base, n - 1);
      var calls := TripCalls(trip, activeTripId, vehicleDistance, base, n);
      forall i | 0 <= i < |calls|
        ensures IsCallOfSomeStop(trip, activeTripId, vehicleDistance, calls[i])
      {
        if i < |prev| {
          assert calls[i] == prev[i];
          var j :| 0 <= j < |trip.stopTimes| && IsCallOf(trip, activeTripId, vehicleDistance, prev[i], j);
          assert IsCallOf(trip, activeTripId, vehicleDistance, calls[i], j);
        } else {
          assert IsCallOf(trip, activeTripId, vehicleDistance, calls[i], n - 1);
        }
      }
    }
  }

  /** Every stop of a trip ahead of the vehicle has its call. */
  lemma {:induction false} TripCallsComplete(trip: BlockTrip, activeTripId: string, vehicleDistance: real, base: int, n: nat)
    requires n <= |trip.stopTimes|
    ensures StopsHaveCalls(trip, activeTripId, vehicleDistance, TripCalls(trip, activeTripId, vehicleDistance, base, n), n)
    decreases n
  {
    if n > 0 {
      TripCallsComplete(trip, activeTripId, vehicleDistance, base, n - 1);
      var prev := TripCalls(trip, activeTripId, vehicleDistance, base, n - 1);
      var calls := TripCalls(trip, activeTripId, vehicleDistance, base, n);
      forall j | 0 <= j < n && AheadOfVehicle(trip, trip.stopTimes[j], activeTripId, vehicleDistance)
        ensures exists i :: 0 <= i < |calls| && IsCallOf(trip, activeTripId, vehicleDistance, calls[i], j)
      {
        if j < n - 1 {
          var i :| 0 <= i < |prev| && IsCallOf(trip, activeTripId, vehicleDistance, prev[i], j);
          assert calls[i] == prev[i];
        } else {
          assert IsCallOf(trip, activeTripId, vehicleDistance, calls[|prev|], j);
        }
      }
    }
  }

  /** On a trip the vehicle has not reached, every stop time becomes a call. */
  lemma {:induction false} FutureTripCallsAllStops(trip: BlockTrip, activeTripId: string, vehicleDistance: real, base: int, n: nat)
    requires n <= |trip.stopTimes|
    requires trip.tripId != activeTripId
    ensures |TripCalls(trip, activeTripId, vehicleDistance, base, n)| == n
    decreases n
  {
    if n > 0 {
      FutureTripCallsAllStops(trip, activeTripId, vehicleDistance, base, n - 1);
    }
  }

  // ---------------------------------------------------------------------
  // Onward calls
  // ---------------------------------------------------------------------

  /**
   * How many onward calls a maximum allows: none for zero; a negative
   * maximum stops the walk after the first call.
   */
  function OnwardLimit(maximumOnwardCalls: int): nat
  {
    if maximumOnwardCalls > 0 then maximumOnwardCalls
    else if maximumOnwardCalls == 0 then 0
    else 1
  }

  function Take<T>(s: seq<T>, n: nat): (r: seq<T>)
    ensures r <= s
    ensures |r| == if |s| <= n then |s| else n
  {
    if |s| <= n then s else s[..n]
  }

  /**
   * The trip whose calls are listed once the active trip k is known: trip k
   * itself for vehicle monitoring, the first trip from k on that carries
   * the monitored call for stop monitoring.
   */
  function SelectedTrip(trips: seq<BlockTrip>, k: nat, mode: OnwardCallsMode, monitoredTripId: string): (t: Option<nat>)
    requires k < |trips|
    ensures t.Some? ==> k <= t.value < |trips|
  {
    match mode
    case VehicleMonitoring => Some(k)
    case StopMonitoring => FirstTripWithId(trips, monitoredTripId, k)
  }

  /** The onward calls of a vehicle: calls of one trip of its block, cut at the limit. */
  function OnwardCalls(trips: seq<BlockTrip>, monitoredTripId: string, status: TripStatus,
                       mode: OnwardCallsMode, maximumOnwardCalls: int): seq<Call>
  {
    if maximumOnwardCalls == 0 then []
    else match FirstTripWithId(trips, status.activeTripId, 0)
      case None => []
      case Some(k) =>
        match SelectedTrip(trips, k, mode, monitoredTripId)
        case None => []
        case Some(t) =>
          Take(TripCalls(trips[t], status.activeTripId, VehicleDistanceAlongBlock(trips, k, status), 0, |trips[t].stopTimes|),
               OnwardLimit(maximumOnwardCalls))
  }

  /**
   * The walk of fillOnwardCalls: skip the trips the vehicle has finished,
   * then list the calls of one trip until the maximum is reached.
   */
  method FillOnwardCalls(trips: seq<BlockTrip>, monitoredTripId: string, status: TripStatus,
                         mode: OnwardCallsMode, maximumOnwardCalls: int) returns (calls: seq<Call>)
    ensures calls == OnwardCalls(trips, monitoredTripId, status, mode, maximumOnwardCalls)
  {
    calls := [];
    if maximumOnwardCalls == 0 {
      return;
    }
    var distanceOfVehicleAlongBlock := 0.0;
    var foundActiveTrip := false;
    ghost var k: nat := 0;
    var i := 0;
    while i < |trips|
      invariant 0 <= i <= |trips|
      invariant calls == []
      invariant !foundActiveTrip ==> FirstTripWithId(trips, status.activeTripId, 0) == FirstTripWithId(trips, status.activeTripId, i)
      invariant !foundActiveTrip && i < |trips| ==>
        distanceOfVehicleAlongBlock == if i == 0 then 0.0 else trips[i].distanceAlongBlock
      invariant foundActiveTrip ==>
        && k < i
        && mode == StopMonitoring
        && FirstTripWithId(trips, status.activeTripId, 0) == Some(k)
        && distanceOfVehicleAlongBlock == VehicleDistanceAlongBlock(trips, k, status)
        && SelectedTrip(trips, k, mode, monitoredTripId) == FirstTripWithId(trips, monitoredTripId, i)
    {
      var blockTrip := trips[i];
      if !foundActiveTrip {
        if status.activeTripId == blockTrip.tripId {
          distanceOfVehicleAlongBlock := distanceOfVehicleAlongBlock + status.distanceAlongTrip;
          foundActiveTrip := true;
          k := i;
        } else {
          if i + 1 < |trips| {
            distanceOfVehicleAlongBlock := trips[i + 1].distanceAlongBlock;
          }
          i := i + 1;
          continue;
        }
      }
      if mode == StopMonitoring && blockTrip.tripId != monitoredTripId {
        i := i + 1;
        continue;
      }
      assert SelectedTrip(trips, k, mode, monitoredTripId) == Some(i);
      calls := AddTripOnwardCalls(blockTrip, status.activeTripId, distanceOfVehicleAlongBlock, maximumOnwardCalls);
      return;
    }
  }

  /**
   * The stop-time loop of fillOnwardCalls over the selected trip: one call
   * per stop ahead of the vehicle, returning once the maximum is reached.
   */
  method AddTripOnwardCalls(blockTrip: BlockTrip, activeTripId: string, distanceOfVehicleAlongBlock: real,
                            maximumOnwardCalls: int) returns (calls: seq<Call>)
    requires maximumOnwardCalls != 0
    ensures calls == Take(TripCalls(blockTrip, activeTripId, distanceOfVehicleAlongBlock, 0, |blockTrip.stopTimes|),
                          OnwardLimit(maximumOnwardCalls))
  {
    calls := [];
    var blockTripStopsAfterTheVehicle := 0;
    var onwardCallsAdded := 0;
    var visits := new VisitNumbers();
    var j := 0;
    while j < |blockTrip.stopTimes|
      invariant 0 <= j <= |blockTrip.stopTimes|
      invariant visits.Valid() && visits.seen == StopIds(blockTrip.stopTimes[..j])
      invariant calls == TripCalls(blockTrip, activeTripId, distanceOfVehicleAlongBlock, 0, j)
      invariant onwardCallsAdded == |calls| == blockTripStopsAfterTheVehicle
      invariant |calls| < OnwardLimit(maximumOnwardCalls)
    {
      var stopTime := blockTrip.stopTimes[j];
      var visitNumber := VisitStopTime(visits, blockTrip.stopTimes, j);
      if activeTripId == blockTrip.tripId {
        if stopTime.distanceAlongBlock >= distanceOfVehicleAlongBlock {
          blockTripStopsAfterTheVehicle := blockTripStopsAfterTheVehicle + 1;
        } else {
          TripCallsSkip(blockTrip, activeTripId, distanceOfVehicleAlongBlock, j);
          j := j + 1;
          continue;
        }
      } else {
        blockTripStopsAfterTheVehicle := blockTripStopsAfterTheVehicle + 1;
      }
      var call := Call(stopTime.stopId, visitNumber, blockTripStopsAfterTheVehicle - 1,
                       stopTime.distanceAlongBlock - blockTrip.distanceAlongBlock,
                       stopTime.distanceAlongBlock - distanceOfVehicleAlongBlock);
      TripCallsAdvance(blockTrip, activeTripId, distanceOfVehicleAlongBlock, j, calls, call);
      calls := calls + [call];
      onwardCallsAdded := onwardCallsAdded + 1;
      if onwardCallsAdded >= maximumOnwardCalls {
        TripCallsLimitReached(blockTrip, activeTripId, distanceOfVehicleAlongBlock, j + 1, calls, OnwardLimit(maximumOnwardCalls));
        return;
      }
      j := j + 1;
    }
    TripCallsWithinLimit(blockTrip, activeTripId, distanceOfVehicleAlongBlock, calls, OnwardLimit(maximumOnwardCalls));
  }

  /** A stop time behind the vehicle on the active trip adds no call. */
  lemma TripCallsSkip(trip: BlockTrip, activeTripId: string, vehicleDistance: real, j: nat)
    requires j < |trip.stopTimes|
    requires !AheadOfVehicle(trip, trip.stopTimes[j], activeTripId, vehicleDistance)
    ensures TripCalls(trip, activeTripId, vehicleDistance, 0, j + 1) == TripCalls(trip, activeTripId, vehicleDistance, 0, j)
  {
  }

  /** A stop time ahead of the vehicle appends its call, numbered by the calls before it. */
  lemma TripCallsAdvance(trip: BlockTrip, activeTripId: string, vehicleDistance: real, j: nat, calls: seq<Call>, call: Call)
    requires j < |trip.stopTimes|
    requires calls == TripCalls(trip, activeTripId, vehicleDistance, 0, j)
    requires AheadOfVehicle(trip, trip.stopTimes[j], activeTripId, vehicleDistance)
    requires call == Call(trip.stopTimes[j].stopId, VisitNumberAt(trip.stopTimes, j), |calls|,
                          trip.stopTimes[j].distanceAlongBlock - trip.distanceAlongBlock,
                          trip.stopTimes[j].distanceAlongBlock - vehicleDistance)
    ensures calls + [call] == TripCalls(trip, activeTripId, vehicleDistance, 0, j + 1)
  {
  }

  /** Stopping once the limit is reached keeps exactly the first calls of the whole trip. */
  lemma TripCallsLimitReached(trip: BlockTrip, activeTripId: string, vehicleDistance: real, n: nat, calls: seq<Call>, limit: nat)
    requires n <= |trip.stopTimes|
    requires calls == TripCalls(trip, activeTripId, vehicleDistance, 0, n)
    requires |calls| == limit
    ensures calls == Take(TripCalls(trip, activeTripId, vehicleDistance, 0, |trip.stopTimes|), limit)
  {
    TripCallsPrefix(trip, activeTripId, vehicleDistance, 0, n, |trip.stopTimes|);
  }

  /** Walking the whole trip below the limit keeps all its calls. */
  lemma TripCallsWithinLimit(trip: BlockTrip, activeTripId: string, vehicleDistance: real, calls: seq<Call>, limit: nat)
    requires calls == TripCalls(trip, activeTripId, vehicleDistance, 0, |trip.stopTimes|)
    requires |calls| < limit
    ensures calls == Take(TripCalls(trip, activeTripId, vehicleDistance, 0, |trip.stopTimes|), limit)
  {
  }

  /** A maximum of zero yields no calls; a positive maximum is never exceeded. */
  lemma OnwardCallsBounded(trips: seq<BlockTrip>, monitoredTripId: string, status: TripStatus,
                           mode: OnwardCallsMode, maximumOnwardCalls: int)
    ensures var calls := OnwardCalls(trips, monitoredTripId, status, mode, maximumOnwardCalls);
      && |calls| <= OnwardLimit(maximumOnwardCalls)
      && (maximumOnwardCalls == 0 ==> calls == [])
      && (maximumOnwardCalls > 0 ==> |calls| <= maximumOnwardCalls)
  {
  }

  /** Without an active trip in the block there are no onward calls. */
  lemma OnwardCallsNeedActiveTrip(trips: seq<BlockTrip>, monitoredTripId: string, status: TripStatus,
                                  mode: OnwardCallsMode, maximumOnwardCalls: int)
    requires forall t :: 0 <= t < |trips| ==> trips[t].tripId != status.activeTripId
    ensures OnwardCalls(trips, monitoredTripId, status, mode, maximumOnwardCalls) == []
  {
  }

  /**
   * Onward calls are numbered 0, 1, 2, ... in stop order, and each is the
   * call of a stop ahead of the vehicle on the selected trip t: the active
   * trip k for vehicle monitoring, the first trip from k on with the
   * monitored trip id for stop monitoring.
   */
  lemma OnwardCallsFromSelectedTrip(trips: seq<BlockTrip>, monitoredTripId: string, status: TripStatus,
                                    mode: OnwardCallsMode, maximumOnwardCalls: int, k: nat, t: nat)
    requires FirstTripWithId(trips, status.activeTripId, 0) == Some(k)
    requires SelectedTrip(trips, k, mode, monitoredTripId) == Some(t)
    ensures forall i :: 0 <= i < |OnwardCalls(trips, monitoredTripId, status, mode, maximumOnwardCalls)| ==>
      OnwardCalls(trips, monitoredTripId, status, mode, maximumOnwardCalls)[i].stopsFromCall == i
    ensures CallsFromStops(trips[t], status.activeTripId, VehicleDistanceAlongBlock(trips, k, status),
                           OnwardCalls(trips, monitoredTripId, status, mode, maximumOnwardCalls))
  {
    var calls := OnwardCalls(trips, monitoredTripId, status, mode, maximumOnwardCalls);
    if maximumOnwardCalls != 0 {
      var d := VehicleDistanceAlongBlock(trips, k, status);
      var all := TripCalls(trips[t], status.activeTripId, d, 0, |trips[t].stopTimes|);
      assert calls <= all;
      TripCallsNumbered(trips[t], status.activeTripId, d, 0, |trips[t].stopTimes|);
      TripCallsSound(trips[t], status.activeTripId, d, 0, |trips[t].stopTimes|);
      forall i | 0 <= i < |calls|
        ensures calls[i].stopsFromCall == i && IsCallOfSomeStop(trips[t], status.activeTripId, d, calls[i])
      {
        assert calls[i] == all[i];
      }
    }
  }

  /**
   * When the listed trip is the active one, every onward call lies at or
   * beyond the vehicle and carries a visit number of at least one.
   */
  lemma OnwardCallsAheadOfVehicle(trips: seq<BlockTrip>, monitoredTripId: string, status: TripStatus,
                                  mode: OnwardCallsMode, maximumOnwardCalls: int)
    requires mode == VehicleMonitoring || monitoredTripId == status.activeTripId
    ensures forall i :: 0 <= i < |OnwardCalls(trips, monitoredTripId, status, mode, maximumOnwardCalls)| ==>
      && OnwardCalls(trips, monitoredTripId, status, mode, maximumOnwardCalls)[i].distanceFromCall >= 0.0
      && OnwardCalls(trips, monitoredTripId, status, mode, maximumOnwardCalls)[i].visitNumber >= 1
  {
    var calls := OnwardCalls(trips, monitoredTripId, status, mode, maximumOnwardCalls);
    if FirstTripWithId(trips, status.activeTripId, 0).Some? {
      var k := FirstTripWithId(trips, status.activeTripId, 0).value;
      assert SelectedTrip(trips, k, mode, monitoredTripId) == Some(k);
      OnwardCallsFromSelectedTrip(trips, monitoredTripId, status, mode, maximumOnwardCalls, k, k);
      var d := VehicleDistanceAlongBlock(trips, k, status);
      forall i | 0 <= i < |calls|
        ensures calls[i].distanceFromCall >= 0.0 && calls[i].visitNumber >= 1
      {
        assert IsCallOfSomeStop(trips[k], status.activeTripId, d, calls[i]);
        var j :| 0 <= j < |trips[k].stopTimes| && IsCallOf(trips[k], status.activeTripId, d, calls[i], j);
      }
    }
  }

  /**
   * For vehicle monitoring with a maximum at least the length of the active
   * trip, every stop the vehicle has not passed appears as an onward call.
   */
  lemma OnwardCallsCompleteWithinLimit(trips: seq<BlockTrip>, monitoredTripId: string, status: TripStatus,
                                       maximumOnwardCalls: int, k: nat, j: nat)
    requires FirstTripWithId(trips, status.activeTripId, 0) == Some(k)
    requires maximumOnwardCalls >= |trips[k].stopTimes|
    requires j < |trips[k].stopTimes|
    requires trips[k].stopTimes[j].distanceAlongBlock >= VehicleDistanceAlongBlock(trips, k, status)
    ensures exists i ::
      && 0 <= i < |OnwardCalls(trips, monitoredTripId, status, VehicleMonitoring, maximumOnwardCalls)|
      && IsCallOf(trips[k], status.activeTripId, VehicleDistanceAlongBlock(trips, k, status),
                  OnwardCalls(trips, monitoredTripId, status, VehicleMonitoring, maximumOnwardCalls)[i], j)
  {
    var d := VehicleDistanceAlongBlock(trips, k, status);
    var all := TripCalls(trips[k], status.activeTripId, d, 0, |trips[k].stopTimes|);
    assert OnwardCalls(trips, monitoredTripId, status, VehicleMonitoring, maximumOnwardCalls) == all;
    TripCallsComplete(trips[k], status.activeTripId, d, 0, |trips[k].stopTimes|);
    assert AheadOfVehicle(trips[k], trips[k].stopTimes[j], status.activeTripId, d);
  }

  // ---------------------------------------------------------------------
  // Monitored call
  // ---------------------------------------------------------------------

  /**
   * The search of one trip for the monitored stop over its first n stop
   * times: the call of the first stop ahead of the vehicle with that id,
   * numbered after the calls before it from base on.
   */
  function TripMonitoredCall(trip: BlockTrip, activeTripId: string, vehicleDistance: real,
                             stopId: string, base: int, n: nat): Option<Call>
    requires n <= |trip.stopTimes|
    decreases n
  {
    if n == 0 then None
    else match TripMonitoredCall(trip, activeTripId, vehicleDistance, stopId, base, n - 1)
      case Some(c) => Some(c)
      case None =>
        if AheadOfVehicle(trip, trip.stopTimes[n - 1], activeTripId, vehicleDistance) && trip.stopTimes[n - 1].stopId == stopId
        then Some(CallAt(trip, vehicleDistance, n - 1, base + |TripCalls(trip, activeTripId, vehicleDistance, base, n - 1)|))
        else None
  }

  /** One more step of the search of a trip that has not yet found the monitored stop. */
  lemma TripMonitoredCallStep(trip: BlockTrip, activeTripId: string, vehicleDistance: real,
                              stopId: string, base: int, j: nat)
    requires j < |trip.stopTimes|
    requires TripMonitoredCall(trip, activeTripId, vehicleDistance, stopId, base, j).None?
    ensures TripMonitoredCall(trip, activeTripId, vehicleDistance, stopId, base, j + 1)
         == if AheadOfVehicle(trip, trip.stopTimes[j], activeTripId, vehicleDistance) && trip.stopTimes[j].stopId == stopId
            then Some(CallAt(trip, vehicleDistance, j, base + |TripCalls(trip, activeTripId, vehicleDistance, base, j)|))
            else None
  {
  }

  /** The first stop ahead of the vehicle with the monitored id decides the search of the whole trip. */
  lemma TripMonitoredCallFound(trip: BlockTrip, activeTripId: string, vehicleDistance: real,
                               stopId: string, base: int, j: nat, c: Call)
    requires j < |trip.stopTimes|
    requires TripMonitoredCall(trip, activeTripId, vehicleDistance, stopId, base, j).None?
    requires AheadOfVehicle(trip, trip.stopTimes[j], activeTripId, vehicleDistance) && trip.stopTimes[j].stopId == stopId
    requires c == Call(stopId, VisitNumberAt(trip.stopTimes, j), base + |TripCalls(trip, activeTripId, vehicleDistance, base, j)|,
                       trip.stopTimes[j].distanceAlongBlock - trip.distanceAlongBlock,
                       trip.stopTimes[j].distanceAlongBlock - vehicleDistance)
    ensures TripMonitoredCall(trip, activeTripId, vehicleDistance, stopId, base, |trip.stopTimes|) == Some(c)
  {
    TripMonitoredCallStep(trip, activeTripId, vehicleDistance, stopId, base, j);
    TripMonitoredCallStable(trip, activeTripId, vehicleDistance, stopId, base, j + 1, |trip.stopTimes|);
  }

  /** A stop time behind the vehicle on the active trip neither counts nor ends the search. */
  lemma TripWalkSkip(trip: BlockTrip, activeTripId: string, vehicleDistance: real, stopId: string, base: int, j: nat)
    requires j < |trip.stopTimes|
    requires TripMonitoredCall(trip, activeTripId, vehicleDistance, stopId, base, j).None?
    requires !AheadOfVehicle(trip, trip.stopTimes[j], activeTripId, vehicleDistance)
    ensures TripCalls(trip, activeTripId, vehicleDistance, base, j + 1) == TripCalls(trip, activeTripId, vehicleDistance, base, j)
    ensures TripMonitoredCall(trip, activeTripId, vehicleDistance, stopId, base, j + 1).None?
  {
    TripMonitoredCallStep(trip, activeTripId, vehicleDistance, stopId, base, j);
  }

  /** A stop time ahead of the vehicle with another id counts one more stop and does not end the search. */
  lemma TripWalkPass(trip: BlockTrip, activeTripId: string, vehicleDistance: real, stopId: string, base: int, j: nat)
    requires j < |trip.stopTimes|
    requires TripMonitoredCall(trip, activeTripId, vehicleDistance, stopId, base, j).None?
    requires AheadOfVehicle(trip, trip.stopTimes[j], activeTripId, vehicleDistance)
    requires trip.stopTimes[j].stopId != stopId
    ensures |TripCalls(trip, activeTripId, vehicleDistance, base, j + 1)| == |TripCalls(trip, activeTripId, vehicleDistance, base, j)| + 1
    ensures TripMonitoredCall(trip, activeTripId, vehicleDistance, stopId, base, j + 1).None?
  {
    TripMonitoredCallStep(trip, activeTripId, vehicleDistance, stopId, base, j);
  }

  /** Once found, the monitored call of a trip stays found as the walk goes on. */
  lemma {:induction false} TripMonitoredCallStable(trip: BlockTrip, activeTripId: string, vehicleDistance: real,
                                                   stopId: string, base: int, n: nat, m: nat)
    requires n <= m <= |trip.stopTimes|
    requires TripMonitoredCall(trip, activeTripId, vehicleDistance, stopId, base, n).Some?
    ensures TripMonitoredCall(trip, activeTripId, vehicleDistance, stopId, base, m)
         == TripMonitoredCall(trip, activeTripId, vehicleDistance, stopId, base, n)
    decreases m - n
  {
    if n < m {
      TripMonitoredCallStable(trip, activeTripId, vehicleDistance, stopId, base, n, m - 1);
    }
  }

  /** No stop time of the trip ahead of the vehicle has the stop id. */
  predicate NoStopAheadWithId(trip: BlockTrip, activeTripId: string, vehicleDistance: real, stopId: string, n: nat)
    requires n <= |trip.stopTimes|
  {
    forall j :: 0 <= j < n && AheadOfVehicle(trip, trip.stopTimes[j], activeTripId, vehicleDistance) ==>
      trip.stopTimes[j].stopId != stopId
  }

  /**
   * The monitored call of a trip is the call of the first stop ahead of the
   * vehicle with the monitored id, numbered base plus the count of stops
   * ahead of the vehicle before it; there is none exactly when no such stop
   * exists.
   */
  lemma {:induction false} TripMonitoredCallExact(trip: BlockTrip, activeTripId: string, vehicleDistance: real,
                                                  stopId: string, base: int, n: nat)
    requires n <= |trip.stopTimes|
    ensures TripMonitoredCall(trip, activeTripId, vehicleDistance, stopId, base, n).Some? ==>
      exists j ::
        && 0 <= j < n && trip.stopTimes[j].stopId == stopId
        && IsCallOf(trip, activeTripId, vehicleDistance, TripMonitoredCall(trip, activeTripId, vehicleDistance, stopId, base, n).value, j)
        && NoStopAheadWithId(trip, activeTripId, vehicleDistance, stopId, j)
        && TripMonitoredCall(trip, activeTripId, vehicleDistance, stopId, base, n).value.stopsFromCall
           == base + StopsAhead(trip, activeTripId, vehicleDistance, j)
    ensures TripMonitoredCall(trip, activeTripId, vehicleDistance, stopId, base, n).None?
        <==> NoStopAheadWithId(trip, activeTripId, vehicleDistance, stopId, n)
    decreases n
  {
    if n > 0 {
      TripMonitoredCallExact(trip, activeTripId, vehicleDistance, stopId, base, n - 1);
      var c := TripMonitoredCall(trip, activeTripId, vehicleDistance, stopId, base, n);
      if TripMonitoredCall(trip, activeTripId, vehicleDistance, stopId, base, n - 1).None? && c.Some? {
        TripCallsCount(trip, activeTripId, vehicleDistance, base, n - 1);
        assert IsCallOf(trip, activeTripId, vehicleDistance, c.value, n - 1);
      }
    }
  }

  /**
   * The walk for the monitored call from trip t on: the monitored call of
   * the first trip that has one, numbering calls across trips from base.
   */
  function FindMonitoredCall(trips: seq<BlockTrip>, t: nat, activeTripId: string, vehicleDistance: real,
                             stopId: string, base: int): Option<Call>
    requires t <= |trips|
    decreases |trips| - t
  {
    if t == |trips| then None
    else
      var n := |trips[t].stopTimes|;
      match TripMonitoredCall(trips[t], activeTripId, vehicleDistance, stopId, base, n)
      case Some(c) => Some(c)
      case None =>
        FindMonitoredCall(trips, t + 1, activeTripId, vehicleDistance, stopId,
                          base + |TripCalls(trips[t], activeTripId, vehicleDistance, base, n)|)
  }

  /** The monitored call of a vehicle, or none (no active trip, on detour, or the stop is not ahead). */
  function MonitoredCall(trips: seq<BlockTrip>, status: TripStatus, monitoredStopId: string, onDetour: bool): Option<Call>
  {
    match FirstTripWithId(trips, status.activeTripId, 0)
    case None => None
    case Some(k) =>
      if onDetour then None
      else FindMonitoredCall(trips, k, status.activeTripId, VehicleDistanceAlongBlock(trips, k, status), monitoredStopId, 0)
  }

  /**
   * The walk of fillMonitoredCall: skip the finished trips, then count the
   * stops ahead of the vehicle, across trips, until the monitored stop is
   * reached.
   */
  method FillMonitoredCall(trips: seq<BlockTrip>, status: TripStatus, monitoredStopId: string, onDetour: bool)
    returns (call: Option<Call>)
    ensures call == MonitoredCall(trips, status, monitoredStopId, onDetour)
  {
    call := None;
    var distanceOfVehicleAlongBlock := 0.0;
    var blockTripStopsAfterTheVehicle := 0;
    var foundActiveTrip := false;
    ghost var k: nat := 0;
    var i := 0;
    while i < |trips|
      invariant 0 <= i <= |trips|
      invariant call == None
      invariant !foundActiveTrip ==> blockTripStopsAfterTheVehicle == 0
      invariant !foundActiveTrip ==> FirstTripWithId(trips, status.activeTripId, 0) == FirstTripWithId(trips, status.activeTripId, i)
      invariant !foundActiveTrip && i < |trips| ==>
        distanceOfVehicleAlongBlock == if i == 0 then 0.0 else trips[i].distanceAlongBlock
      invariant foundActiveTrip ==>
        && k < i
        && FirstTripWithId(trips, status.activeTripId, 0) == Some(k)
        && distanceOfVehicleAlongBlock == VehicleDistanceAlongBlock(trips, k, status)
        && FindMonitoredCall(trips, k, status.activeTripId, distanceOfVehicleAlongBlock, monitoredStopId, 0)
           == FindMonitoredCall(trips, i, status.activeTripId, distanceOfVehicleAlongBlock, monitoredStopId, blockTripStopsAfterTheVehicle)
    {
      var blockTrip := trips[i];
      if !foundActiveTrip {
        if status.activeTripId == blockTrip.tripId {
          distanceOfVehicleAlongBlock := distanceOfVehicleAlongBlock + status.distanceAlongTrip;
          foundActiveTrip := true;
          k := i;
        } else {
          if i + 1 < |trips| {
            distanceOfVehicleAlongBlock := trips[i + 1].distanceAlongBlock;
          }
          i := i + 1;
          continue;
        }
      }
      var found;
      found, call, blockTripStopsAfterTheVehicle :=
        FindTripMonitoredCall(blockTrip, status.activeTripId, distanceOfVehicleAlongBlock, monitoredStopId,
                              blockTripStopsAfterTheVehicle, onDetour);
      if found {
        return;
      }
      i := i + 1;
    }
  }

  /**
   * The stop-time loop of fillMonitoredCall over one trip: the call at the
   * monitored stop (kept only when not on a detour), or, when the trip does
   * not reach it, the count of stops ahead of the vehicle so far.
   */
  method FindTripMonitoredCall(blockTrip: BlockTrip, activeTripId: string, distanceOfVehicleAlongBlock: real,
                               monitoredStopId: string, stopsSoFar: int, onDetour: bool)
    returns (found: bool, call: Option<Call>, blockTripStopsAfterTheVehicle: int)
    ensures found == TripMonitoredCall(blockTrip, activeTripId, distanceOfVehicleAlongBlock, monitoredStopId, stopsSoFar, |blockTrip.stopTimes|).Some?
    ensures onDetour ==> call == None
    ensures !onDetour ==>
      call == TripMonitoredCall(blockTrip, activeTripId, distanceOfVehicleAlongBlock, monitoredStopId, stopsSoFar, |blockTrip.stopTimes|)
    ensures !found ==>
      blockTripStopsAfterTheVehicle == stopsSoFar + |TripCalls(blockTrip, activeTripId, distanceOfVehicleAlongBlock, stopsSoFar, |blockTrip.stopTimes|)|
  {
    found, call := false, None;
    blockTripStopsAfterTheVehicle := stopsSoFar;
    var visits := new VisitNumbers();
    var j := 0;
    while j < |blockTrip.stopTimes|
      invariant 0 <= j <= |blockTrip.stopTimes|
      invariant visits.Valid() && visits.seen == StopIds(blockTrip.stopTimes[..j])
      invariant blockTripStopsAfterTheVehicle == stopsSoFar + |TripCalls(blockTrip, activeTripId, distanceOfVehicleAlongBlock, stopsSoFar, j)|
      invariant TripMonitoredCall(blockTrip, activeTripId, distanceOfVehicleAlongBlock, monitoredStopId, stopsSoFar, j) == None
    {
      var stopTime := blockTrip.stopTimes[j];
      var visitNumber := VisitStopTime(visits, blockTrip.stopTimes, j);
      if activeTripId == blockTrip.tripId {
        if stopTime.distanceAlongBlock >= distanceOfVehicleAlongBlock {
          blockTripStopsAfterTheVehicle := blockTripStopsAfterTheVehicle + 1;
        } else {
          TripWalkSkip(blockTrip, activeTripId, distanceOfVehicleAlongBlock, monitoredStopId, stopsSoFar, j);
          j := j + 1;
          continue;
        }
      } else {
        blockTripStopsAfterTheVehicle := blockTripStopsAfterTheVehicle + 1;
      }
      if stopTime.stopId == monitoredStopId {
        var c := Call(stopTime.stopId, visitNumber, blockTripStopsAfterTheVehicle - 1,
                      stopTime.distanceAlongBlock - blockTrip.distanceAlongBlock,
                      stopTime.distanceAlongBlock - distanceOfVehicleAlongBlock);
        TripMonitoredCallFound(blockTrip, activeTripId, distanceOfVehicleAlongBlock, monitoredStopId, stopsSoFar, j, c);
        found := true;
        if !onDetour {
          call := Some(c);
        }
        return;
      }
      TripWalkPass(blockTrip, activeTripId, distanceOfVehicleAlongBlock, monitoredStopId, stopsSoFar, j);
      j := j + 1;
    }
  }

  /** Every trip from t up to u lacks a stop ahead of the vehicle with the monitored id. */
  predicate NoMonitoredStopBetween(trips: seq<BlockTrip>, t: nat, u: nat, activeTripId: string, vehicleDistance: real, stopId: string)
    requires t <= u <= |trips|
  {
    forall x :: t <= x < u ==> NoStopAheadWithId(trips[x], activeTripId, vehicleDistance, stopId, |trips[x].stopTimes|)
  }

  /** Every trip from t on lacks a stop ahead of the vehicle with the monitored id. */
  predicate NoMonitoredStopFrom(trips: seq<BlockTrip>, t: nat, activeTripId: string, vehicleDistance: real, stopId: string)
    requires t <= |trips|
  {
    NoMonitoredStopBetween(trips, t, |trips|, activeTripId, vehicleDistance, stopId)
  }

  /** How many stop times of the trips from t up to u lie ahead of the vehicle. */
  function StopsAheadOfTrips(trips: seq<BlockTrip>, t: nat, u: nat, activeTripId: string, vehicleDistance: real): nat
    requires t <= u <= |trips|
    decreases u - t
  {
    if t == u then 0
    else StopsAhead(trips[t], activeTripId, vehicleDistance, |trips[t].stopTimes|)
         + StopsAheadOfTrips(trips, t + 1, u, activeTripId, vehicleDistance)
  }

  /**
   * The monitored call, when there is one, is the call of the first stop,
   * in block order from trip t on, that lies ahead of the vehicle and has
   * the monitored id: on trip u, no earlier trip from t has such a stop, it
   * is the first such stop of trip u, and it is numbered base plus the
   * stops ahead of the vehicle before it. There is none exactly when no
   * such stop exists.
   */
  lemma {:induction false} FindMonitoredCallExact(trips: seq<BlockTrip>, t: nat, activeTripId: string, vehicleDistance: real,
                                                  stopId: string, base: int)
    requires t <= |trips|
    ensures FindMonitoredCall(trips, t, activeTripId, vehicleDistance, stopId, base).Some? ==>
      exists u, j ::
        && t <= u < |trips| && 0 <= j < |trips[u].stopTimes| && trips[u].stopTimes[j].stopId == stopId
        && IsCallOf(trips[u], activeTripId, vehicleDistance, FindMonitoredCall(trips, t, activeTripId, vehicleDistance, stopId, base).value, j)
        && NoMonitoredStopBetween(trips, t, u, activeTripId, vehicleDistance, stopId)
        && NoStopAheadWithId(trips[u], activeTripId, vehicleDistance, stopId, j)
        && FindMonitoredCall(trips, t, activeTripId, vehicleDistance, stopId, base).value.stopsFromCall
           == base + StopsAheadOfTrips(trips, t, u, activeTripId, vehicleDistance) + StopsAhead(trips[u], activeTripId, vehicleDistance, j)
    ensures FindMonitoredCall(trips, t, activeTripId, vehicleDistance, stopId, base).None?
        <==> NoMonitoredStopFrom(trips, t, activeTripId, vehicleDistance, stopId)
    decreases |trips| - t
  {
    if t < |trips| {
      var n := |trips[t].stopTimes|;
      var base' := base + |TripCalls(trips[t], activeTripId, vehicleDistance, base, n)|;
      var c := FindMonitoredCall(trips, t, activeTripId, vehicleDistance, stopId, base);
      TripMonitoredCallExact(trips[t], activeTripId, vehicleDistance, stopId, base, n);
      if TripMonitoredCall(trips[t], activeTripId, vehicleDistance, stopId, base, n).Some? {
        var j :| && 0 <= j < n && trips[t].stopTimes[j].stopId == stopId
                 && IsCallOf(trips[t], activeTripId, vehicleDistance, c.value, j)
                 && NoStopAheadWithId(trips[t], activeTripId, vehicleDistance, stopId, j)
                 && c.value.stopsFromCall == base + StopsAhead(trips[t], activeTripId, vehicleDistance, j);
        assert NoMonitoredStopBetween(trips, t, t, activeTripId, vehicleDistance, stopId);
      } else {
        TripCallsCount(trips[t], activeTripId, vehicleDistance, base, n);
        FindMonitoredCallExact(trips, t + 1, activeTripId, vehicleDistance, stopId, base');
        if c.Some? {
          var u, j :| && t + 1 <= u < |trips| && 0 <= j < |trips[u].stopTimes| && trips[u].stopTimes[j].stopId == stopId
                      && IsCallOf(trips[u], activeTripId, vehicleDistance, c.value, j)
                      && NoMonitoredStopBetween(trips, t + 1, u, activeTripId, vehicleDistance, stopId)
                      && NoStopAheadWithId(trips[u], activeTripId, vehicleDistance, stopId, j)
                      && c.value.stopsFromCall
                         == base' + StopsAheadOfTrips(trips, t + 1, u, activeTripId, vehicleDistance)
                            + StopsAhead(trips[u], activeTripId, vehicleDistance, j);
          assert NoMonitoredStopBetween(trips, t, u, activeTripId, vehicleDistance, stopId);
        }
      }
    }
  }

  /**
   * The monitored call is the call of a stop with the monitored id, so its
   * visit number is at least one; there is none on a detour or without an
   * active trip.
   */
  lemma MonitoredCallAtMonitoredStop(trips: seq<BlockTrip>, status: TripStatus, monitoredStopId: string, onDetour: bool)
    ensures MonitoredCall(trips, status, monitoredStopId, onDetour).Some? ==>
      && MonitoredCall(trips, status, monitoredStopId, onDetour).value.stopId == monitoredStopId
      && MonitoredCall(trips, status, monitoredStopId, onDetour).value.visitNumber >= 1
    ensures onDetour || FirstTripWithId(trips, status.activeTripId, 0).None? ==> MonitoredCall(trips, status, monitoredStopId, onDetour).None?
  {
    var k := FirstTripWithId(trips, status.activeTripId, 0);
    if k.Some? && !onDetour {
      var d := VehicleDistanceAlongBlock(trips, k.value, status);
      FindMonitoredCallExact(trips, k.value, status.activeTripId, d, monitoredStopId, 0);
      var c := MonitoredCall(trips, status, monitoredStopId, onDetour);
      if c.Some? {
        var u, j :| k.value <= u < |trips| && 0 <= j < |trips[u].stopTimes| && trips[u].stopTimes[j].stopId == monitoredStopId
          && IsCallOf(trips[u], status.activeTripId, d, c.value, j);
      }
    }
  }

  /**
   * Off a detour, with active trip k, the monitored call is the call of the
   * first stop in block order from trip k on that lies ahead of the vehicle
   * and has the monitored id, and its stopsFromCall is the number of stops
   * ahead of the vehicle before it; it is missing exactly when no trip from
   * k on has such a stop.
   */
  lemma MonitoredCallIsFirstAhead(trips: seq<BlockTrip>, status: TripStatus, monitoredStopId: string, k: nat)
    requires FirstTripWithId(trips, status.activeTripId, 0) == Some(k)
    ensures MonitoredCall(trips, status, monitoredStopId, false).Some? ==>
      exists u, j ::
        && k <= u < |trips| && 0 <= j < |trips[u].stopTimes| && trips[u].stopTimes[j].stopId == monitoredStopId
        && IsCallOf(trips[u], status.activeTripId, VehicleDistanceAlongBlock(trips, k, status),
                    MonitoredCall(trips, status, monitoredStopId, false).value, j)
        && NoMonitoredStopBetween(trips, k, u, status.activeTripId, VehicleDistanceAlongBlock(trips, k, status), monitoredStopId)
        && NoStopAheadWithId(trips[u], status.activeTripId, VehicleDistanceAlongBlock(trips, k, status), monitoredStopId, j)
        && MonitoredCall(trips, status, monitoredStopId, false).value.stopsFromCall
           == StopsAheadOfTrips(trips, k, u, status.activeTripId, VehicleDistanceAlongBlock(trips, k, status))
              + StopsAhead(trips[u], status.activeTripId, VehicleDistanceAlongBlock(trips, k, status), j)
    ensures MonitoredCall(trips, status, monitoredStopId, false).None?
        <==> NoMonitoredStopFrom(trips, k, status.activeTripId, VehicleDistanceAlongBlock(trips, k, status), monitoredStopId)
  {
    FindMonitoredCallExact(trips, k, status.activeTripId, VehicleDistanceAlongBlock(trips, k, status), monitoredStopId, 0);
  }

  // ---------------------------------------------------------------------
  // Annotated stop point
  // ---------------------------------------------------------------------

  /** The keys of the request filter map. */
  datatype Filter = DirectionRef | LineRef | UseLineRef | UpcomingScheduledService | DetailLevelFilter

  /** How much of a response is filled in: the detail levels the SIRI helpers compare against. */
  datatype DetailLevel = Basic | Normal | Calls | Stops | Full

  datatype RouteDirection = RouteDirection(routeId: string, directionId: string)

  datatype StopBean = StopBean(id: string, name: string, lat: real, lon: real)

  /** A stop together with the route directions that serve it. */
  datatype StopRouteDirection = StopRouteDirection(stop: StopBean, routeDirections: seq<RouteDirection>)

  datatype LineDirection = LineDirection(lineRef: string, directionRef: string)

  datatype Location = Location(longitude: real, latitude: real)

  /** The value a filter map holds for a key; an absent key reads as null. */
  function FilterValue(filters: map<Filter, string>, key: Filter): (v: Option<string>)
    ensures v.Some? <==> key in filters
    ensures v.Some? ==> v.value == filters[key]
  {
    if key in filters then Some(filters[key]) else None
  }

  /** One line-direction entry per route direction, in order. */
  function LinesOf(routeDirections: seq<RouteDirection>): (lines: seq<LineDirection>)
    ensures |lines| == |routeDirections|
    ensures forall i :: 0 <= i < |lines| ==>
      lines[i] == LineDirection(routeDirections[i].routeId, routeDirections[i].directionId)
  {
    seq(|routeDirections|, i requires 0 <= i < |routeDirections| =>
      LineDirection(routeDirections[i].routeId, routeDirections[i].directionId))
  }

  /** Some route serving the stop passes the line-reference filter. */
  predicate HasValidRoute(routeDirections: seq<RouteDirection>, lineRefFilter: Option<string>)
  {
    exists i :: 0 <= i < |routeDirections| && PassFilter(routeDirections[i].routeId, lineRefFilter)
  }

  /** The detail levels at which a stop point carries its location, lines and monitored flag. */
  predicate ShowsLocationAndLines(detailLevel: DetailLevel)
  {
    detailLevel == Basic || detailLevel == Normal || detailLevel == Calls
  }

  /** The stop point being filled in; every part starts out unset. */
  class AnnotatedStopPoint {
    var stopNames: seq<string>
    var location: Option<Location>
    var lines: Option<seq<LineDirection>>
    var monitored: Option<bool>
    var stopPointRef: Option<string>

    constructor ()
      ensures stopNames == [] && location == None && lines == None && monitored == None && stopPointRef == None
    {
      stopNames := [];
      location := None;
      lines := None;
      monitored := None;
      stopPointRef := None;
    }
  }

  /**
   * Fill a stop point from a stop and its route directions. The stop point
   * is valid, and filled in, exactly when some route passes the
   * line-reference filter; otherwise it is left as it was.
   */
  method FillAnnotatedStopPointStructure(annotatedStopPoint: AnnotatedStopPoint, stopRouteDirection: StopRouteDirection,
                                         filters: map<Filter, string>, detailLevel: DetailLevel)
    returns (valid: bool)
    modifies annotatedStopPoint
    ensures valid <==> HasValidRoute(stopRouteDirection.routeDirections, FilterValue(filters, LineRef))
    ensures !valid ==> unchanged(annotatedStopPoint)
    ensures valid ==>
      && annotatedStopPoint.stopNames == old(annotatedStopPoint.stopNames) + [stopRouteDirection.stop.name]
      && annotatedStopPoint.stopPointRef == Some(stopRouteDirection.stop.id)
    ensures valid && ShowsLocationAndLines(detailLevel) ==>
      && annotatedStopPoint.location == Some(Location(stopRouteDirection.stop.lon, stopRouteDirection.stop.lat))
      && annotatedStopPoint.lines == Some(LinesOf(stopRouteDirection.routeDirections))
      && annotatedStopPoint.monitored == Some(true)
    ensures valid && !ShowsLocationAndLines(detailLevel) ==>
      && annotatedStopPoint.location == old(annotatedStopPoint.location)
      && annotatedStopPoint.lines == old(annotatedStopPoint.lines)
      && annotatedStopPoint.monitored == old(annotatedStopPoint.monitored)
  {
    var stopBean := stopRouteDirection.stop;
    var stopName := stopBean.name;
    var lines, hasValidRoute := ScanRouteDirections(stopRouteDirection.routeDirections, FilterValue(filters, LineRef));
    if !hasValidRoute || |lines| == 0 {
      return false;
    }
    var location := Location(stopBean.lon, stopBean.lat);
    annotatedStopPoint.stopNames := annotatedStopPoint.stopNames + [stopName];
    if detailLevel == Basic || detailLevel == Normal || detailLevel == Calls {
      annotatedStopPoint.location := Some(location);
      annotatedStopPoint.lines := Some(lines);
      annotatedStopPoint.monitored := Some(true);
    }
    annotatedStopPoint.stopPointRef := Some(stopBean.id);
    return true;
  }

  /**
   * The route-direction loop of fillAnnotatedStopPointStructure: the line
   * of every route direction, in order, and whether any route passes the
   * line-reference filter.
   */
  method ScanRouteDirections(routeDirections: seq<RouteDirection>, lineRefFilter: Option<string>)
    returns (lines: seq<LineDirection>, hasValidRoute: bool)
    ensures lines == LinesOf(routeDirections)
    ensures hasValidRoute <==> HasValidRoute(routeDirections, lineRefFilter)
  {
    hasValidRoute := false;
    lines := [];
    var i := 0;
    while i < |routeDirections|
      invariant 0 <= i <= |routeDirections|
      invariant |lines| == i
      invariant forall k :: 0 <= k < i ==> lines[k] == LineDirection(routeDirections[k].routeId, routeDirections[k].directionId)
      invariant hasValidRoute <==> exists k :: 0 <= k < i && PassFilter(routeDirections[k].routeId, lineRefFilter)
    {
      var routeDirection := routeDirections[i];
      lines := lines + [LineDirection(routeDirection.routeId, routeDirection.directionId)];
      if !hasValidRoute && PassFilter(routeDirection.routeId, lineRefFilter) {
        hasValidRoute := true;
      }
      i := i + 1;
    }
  }

  /**
   * A valid route implies at least one route direction, so the emptiness
   * test on the lines never decides the outcome on its own.
   */
  lemma ValidRouteHasLines(routeDirections: seq<RouteDirection>, lineRefFilter: Option<string>)
    requires HasValidRoute(routeDirections, lineRefFilter)
    ensures |LinesOf(routeDirections)| > 0
  {
  }

  /** Without a usable line-reference filter, a stop point is valid exactly when some route serves the stop. */
  lemma UnfilteredStopPointValidIffServed(routeDirections: seq<RouteDirection>, filters: map<Filter, string>)
    requires LineRef !in filters || IsBlank(filters[LineRef])
    ensures HasValidRoute(routeDirections, FilterValue(filters, LineRef)) <==> |routeDirections| > 0
  {
    if |routeDirections| > 0 {
      assert PassFilter(routeDirections[0].routeId, FilterValue(filters, LineRef));
    }
  }

  /**
   * With a line-reference filter, a stop point is valid exactly when one of
   * its routes spells the trimmed filter in some letter case.
   */
  lemma FilteredStopPointValidIffRouteMatches(routeDirections: seq<RouteDirection>, filters: map<Filter, string>)
    requires LineRef in filters && !IsBlank(filters[LineRef])
    ensures HasValidRoute(routeDirections, FilterValue(filters, LineRef))
        <==> exists i :: 0 <= i < |routeDirections| && ToLower(routeDirections[i].routeId) == ToLower(Trim(filters[LineRef]))
  {
  }
}
