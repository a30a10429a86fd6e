/** The timing routines as loops over arrays, and the refinement that compares
    one resolution with the next (src/InfiniteJerkTrajectoryTime.cpp 184-328). */
module TrajectoryLoops {

  import opened Text
  import opened Arithmetic
  import opened TrajectoryTime
  import opened TrajectoryPasses

  // ----- the loops of solveResolution

  method LayStations(path: Path, n: nat, maximum: nat) returns (r: Result<Stations, Error>)
    requires n > 0
    ensures r == AddPieces(path, 0, n, maximum, NO_STATIONS)
  {
    hide AddStation;
    var caps: seq<real> := [];
    var intervals: seq<Interval> := [];
    ghost var all := AddPieces(path, 0, n, maximum, NO_STATIONS);
    var p := 0;
    while p < |path.pieces|
      invariant p <= |path.pieces| && Shaped(Stations(caps, intervals))
      invariant all == AddPieces(path, p, n, maximum, Stations(caps, intervals))
    {
      if n > maximum - |intervals| {
        return Err(IntervalBoundExceeded);
      }
      ghost var before := Stations(caps, intervals);
      ghost var piece := AddPiece(path, p, 0, n, before);
      var subdivision := 0;
      while subdivision <= n
        invariant 0 <= subdivision <= n + 1
        invariant piece == AddPiece(path, p, subdivision, n, Stations(caps, intervals))
      {
        var next := NextStation(path, p, subdivision, n, Stations(caps, intervals));
        if next.Err? {
          return Err(next.error);
        }
        caps, intervals := next.value.caps, next.value.intervals;
        subdivision := subdivision + 1;
      }
      assert piece == Ok(Stations(caps, intervals));
      p := p + 1;
    }
    return Ok(Stations(caps, intervals));
  }

  method NextStation(path: Path, p: nat, s: nat, n: nat, st: Stations) returns (r: Result<Stations, Error>)
    requires p < |path.pieces| && n > 0
    ensures r == AddStation(path, p, s, n, st)
  {
    hide SquaredLimit, Distance;
    var distance := Distance(path.pieces[p], s, n);
    var cap := VelocitySquaredLimit(path, p, distance);
    if cap.Err? {
      return Err(cap.error);
    }
    var caps, intervals := st.caps, st.intervals;
    if s == 0 && caps != [] {
      caps := caps[|caps| - 1 := Min(caps[|caps| - 1], cap.value)];
    } else {
      caps := caps + [cap.value];
    }
    if s < n {
      intervals := intervals + [Interval(p, distance, path.pieces[p].length / n as real)];
    }
    return Ok(Stations(caps, intervals));
  }

  method ForwardPass(path: Path, st: Stations, start: real) returns (error: Option<Error>, forward: array<real>)
    requires |st.caps| == |st.intervals| + 1
    ensures fresh(forward) && forward.Length == |st.caps|
    ensures ForwardTo(path, st, start, |st.intervals|)
         == if error.Some? then Err(error.value) else Ok(forward[..])
  {
    hide Propagate, Min;
    error := None;
    forward := new real[|st.caps|](_ => 0.0);
    forward[0] := start;
    var index := 0;
    assert forward[..1] == [start];
    while index < |st.intervals|
      invariant 0 <= index <= |st.intervals|
      invariant ForwardTo(path, st, start, index) == Ok(forward[..index + 1])
    {
      var propagated := Propagate(path, st.intervals[index], forward[index], true);
      if propagated.None? {
        error := Some(EnvelopeEmpty(index));
        assert ForwardTo(path, st, start, index + 1) == Err(EnvelopeEmpty(index));
        FailureStays(path, st, start, index + 1, |st.intervals|);
        return;
      }
      forward[index + 1] := Min(st.caps[index + 1], propagated.value);
      index := index + 1;
      assert forward[..index + 1] == forward[..index] + [forward[index]];
    }
    assert forward[..index + 1] == forward[..];
  }

  lemma {:induction false} FailureStays(path: Path, st: Stations, start: real, i: nat, j: nat)
    requires |st.caps| == |st.intervals| + 1 && i <= j <= |st.intervals|
    requires ForwardTo(path, st, start, i).Err?
    ensures ForwardTo(path, st, start, j) == ForwardTo(path, st, start, i)
    decreases j
  {
    if i < j { FailureStays(path, st, start, i, j - 1); }
  }

  method BackwardPass(path: Path, st: Stations, forward: array<real>, end: real)
    returns (error: Option<Error>, profile: array<real>)
    requires |st.caps| == |st.intervals| + 1 == forward.Length
    ensures fresh(profile) && profile.Length == |st.caps|
    ensures ProfileFrom(path, st, forward[..], end, 0)
         == if error.Some? then Err(error.value) else Ok(profile[..])
  {
    hide Propagate, Min;
    error := None;
    profile := new real[|st.caps|](_ => 0.0);
    profile[|st.intervals|] := end;
    var index := |st.intervals|;
    assert profile[index..] == [end];
    while index > 0
      invariant 0 <= index <= |st.intervals|
      invariant ProfileFrom(path, st, forward[..], end, index) == Ok(profile[index..])
    {
      index := index - 1;
      var propagated := Propagate(path, st.intervals[index], profile[index + 1], false);
      if propagated.None? {
        error := Some(EnvelopeEmpty(index));
        assert ProfileFrom(path, st, forward[..], end, index) == Err(EnvelopeEmpty(index));
        BrakingFailureStays(path, st, forward[..], end, index, 0);
        return;
      }
      profile[index] := Min(Min(st.caps[index], forward[index]), propagated.value);
      assert profile[index..] == [profile[index]] + profile[index + 1..];
    }
    assert profile[0..] == profile[..];
  }

  lemma {:induction false} BrakingFailureStays(path: Path, st: Stations, f: seq<real>, end: real, i: nat, j: nat)
    requires |st.caps| == |st.intervals| + 1 == |f| && j <= i <= |st.intervals|
    requires ProfileFrom(path, st, f, end, i).Err?
    ensures ProfileFrom(path, st, f, end, j) == ProfileFrom(path, st, f, end, i)
    decreases i - j
  {
    if j < i { BrakingFailureStays(path, st, f, end, i, j + 1); }
  }

  method MeasureTime(path: Path, st: Stations, profile: seq<real>) returns (r: Result<Timing, Error>)
    requires |st.intervals| < |profile|
    ensures r == TimeTo(path, st, profile, |st.intervals|)
  {
    hide IntervalTime, Velocity, Max;
    var duration, maximumVelocity := 0.0, 0.0;
    var index := 0;
    while index < |st.intervals|
      invariant 0 <= index <= |st.intervals|
      invariant TimeTo(path, st, profile, index) == Ok(Timing(duration, maximumVelocity))
    {
      var fromVelocity := Velocity(path, profile[index]);
      var toVelocity := Velocity(path, profile[index + 1]);
      if fromVelocity + toVelocity <= STATIONARY {
        assert TimeTo(path, st, profile, index + 1) == Err(Stationary(index));
        StandstillStays(path, st, profile, index + 1, |st.intervals|);
        return Err(Stationary(index));
      }
      duration := duration + IntervalTime(st.intervals[index].length, fromVelocity + toVelocity);
      maximumVelocity := Max(Max(maximumVelocity, fromVelocity), toVelocity);
      index := index + 1;
    }
    return Ok(Timing(duration, maximumVelocity));
  }

  lemma {:induction false} StandstillStays(path: Path, st: Stations, profile: seq<real>, i: nat, j: nat)
    requires i <= j <= |st.intervals| < |profile| && TimeTo(path, st, profile, i).Err?
    ensures TimeTo(path, st, profile, j) == TimeTo(path, st, profile, i)
    decreases j
  {
    if i < j { StandstillStays(path, st, profile, i, j - 1); }
  }

  method SolveResolution(path: Path, start: real, end: real, n: nat, maximum: nat)
    returns (r: Result<Resolution, Error>)
    requires n > 0 && path.pieces != []
    ensures r == Solve(path, start, end, n, maximum)
  {
    hide AddPieces, ForwardTo, ProfileFrom, TimeTo;
    var laid := LayStations(path, n, maximum);
    if laid.Err? {
      return Err(laid.error);
    }
    var st := laid.value;
    if start > st.caps[0] * SLACK || end > st.caps[|st.caps| - 1] * SLACK {
      return Err(BoundaryVelocityTooHigh);
    }
    var error, forward := ForwardPass(path, st, start);
    if error.Some? {
      return Err(error.value);
    }
    var profile;
    error, profile := BackwardPass(path, st, forward, end);
    if error.Some? {
      return Err(error.value);
    }
    var time := MeasureTime(path, st, profile[..]);
    if time.Err? {
      return Err(time.error);
    }
    return Ok(Resolution(time.value.duration, time.value.maximumVelocity, |st.intervals|));
  }

  // ----- refinement

  datatype Options = Options(
    initialSubdivisions: nat, maximumRefinements: nat, maximumIntervals: nat,
    relativeTolerance: real, absoluteTolerance: real)

  datatype Outcome = Outcome(
    duration: real, estimatedDurationError: real, maximumVelocity: real, intervals: nat, refinements: nat)

  datatype Failure = InvalidInput | SubdivisionOverflow | NoFeasibleEnvelope | NotConverged(last: Resolution)

  const SIZE_DIGITS := 64

  function Subdivisions(o: Options, k: nat): nat { o.initialSubdivisions * Pow2(k) }

  predicate Overflows(o: Options, k: nat) {
    k >= SIZE_DIGITS || o.initialSubdivisions > o.maximumIntervals / Pow2(k)
  }

  predicate ValidOptions(o: Options) {
    && o.initialSubdivisions > 0 && o.maximumRefinements > 0 && o.maximumIntervals > 0
    && o.relativeTolerance > 0.0 && o.absoluteTolerance > 0.0
  }

  lemma SubdivisionsArePositive(o: Options, k: nat)
    requires o.initialSubdivisions > 0
    ensures Subdivisions(o, k) > 0
  {}

  function Resolved(path: Path, start: real, end: real, o: Options, k: nat): Result<Resolution, Error>
    requires o.initialSubdivisions > 0 && path.pieces != []
  {
    SubdivisionsArePositive(o, k);
    Solve(path, start, end, Subdivisions(o, k), o.maximumIntervals)
  }

  function Allowed(o: Options, duration: real): real { o.absoluteTolerance + o.relativeTolerance * duration }

  predicate Agree(o: Options, previous: Resolution, current: Resolution) {
    Abs(current.duration - previous.duration) <= Allowed(o, current.duration)
  }

  /** Refinement from `k` on, with the last resolution that succeeded. */
  function RefineFrom(path: Path, start: real, end: real, o: Options, k: nat, previous: Option<Resolution>)
    : Result<Outcome, Failure>
    requires o.initialSubdivisions > 0 && path.pieces != []
    decreases o.maximumRefinements + 1 - k
  {
    if k > o.maximumRefinements then Err(if previous.None? then NoFeasibleEnvelope else NotConverged(previous.value))
    else if Overflows(o, k) then Err(SubdivisionOverflow)
    else
      match Resolved(path, start, end, o, k)
      case Err(_) => RefineFrom(path, start, end, o, k + 1, previous)
      case Ok(r) =>
        if previous.Some? && Agree(o, previous.value, r) then
          Ok(Outcome(r.duration, Abs(r.duration - previous.value.duration), r.maximumVelocity, r.intervals, k))
        else RefineFrom(path, start, end, o, k + 1, Some(r))
  }

  /** Refinements `j` and `k` succeeded, none between did, and they agree. */
  ghost predicate ConvergedAt(path: Path, start: real, end: real, o: Options, j: nat, k: nat)
    requires o.initialSubdivisions > 0 && path.pieces != []
  {
    && j < k <= o.maximumRefinements
    && Resolved(path, start, end, o, j).Ok? && Resolved(path, start, end, o, k).Ok?
    && (forall m | j < m < k :: Resolved(path, start, end, o, m).Err?)
    && Agree(o, Resolved(path, start, end, o, j).value, Resolved(path, start, end, o, k).value)
  }

  lemma {:induction false} RefinementConverges(
    path: Path, start: real, end: real, o: Options, k: nat, previous: Option<Resolution>, j: nat) returns (i: nat)
    requires o.initialSubdivisions > 0 && path.pieces != []
    requires RefineFrom(path, start, end, o, k, previous).Ok?
    requires previous.Some? ==>
               j < k && Resolved(path, start, end, o, j) == Ok(previous.value)
               && forall m | j < m < k :: Resolved(path, start, end, o, m).Err?
    ensures var r := RefineFrom(path, start, end, o, k, previous).value;
            && ConvergedAt(path, start, end, o, i, r.refinements)
            && var (a, b) := (Resolved(path, start, end, o, i).value, Resolved(path, start, end, o, r.refinements).value);
               r == Outcome(b.duration, Abs(b.duration - a.duration), b.maximumVelocity, b.intervals, r.refinements)
    decreases o.maximumRefinements + 1 - k
  {
    hide Solve, Resolved, Agree, Overflows;
    var current := Resolved(path, start, end, o, k);
    if current.Err? {
      i := RefinementConverges(path, start, end, o, k + 1, previous, j);
    } else if previous.Some? && Agree(o, previous.value, current.value) {
      i := j;
    } else {
      i := RefinementConverges(path, start, end, o, k + 1, Some(current.value), k);
    }
  }

  predicate ValidInput(path: Path, startVelocity: real, endVelocity: real, o: Options) {
    && path.pieces != [] && startVelocity >= 0.0 && endVelocity >= 0.0 && ValidOptions(o)
    && forall p | 0 <= p < |path.pieces| :: path.pieces[p].length > 0.0 && path.pieces[p].velocityLimit > 0.0
  }

  function TimeOf(path: Path, startVelocity: real, endVelocity: real, o: Options): Result<Outcome, Failure> {
    if !ValidInput(path, startVelocity, endVelocity, o) then Err(InvalidInput)
    else RefineFrom(path, Squared(startVelocity), Squared(endVelocity), o, 0, None)
  }

  lemma SquareIsNonNegative(v: real)
    requires v >= 0.0
    ensures Squared(v) >= 0.0
  {
    if v > 0.0 { SquareIsPositive(v); }
  }

  /** Whatever is returned comes from two successive successful refinements that
      agree within tolerance; its intervals stay within the bound and its
      duration times maximum velocity covers the path. */
  lemma ResultConverged(path: Path, startVelocity: real, endVelocity: real, o: Options)
    returns (j: nat)
    requires SquareRoot(path) && TimeOf(path, startVelocity, endVelocity, o).Ok?
    ensures o.initialSubdivisions > 0 && path.pieces != []
    ensures var r := TimeOf(path, startVelocity, endVelocity, o).value;
            && ConvergedAt(path, Squared(startVelocity), Squared(endVelocity), o, j, r.refinements)
            && r.estimatedDurationError <= Allowed(o, r.duration)
            && r.intervals == Times(|path.pieces|, Subdivisions(o, r.refinements)) <= o.maximumIntervals
            && Product(r.duration, r.maximumVelocity) >= PathLength(path.pieces, |path.pieces|)
  {
    hide Solve, Squared, Product, Allowed, Subdivisions, Pow2, Times, RefineFrom, SquareRoot;
    var start, end := Squared(startVelocity), Squared(endVelocity);
    j := RefinementConverges(path, start, end, o, 0, None, 0);
    SquareIsNonNegative(startVelocity);
    SquareIsNonNegative(endVelocity);
    var k := TimeOf(path, startVelocity, endVelocity, o).value.refinements;
    SubdivisionsArePositive(o, k);
    ResolutionCoversPath(path, start, end, Subdivisions(o, k), o.maximumIntervals);
  }

  method CheckInput(path: Path, startVelocity: real, endVelocity: real, o: Options) returns (valid: bool)
    ensures valid == ValidInput(path, startVelocity, endVelocity, o)
  {
    if path.pieces == [] || startVelocity < 0.0 || endVelocity < 0.0 || !ValidOptions(o) {
      return false;
    }
    for p := 0 to |path.pieces|
      invariant forall q | 0 <= q < p :: path.pieces[q].length > 0.0 && path.pieces[q].velocityLimit > 0.0
    {
      if path.pieces[p].length <= 0.0 || path.pieces[p].velocityLimit <= 0.0 {
        return false;
      }
    }
    return true;
  }

  /** The refinement loop: a failed resolution is skipped, a successful one is
      compared with the last successful one. */
  method RefineUntilConverged(path: Path, start: real, end: real, o: Options) returns (r: Result<Outcome, Failure>)
    requires o.initialSubdivisions > 0 && path.pieces != []
    ensures r == RefineFrom(path, start, end, o, 0, None)
  {
    hide Solve, Agree, Overflows, Subdivisions, Abs;
    var previous: Option<Resolution> := None;
    var refinement := 0;
    while refinement <= o.maximumRefinements
      invariant refinement <= o.maximumRefinements + 1
      invariant RefineFrom(path, start, end, o, 0, None) == RefineFrom(path, start, end, o, refinement, previous)
    {
      if Overflows(o, refinement) {
        return Err(SubdivisionOverflow);
      }
      SubdivisionsArePositive(o, refinement);
      var current := SolveResolution(path, start, end, Subdivisions(o, refinement), o.maximumIntervals);
      assert current == Resolved(path, start, end, o, refinement);
      if current.Ok? {
        if previous.Some? && Agree(o, previous.value, current.value) {
          return Ok(Outcome(current.value.duration, Abs(current.value.duration - previous.value.duration),
                            current.value.maximumVelocity, current.value.intervals, refinement));
        }
        previous := Some(current.value);
      }
      refinement := refinement + 1;
    }
    return Err(if previous.None? then NoFeasibleEnvelope else NotConverged(previous.value));
  }

  method InfiniteJerkTrajectoryTime(path: Path, startVelocity: real, endVelocity: real, o: Options)
    returns (r: Result<Outcome, Failure>)
    ensures r == TimeOf(path, startVelocity, endVelocity, o)
  {
    var valid := CheckInput(path, startVelocity, endVelocity, o);
    if !valid {
      return Err(InvalidInput);
    }
    r := RefineUntilConverged(path, Squared(startVelocity), Squared(endVelocity), o);
  }
}
