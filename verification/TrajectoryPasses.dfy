/** The velocity passes over the stations, the time they take, and the
    refinement loop (src/InfiniteJerkTrajectoryTime.cpp 184-328). */
module TrajectoryPasses {

  import opened Text
  import opened Arithmetic
  import opened TrajectoryTime

  // ----- the passes

  /** Stations of a path, ready for the passes. */
  ghost predicate Ready(st: Stations) {
    |st.caps| == |st.intervals| + 1 && NonNegativeCaps(st.caps) && PositiveLengths(st.intervals)
  }

  /** The forward profile up to station `i`: each value the smaller of the cap
      and what can be reached from the value before. */
  function ForwardTo(path: Path, st: Stations, start: real, i: nat): (r: Result<seq<real>, Error>)
    requires |st.caps| == |st.intervals| + 1 && i <= |st.intervals|
    ensures r.Ok? ==> |r.value| == i + 1
  {
    if i == 0 then Ok([start])
    else
      match ForwardTo(path, st, start, i - 1)
      case Err(e) => Err(e)
      case Ok(f) =>
        var reached := Propagate(path, st.intervals[i - 1], f[i - 1], true);
        if reached.None? then Err(EnvelopeEmpty(i - 1)) else Ok(f + [Min(st.caps[i], reached.value)])
  }

  /** The final profile from station `i` on: the smallest of the cap, the
      forward value and what can brake to the value after. */
  function ProfileFrom(path: Path, st: Stations, f: seq<real>, end: real, i: nat): (r: Result<seq<real>, Error>)
    requires |st.caps| == |st.intervals| + 1 == |f| && i <= |st.intervals|
    ensures r.Ok? ==> |r.value| == |st.intervals| - i + 1
    decreases |st.intervals| - i
  {
    if i == |st.intervals| then Ok([end])
    else
      match ProfileFrom(path, st, f, end, i + 1)
      case Err(e) => Err(e)
      case Ok(b) =>
        var reached := Propagate(path, st.intervals[i], b[0], false);
        if reached.None? then Err(EnvelopeEmpty(i))
        else Ok([Min(Min(st.caps[i], f[i]), reached.value)] + b)
  }

  lemma {:induction false} ForwardIsBounded(path: Path, st: Stations, start: real, i: nat)
    requires Ready(st) && i <= |st.intervals| && start >= 0.0 && ForwardTo(path, st, start, i).Ok?
    ensures var f := ForwardTo(path, st, start, i).value;
            && |f| == i + 1 && f[0] == start
            && (forall k | 0 <= k <= i :: f[k] >= 0.0)
            && (forall k | 0 < k <= i :: f[k] <= st.caps[k])
    decreases i
  {
    if i > 0 {
      ForwardIsBounded(path, st, start, i - 1);
      var f := ForwardTo(path, st, start, i - 1).value;
      PropagateIsNonNegative(path, st.intervals[i - 1], f[i - 1], true);
      hide Propagate;
    }
  }

  /** Each profile value but the last lies between 0 and both its cap and the
      forward value; the last is the end value asked for. */
  lemma {:induction false} ProfileIsBounded(path: Path, st: Stations, f: seq<real>, end: real, i: nat)
    requires Ready(st) && |f| == |st.caps| && i <= |st.intervals| && end >= 0.0
    requires (forall k | 0 <= k < |f| :: f[k] >= 0.0) && ProfileFrom(path, st, f, end, i).Ok?
    ensures var b := ProfileFrom(path, st, f, end, i).value;
            && |b| == |st.intervals| - i + 1 && b[|b| - 1] == end
            && (forall k | 0 <= k < |b| :: b[k] >= 0.0)
            && (forall k | 0 <= k < |b| - 1 :: b[k] <= st.caps[i + k] && b[k] <= f[i + k])
    decreases |st.intervals| - i
  {
    if i < |st.intervals| {
      ProfileIsBounded(path, st, f, end, i + 1);
      var b := ProfileFrom(path, st, f, end, i + 1).value;
      PropagateIsNonNegative(path, st.intervals[i], b[0], false);
      hide Propagate;
    }
  }

  // ----- no admissible profile is faster

  /** Over an interval, a higher velocity before gives no lower one after. */
  ghost predicate MonotoneOver(path: Path, i: Interval) {
    forall a, b, forward | a <= b && Propagate(path, i, a, forward).Some? && Propagate(path, i, b, forward).Some? ::
      Propagate(path, i, a, forward).value <= Propagate(path, i, b, forward).value
  }

  ghost predicate Monotone(path: Path, intervals: seq<Interval>) {
    forall k | 0 <= k < |intervals| :: MonotoneOver(path, intervals[k])
  }

  /** Squared velocities that respect the caps and both boundary values and can
      be driven: each value reachable from the one before and able to brake to
      the one after. */
  ghost predicate Admissible(path: Path, st: Stations, start: real, end: real, w: seq<real>)
    requires |st.caps| == |st.intervals| + 1
  {
    && |w| == |st.caps| && w[0] <= start && w[|w| - 1] <= end
    && (forall k | 0 <= k < |w| :: w[k] <= st.caps[k])
    && (forall k | 0 <= k < |st.intervals| :: Driven(path, st.intervals[k], w[k], w[k + 1]))
  }

  ghost predicate Driven(path: Path, i: Interval, before: real, after: real) {
    && Propagate(path, i, before, true).Some? && after <= Propagate(path, i, before, true).value
    && Propagate(path, i, after, false).Some? && before <= Propagate(path, i, after, false).value
  }

  lemma FasterReachesMore(path: Path, i: Interval, a: real, b: real, forward: bool)
    requires MonotoneOver(path, i) && a <= b
    requires Propagate(path, i, a, forward).Some? && Propagate(path, i, b, forward).Some?
    ensures Propagate(path, i, a, forward).value <= Propagate(path, i, b, forward).value
  {
    hide Propagate;
  }

  lemma {:induction false} ForwardDominates(path: Path, st: Stations, start: real, end: real, w: seq<real>, i: nat)
    requires Ready(st) && Monotone(path, st.intervals) && Admissible(path, st, start, end, w) && start >= 0.0
    requires i <= |st.intervals| && ForwardTo(path, st, start, i).Ok?
    ensures |ForwardTo(path, st, start, i).value| == i + 1
    ensures forall k | 0 <= k <= i :: w[k] <= ForwardTo(path, st, start, i).value[k]
    decreases i
  {
    hide Propagate, MonotoneOver;
    ForwardIsBounded(path, st, start, i);
    if i > 0 {
      ForwardDominates(path, st, start, end, w, i - 1);
      assert Driven(path, st.intervals[i - 1], w[i - 1], w[i - 1 + 1]);
      FasterReachesMore(path, st.intervals[i - 1], w[i - 1], ForwardTo(path, st, start, i - 1).value[i - 1], true);
    }
  }

  /** Where propagation is monotone, the profile bounds every admissible one. */
  lemma {:induction false} ProfileDominates(
    path: Path, st: Stations, f: seq<real>, start: real, end: real, w: seq<real>, i: nat)
    requires Ready(st) && Monotone(path, st.intervals) && Admissible(path, st, start, end, w) && end >= 0.0
    requires |f| == |st.caps| && (forall k | 0 <= k < |f| :: f[k] >= 0.0 && w[k] <= f[k])
    requires i <= |st.intervals| && ProfileFrom(path, st, f, end, i).Ok?
    ensures |ProfileFrom(path, st, f, end, i).value| == |st.intervals| - i + 1
    ensures forall k | i <= k < |w| :: w[k] <= ProfileFrom(path, st, f, end, i).value[k - i]
    decreases |st.intervals| - i
  {
    hide Propagate, MonotoneOver;
    ProfileIsBounded(path, st, f, end, i);
    if i < |st.intervals| {
      ProfileDominates(path, st, f, start, end, w, i + 1);
      assert Driven(path, st.intervals[i], w[i], w[i + 1]);
      var b := ProfileFrom(path, st, f, end, i + 1).value;
      assert w[i + 1] <= b[i + 1 - (i + 1)];
      FasterReachesMore(path, st.intervals[i], w[i + 1], b[0], false);
    }
  }

  // ----- the time a profile takes

  datatype Timing = Timing(duration: real, maximumVelocity: real)

  function Velocity(path: Path, squared: real): real { path.root(NonNegative(squared)) }

  function IntervalTime(length: real, sum: real): real
    requires sum > 0.0
  {
    2.0 * length / sum
  }

  const STATIONARY := 0.000000000000001

  function TimeTo(path: Path, st: Stations, profile: seq<real>, i: nat): Result<Timing, Error>
    requires i <= |st.intervals| < |profile|
  {
    if i == 0 then Ok(Timing(0.0, 0.0))
    else
      match TimeTo(path, st, profile, i - 1)
      case Err(e) => Err(e)
      case Ok(t) =>
        var begin, end := Velocity(path, profile[i - 1]), Velocity(path, profile[i]);
        if begin + end <= STATIONARY then Err(Stationary(i - 1))
        else
          Ok(Timing(t.duration + IntervalTime(st.intervals[i - 1].length, begin + end),
                    Max(Max(t.maximumVelocity, begin), end)))
  }

  ghost predicate SquareRoot(path: Path) {
    forall x | x >= 0.0 :: path.root(x) >= 0.0 && Squared(path.root(x)) == x
  }

  lemma TimeTimesVelocity(length: real, sum: real, velocity: real)
    requires length > 0.0 && 0.0 < sum <= 2.0 * velocity
    ensures IntervalTime(length, sum) >= 0.0 && Product(IntervalTime(length, sum), velocity) >= length
  {
    var t := IntervalTime(length, sum);
    QuotientIsPositive(2.0 * length, sum);
    QuotientTimes(2.0 * length, sum);
    ProductGrows(sum, 2.0 * velocity, t);
    ProductCommutes(t, sum);
    ProductAdds(velocity, velocity, t);
    ProductCommutes(t, velocity);
  }

  /** Against any velocity the profile never exceeds, the duration covers the
      length driven so far. */
  lemma {:induction false} DurationCovers(path: Path, st: Stations, profile: seq<real>, i: nat, velocity: real)
    requires Ready(st) && |profile| == |st.caps| && SquareRoot(path)
    requires i <= |st.intervals| && TimeTo(path, st, profile, i).Ok?
    requires TimeTo(path, st, profile, i).value.maximumVelocity <= velocity
    ensures Product(TimeTo(path, st, profile, i).value.duration, velocity) >= Length(st.intervals[..i])
    ensures TimeTo(path, st, profile, i).value.maximumVelocity >= 0.0
    decreases i
  {
    if i == 0 {
      assert st.intervals[..0] == [];
      assert Product(0.0, velocity) == 0.0;
    } else {
      hide Product, IntervalTime;
      var t := TimeTo(path, st, profile, i - 1).value;
      var begin, end := Velocity(path, profile[i - 1]), Velocity(path, profile[i]);
      DurationCovers(path, st, profile, i - 1, velocity);
      TimeTimesVelocity(st.intervals[i - 1].length, begin + end, velocity);
      ProductAdds(t.duration, IntervalTime(st.intervals[i - 1].length, begin + end), velocity);
      assert st.intervals[..i][..i - 1] == st.intervals[..i - 1];
    }
  }

  lemma SquareGrows(a: real, b: real)
    requires 0.0 <= a < b
    ensures Squared(a) < Squared(b)
  {
    ProductIsPositive(b - a, b + a);
    assert (b - a) * (b + a) == b * b - a * a;
  }

  lemma VelocityGrows(path: Path, a: real, b: real)
    requires SquareRoot(path) && a <= b
    ensures 0.0 <= Velocity(path, a) <= Velocity(path, b)
  {
    if Velocity(path, b) < Velocity(path, a) {
      SquareGrows(Velocity(path, b), Velocity(path, a));
    }
  }

  lemma QuotientShrinks(length: real, slow: real, fast: real)
    requires length > 0.0 && 0.0 < slow <= fast
    ensures IntervalTime(length, fast) <= IntervalTime(length, slow)
  {
    var t, u := IntervalTime(length, slow), IntervalTime(length, fast);
    QuotientTimes(2.0 * length, slow);
    QuotientTimes(2.0 * length, fast);
    QuotientIsPositive(2.0 * length, fast);
    if t < u {
      ProductGrows(slow, fast, u);
      ProductCommutes(u, slow);
      ProductCommutes(u, fast);
      ProductIsPositive(u - t, slow);
      ProductAdds(u - t, t, slow);
    }
  }

  /** A profile that is nowhere slower takes no longer. */
  lemma {:induction false} FasterTakesLess(path: Path, st: Stations, slow: seq<real>, fast: seq<real>, i: nat)
    requires Ready(st) && SquareRoot(path) && |slow| == |fast| == |st.caps| && i <= |st.intervals|
    requires forall k | 0 <= k < |slow| :: slow[k] <= fast[k]
    requires TimeTo(path, st, slow, i).Ok?
    ensures TimeTo(path, st, fast, i).Ok?
    ensures TimeTo(path, st, fast, i).value.duration <= TimeTo(path, st, slow, i).value.duration
    decreases i
  {
    if i > 0 {
      hide IntervalTime, Velocity;
      FasterTakesLess(path, st, slow, fast, i - 1);
      VelocityGrows(path, slow[i - 1], fast[i - 1]);
      VelocityGrows(path, slow[i], fast[i]);
      QuotientShrinks(st.intervals[i - 1].length, Velocity(path, slow[i - 1]) + Velocity(path, slow[i]),
                      Velocity(path, fast[i - 1]) + Velocity(path, fast[i]));
    }
  }

  // ----- one resolution

  datatype Resolution = Resolution(duration: real, maximumVelocity: real, intervals: nat)

  const SLACK := 1.000000000001

  function Profile(path: Path, st: Stations, start: real, end: real): (r: Result<seq<real>, Error>)
    requires |st.caps| == |st.intervals| + 1
    ensures r.Ok? ==> |r.value| == |st.caps|
  {
    if start > st.caps[0] * SLACK || end > st.caps[|st.caps| - 1] * SLACK then Err(BoundaryVelocityTooHigh)
    else
      match ForwardTo(path, st, start, |st.intervals|)
      case Err(e) => Err(e)
      case Ok(f) => ProfileFrom(path, st, f, end, 0)
  }

  /** solveResolution: one subdivision of every piece, both passes, the time. */
  function Solve(path: Path, start: real, end: real, n: nat, maximum: nat): Result<Resolution, Error>
    requires n > 0 && path.pieces != []
  {
    match AddPieces(path, 0, n, maximum, NO_STATIONS)
    case Err(e) => Err(e)
    case Ok(st) =>
      match Profile(path, st, start, end)
      case Err(e) => Err(e)
      case Ok(profile) =>
        match TimeTo(path, st, profile, |st.intervals|)
        case Err(e) => Err(e)
        case Ok(t) => Ok(Resolution(t.duration, t.maximumVelocity, |st.intervals|))
  }

  ghost predicate Sensible(path: Path, start: real, end: real) {
    path.pieces != [] && PositivePieces(path) && SquareRoot(path) && start >= 0.0 && end >= 0.0
  }

  /** For every path: intervals number pieces times subdivisions, within the
      bound, and duration times maximum velocity is at least the path length. */
  lemma ResolutionCoversPath(path: Path, start: real, end: real, n: nat, maximum: nat)
    requires n > 0 && Sensible(path, start, end) && Solve(path, start, end, n, maximum).Ok?
    ensures var r := Solve(path, start, end, n, maximum).value;
            && r.intervals == Times(|path.pieces|, n) <= maximum
            && Product(r.duration, r.maximumVelocity) >= PathLength(path.pieces, |path.pieces|)
  {
    StationsCoverPath(path, n, maximum);
    var st := AddPieces(path, 0, n, maximum, NO_STATIONS).value;
    var profile := Profile(path, st, start, end).value;
    var t := TimeTo(path, st, profile, |st.intervals|).value;
    DurationCovers(path, st, profile, |st.intervals|, t.maximumVelocity);
    assert st.intervals[..|st.intervals|] == st.intervals;
  }

  /** Minimum time: where propagation is monotone, no admissible profile over the
      same stations is quicker than the resolution's. */
  lemma ResolutionIsQuickest(path: Path, start: real, end: real, n: nat, maximum: nat, w: seq<real>)
    requires n > 0 && Sensible(path, start, end) && Solve(path, start, end, n, maximum).Ok?
    requires Monotone(path, AddPieces(path, 0, n, maximum, NO_STATIONS).value.intervals)
    requires var st := AddPieces(path, 0, n, maximum, NO_STATIONS).value;
             |st.caps| == |st.intervals| + 1 && Admissible(path, st, start, end, w)
             && TimeTo(path, st, w, |st.intervals|).Ok?
    ensures var st := AddPieces(path, 0, n, maximum, NO_STATIONS).value;
            Solve(path, start, end, n, maximum).value.duration <= TimeTo(path, st, w, |st.intervals|).value.duration
  {
    StationsCoverPath(path, n, maximum);
    var st := AddPieces(path, 0, n, maximum, NO_STATIONS).value;
    var f := ForwardTo(path, st, start, |st.intervals|).value;
    ForwardIsBounded(path, st, start, |st.intervals|);
    ForwardDominates(path, st, start, end, w, |st.intervals|);
    ProfileDominates(path, st, f, start, end, w, 0);
    ProfileIsBounded(path, st, f, end, 0);
    var profile := ProfileFrom(path, st, f, end, 0).value;
    assert forall k | 0 <= k < |w| :: w[k] <= profile[k - 0];
    FasterTakesLess(path, st, w, profile, |st.intervals|);
  }

  // ----- the start velocity

  /** The braking envelope from station `i` on: the fastest one may be at each
      station and still respect the caps and brake to the end velocity. It
      depends on the path, the caps and the end velocity alone. */
  function BrakingFrom(path: Path, st: Stations, end: real, i: nat): (r: Result<seq<real>, Error>)
    requires |st.caps| == |st.intervals| + 1 && i <= |st.intervals|
    ensures r.Ok? ==> |r.value| == |st.intervals| - i + 1
    decreases |st.intervals| - i
  {
    if i == |st.intervals| then Ok([end])
    else
      match BrakingFrom(path, st, end, i + 1)
      case Err(e) => Err(e)
      case Ok(b) =>
        var reached := Propagate(path, st.intervals[i], b[0], false);
        if reached.None? then Err(EnvelopeEmpty(i)) else Ok([Min(st.caps[i], reached.value)] + b)
  }

  /** Braking undoes accelerating: from what full acceleration over an interval
      reaches, full braking over it comes from at least the velocity before. */
  ghost predicate UndoesOver(path: Path, i: Interval) {
    forall v | Propagate(path, i, v, true).Some? ::
      var back := Propagate(path, i, Propagate(path, i, v, true).value, false);
      back.Some? ==> v <= back.value
  }

  ghost predicate BrakingUndoes(path: Path, intervals: seq<Interval>) {
    forall k | 0 <= k < |intervals| :: UndoesOver(path, intervals[k])
  }

  /** No profile is above the braking envelope. */
  lemma {:induction false} ProfileCanBrake(path: Path, st: Stations, f: seq<real>, end: real, i: nat)
    requires |st.caps| == |st.intervals| + 1 == |f| && i <= |st.intervals| && Monotone(path, st.intervals)
    requires ProfileFrom(path, st, f, end, i).Ok? && BrakingFrom(path, st, end, i).Ok?
    ensures forall k | 0 <= k <= |st.intervals| - i ::
              ProfileFrom(path, st, f, end, i).value[k] <= BrakingFrom(path, st, end, i).value[k]
    decreases |st.intervals| - i
  {
    hide Propagate, MonotoneOver;
    if i < |st.intervals| {
      ProfileCanBrake(path, st, f, end, i + 1);
      var p, b := ProfileFrom(path, st, f, end, i + 1).value, BrakingFrom(path, st, end, i + 1).value;
      assert p[0] <= b[0];
      FasterReachesMore(path, st.intervals[i], p[0], b[0], false);
    }
  }

  /** Each forward value is its cap's or the one reached from the value before. */
  lemma {:induction false} ForwardReaches(path: Path, st: Stations, start: real, i: nat, k: nat)
    requires |st.caps| == |st.intervals| + 1 && k < i <= |st.intervals| && ForwardTo(path, st, start, i).Ok?
    ensures var f := ForwardTo(path, st, start, i).value;
            && Propagate(path, st.intervals[k], f[k], true).Some?
            && f[k + 1] == Min(st.caps[k + 1], Propagate(path, st.intervals[k], f[k], true).value)
    decreases i
  {
    hide Propagate;
    if k + 1 < i { ForwardReaches(path, st, start, i - 1, k); }
  }

  /** Where braking also undoes accelerating, the profile is at every station but
      the last the lower of the forward profile and the braking envelope. */
  lemma {:induction false} ProfileIsLowerOfBoth(path: Path, st: Stations, start: real, end: real, i: nat)
    requires |st.caps| == |st.intervals| + 1 && i <= |st.intervals| && Monotone(path, st.intervals) && BrakingUndoes(path, st.intervals)
    requires start <= st.caps[0] && ForwardTo(path, st, start, |st.intervals|).Ok?
    requires var f := ForwardTo(path, st, start, |st.intervals|).value;
             ProfileFrom(path, st, f, end, i).Ok? && BrakingFrom(path, st, end, i).Ok?
    ensures var f := ForwardTo(path, st, start, |st.intervals|).value;
            i < |st.intervals| ==>
              ProfileFrom(path, st, f, end, i).value[0] == Min(f[i], BrakingFrom(path, st, end, i).value[0])
    decreases |st.intervals| - i
  {
    hide Propagate, MonotoneOver, UndoesOver, ForwardTo;
    var n := |st.intervals|;
    if i < n {
      var f := ForwardTo(path, st, start, n).value;
      ForwardStaysUnderCaps(path, st, start, n, i);
      var p, b := ProfileFrom(path, st, f, end, i + 1).value, BrakingFrom(path, st, end, i + 1).value;
      if i + 1 < n {
        ProfileIsLowerOfBoth(path, st, start, end, i + 1);
        ForwardReaches(path, st, start, n, i);
        assert b[0] <= st.caps[i + 1];
        BrakeOfLower(path, st.intervals[i], f[i], b[0], p[0]);
      } else {
        assert p == [end] && b == [end];
      }
    }
  }

  lemma {:induction false} ForwardStaysUnderCaps(path: Path, st: Stations, start: real, i: nat, k: nat)
    requires |st.caps| == |st.intervals| + 1 && k <= i <= |st.intervals|
    requires start <= st.caps[0] && ForwardTo(path, st, start, i).Ok?
    ensures ForwardTo(path, st, start, i).value[k] <= st.caps[k]
    decreases i
  {
    hide Propagate;
    if k < i { ForwardStaysUnderCaps(path, st, start, i - 1, k); }
  }

  /** Braking from the lower of what is reached and a bound: as far as from the
      bound, or at least back to where the acceleration began. */
  lemma BrakeOfLower(path: Path, i: Interval, v: real, bound: real, lower: real)
    requires MonotoneOver(path, i) && UndoesOver(path, i)
    requires Propagate(path, i, v, true).Some? && Propagate(path, i, bound, false).Some?
    requires lower == Min(Propagate(path, i, v, true).value, bound) && Propagate(path, i, lower, false).Some?
    ensures var back := Propagate(path, i, lower, false).value;
            Min(v, back) == Min(v, Propagate(path, i, bound, false).value)
  {
    hide Propagate;
    var u := Propagate(path, i, v, true).value;
    FasterReachesMore(path, i, lower, bound, false);
    if u <= bound { FasterReachesMore(path, i, u, bound, false); }
  }

  /** The end velocity is always met. The start velocity is met only if the
      braking envelope admits it and, where braking undoes accelerating, exactly
      then; otherwise the profile starts slower than asked, without an error. */
  lemma StartVelocityIsMetExactly(path: Path, st: Stations, start: real, end: real)
    requires Ready(st) && st.intervals != [] && start >= 0.0 && end >= 0.0 && Monotone(path, st.intervals)
    requires Profile(path, st, start, end).Ok? && BrakingFrom(path, st, end, 0).Ok?
    ensures var profile := Profile(path, st, start, end).value;
            var admitted := BrakingFrom(path, st, end, 0).value[0];
            && profile[|profile| - 1] == end && profile[0] <= start
            && (profile[0] == start ==> start <= admitted)
            && (BrakingUndoes(path, st.intervals) ==> (profile[0] == start <==> start <= admitted))
  {
    hide Propagate, Monotone, BrakingUndoes;
    var f := ForwardTo(path, st, start, |st.intervals|).value;
    ForwardIsBounded(path, st, start, |st.intervals|);
    ProfileIsBounded(path, st, f, end, 0);
    ProfileCanBrake(path, st, f, end, 0);
    if BrakingUndoes(path, st.intervals) && start <= BrakingFrom(path, st, end, 0).value[0] {
      ProfileIsLowerOfBoth(path, st, start, end, 0);
    }
  }

  // ----- where the hypotheses hold

  /** The rate of change varies with the squared velocity by at most `k`. */
  ghost predicate LipschitzOver(path: Path, i: Interval, k: real) {
    forall forward, at, v, w
      | v >= 0.0 && w >= 0.0 && path.derivative(i, forward, at, v).Some? && path.derivative(i, forward, at, w).Some? ::
      Abs(path.derivative(i, forward, at, v).value - path.derivative(i, forward, at, w).value) <= Product(k, Abs(v - w))
  }

  lemma GapShrinks(length: real, k: real, gap: real, d: real)
    requires length > 0.0 && k >= 0.0 && d >= 0.0 && Product(k, length) <= 0.5 && gap <= Product(k, d)
    ensures Product(length, gap) <= d / 2.0
  {
    hide Product;
    ProductGrows(gap, Product(k, d), length);
    ProductCommutes(gap, length);
    ProductSwaps(k, d, length);
    ProductGrows(Product(k, length), 0.5, d);
    HalfProduct(d);
  }

  lemma ProductSwaps(a: real, b: real, c: real)
    ensures Product(Product(a, b), c) == Product(Product(a, c), b)
  {}

  lemma HalfProduct(d: real)
    ensures Product(0.5, d) == d / 2.0
  {}

  lemma ProductOfGap(length: real, x: real, y: real)
    requires length > 0.0
    ensures Abs(Product(length, x) - Product(length, y)) == Product(length, Abs(x - y))
    ensures Product(-length, x) == -Product(length, x)
  {}

  /** One stage of a step: velocities `d` apart change by amounts at most half that apart. */
  lemma StageIsClose(path: Path, i: Interval, k: real, forward: bool, at: real, x: real, y: real, d: real)
    requires LipschitzOver(path, i, k) && k >= 0.0 && i.length > 0.0 && Product(k, i.length) <= 0.5 && Abs(x - y) <= d
    requires path.derivative(i, forward, at, NonNegative(x)).Some? && path.derivative(i, forward, at, NonNegative(y)).Some?
    ensures var step := if forward then i.length else -i.length;
            Abs(Product(step, path.derivative(i, forward, at, NonNegative(x)).value)
                - Product(step, path.derivative(i, forward, at, NonNegative(y)).value)) <= d / 2.0
  {
    hide Product;
    var kx, ky := path.derivative(i, forward, at, NonNegative(x)).value, path.derivative(i, forward, at, NonNegative(y)).value;
    var apart := Abs(NonNegative(x) - NonNegative(y));
    assert Abs(kx - ky) <= Product(k, apart);
    ProductGrows(apart, d, k);
    ProductCommutes(apart, k);
    ProductCommutes(d, k);
    GapShrinks(i.length, k, Abs(kx - ky), d);
    ProductOfGap(i.length, kx, ky);
    ProductOfGap(i.length, ky, kx);
  }

  /** A step over an interval short against the rate's variation is monotone. */
  lemma ShortIsMonotone(path: Path, i: Interval, k: real)
    requires LipschitzOver(path, i, k) && k >= 0.0 && i.length > 0.0 && Product(k, i.length) <= 0.5
    ensures MonotoneOver(path, i)
  {
    hide LipschitzOver, Product, Abs;
    forall a, b, forward | a <= b && Propagate(path, i, a, forward).Some? && Propagate(path, i, b, forward).Some?
      ensures Propagate(path, i, a, forward).value <= Propagate(path, i, b, forward).value
    {
      ShortStepIsMonotone(path, i, k, a, b, forward);
    }
  }

  lemma ShortStepIsMonotone(path: Path, i: Interval, k: real, a: real, b: real, forward: bool)
    requires LipschitzOver(path, i, k) && k >= 0.0 && i.length > 0.0 && Product(k, i.length) <= 0.5
    requires a <= b && Propagate(path, i, a, forward).Some? && Propagate(path, i, b, forward).Some?
    ensures Propagate(path, i, a, forward).value <= Propagate(path, i, b, forward).value
  {
    hide LipschitzOver, Product;
    var step := if forward then i.length else -i.length;
    var begin := if forward then 0.0 else 1.0;
    var d := b - a;
    var a1 := Product(step, path.derivative(i, forward, begin, NonNegative(a)).value);
    var b1 := Product(step, path.derivative(i, forward, begin, NonNegative(b)).value);
    StageIsClose(path, i, k, forward, begin, a, b, d);
    var a2 := Product(step, path.derivative(i, forward, 0.5, NonNegative(a + a1 / 2.0)).value);
    var b2 := Product(step, path.derivative(i, forward, 0.5, NonNegative(b + b1 / 2.0)).value);
    StageIsClose(path, i, k, forward, 0.5, a + a1 / 2.0, b + b1 / 2.0, 1.25 * d);
    var a3 := Product(step, path.derivative(i, forward, 0.5, NonNegative(a + a2 / 2.0)).value);
    var b3 := Product(step, path.derivative(i, forward, 0.5, NonNegative(b + b2 / 2.0)).value);
    StageIsClose(path, i, k, forward, 0.5, a + a2 / 2.0, b + b2 / 2.0, 1.3125 * d);
    var a4 := Product(step, path.derivative(i, forward, 1.0 - begin, NonNegative(a + a3)).value);
    var b4 := Product(step, path.derivative(i, forward, 1.0 - begin, NonNegative(b + b3)).value);
    StageIsClose(path, i, k, forward, 1.0 - begin, a + a3, b + b3, 1.65625 * d);
    assert a + (a1 + 2.0 * a2 + 2.0 * a3 + a4) / 6.0 <= b + (b1 + 2.0 * b2 + 2.0 * b3 + b4) / 6.0;
  }

  /** Some rate lies between all braking and all accelerating ones. */
  ghost predicate SeparatedOver(path: Path, i: Interval, between: real) {
    && (forall at, v | v >= 0.0 && path.derivative(i, true, at, v).Some? :: between <= path.derivative(i, true, at, v).value)
    && (forall at, v | v >= 0.0 && path.derivative(i, false, at, v).Some? :: path.derivative(i, false, at, v).value <= between)
  }

  /** A step gains at least, and going back loses at most, what the rate between does. */
  lemma StepAgainst(path: Path, i: Interval, between: real, v: real, forward: bool)
    requires SeparatedOver(path, i, between) && i.length > 0.0 && Propagate(path, i, v, forward).Some?
    ensures var change := Product(i.length, between);
            Propagate(path, i, v, forward).value >= if forward then v + change else v - change
  {
    hide Product;
    var step := if forward then i.length else -i.length;
    var begin := if forward then 0.0 else 1.0;
    var k1 := path.derivative(i, forward, begin, NonNegative(v)).value;
    var k2 := path.derivative(i, forward, 0.5, NonNegative(v + Product(step, k1) / 2.0)).value;
    var k3 := path.derivative(i, forward, 0.5, NonNegative(v + Product(step, k2) / 2.0)).value;
    var k4 := path.derivative(i, forward, 1.0 - begin, NonNegative(v + Product(step, k3))).value;
    StageAgainst(i.length, k1, between, forward);
    StageAgainst(i.length, k2, between, forward);
    StageAgainst(i.length, k3, between, forward);
    StageAgainst(i.length, k4, between, forward);
  }

  lemma StageAgainst(length: real, k: real, between: real, forward: bool)
    requires length > 0.0 && if forward then between <= k else k <= between
    ensures Product(if forward then length else -length, k)
            >= if forward then Product(length, between) else -Product(length, between)
  {
    hide Product;
    if forward { ProductGrows(between, k, length); } else { ProductGrows(k, between, length); }
    ProductCommutes(k, length);
    ProductCommutes(between, length);
    ProductOfGap(length, k, k);
  }

  lemma SeparatedUndoes(path: Path, i: Interval, between: real)
    requires SeparatedOver(path, i, between) && i.length > 0.0
    ensures UndoesOver(path, i)
  {
    hide Propagate, SeparatedOver, Product;
    forall v | Propagate(path, i, v, true).Some?
      ensures var back := Propagate(path, i, Propagate(path, i, v, true).value, false);
              back.Some? ==> v <= back.value
    {
      StepAgainst(path, i, between, v, true);
      var u := Propagate(path, i, v, true).value;
      if Propagate(path, i, u, false).Some? { StepAgainst(path, i, between, u, false); }
    }
  }

  /** An interval inside one of the path's pieces. */
  predicate OnPath(path: Path, i: Interval) {
    && i.piece < |path.pieces| && 0.0 <= i.start && i.length > 0.0
    && i.start + i.length <= path.pieces[i.piece].length
  }

  /** Every laid interval is one of `n` equal parts of its piece. */
  ghost predicate EqualParts(path: Path, n: nat, intervals: seq<Interval>)
    requires n > 0
  {
    forall k | 0 <= k < |intervals| ::
      OnPath(path, intervals[k]) && intervals[k].length == path.pieces[intervals[k].piece].length / n as real
  }

  lemma PartIsOnPath(path: Path, p: nat, s: nat, n: nat)
    requires p < |path.pieces| && s < n && path.pieces[p].length > 0.0
    ensures OnPath(path, Interval(p, Distance(path.pieces[p], s, n), path.pieces[p].length / n as real))
  {
    var part := path.pieces[p].length / n as real;
    QuotientIsPositive(path.pieces[p].length, n as real);
    QuotientTimes(path.pieces[p].length, n as real);
    DistanceIsParts(path.pieces[p], s, n);
    hide Distance;
    ProductCommutes(part, n as real);
    ProductGrows((s + 1) as real, n as real, part);
    ProductAdds(s as real, 1.0, part);
    ProductOfOne(part);
    ProductGrows(0.0, s as real, part);
  }

  lemma DistanceIsParts(piece: Piece, s: nat, n: nat)
    requires n > 0
    ensures Distance(piece, s, n) == Product(s as real, piece.length / n as real)
  {}

  lemma StationInParts(path: Path, p: nat, s: nat, n: nat, st: Stations)
    requires p < |path.pieces| && n > 0 && s <= n && PositivePieces(path)
    requires EqualParts(path, n, st.intervals) && AddStation(path, p, s, n, st).Ok?
    ensures EqualParts(path, n, AddStation(path, p, s, n, st).value.intervals)
  {
    if s < n { PartIsOnPath(path, p, s, n); }
    hide SquaredLimit, Distance, AddCap, OnPath;
  }

  lemma {:induction false} PieceInParts(path: Path, p: nat, s: nat, n: nat, st: Stations)
    requires p < |path.pieces| && n > 0 && s <= n + 1 && PositivePieces(path)
    requires EqualParts(path, n, st.intervals) && AddPiece(path, p, s, n, st).Ok?
    ensures EqualParts(path, n, AddPiece(path, p, s, n, st).value.intervals)
    decreases n + 1 - s
  {
    hide AddStation, EqualParts, PositivePieces;
    if s <= n {
      StationInParts(path, p, s, n, st);
      PieceInParts(path, p, s + 1, n, AddStation(path, p, s, n, st).value);
    }
  }

  lemma {:induction false} PiecesInParts(path: Path, p: nat, n: nat, maximum: nat, st: Stations)
    requires p <= |path.pieces| && n > 0 && PositivePieces(path) && Shaped(st)
    requires EqualParts(path, n, st.intervals) && AddPieces(path, p, n, maximum, st).Ok?
    ensures EqualParts(path, n, AddPieces(path, p, n, maximum, st).value.intervals)
    decreases |path.pieces| - p
  {
    hide AddPiece, EqualParts, PositivePieces;
    if p < |path.pieces| {
      PieceInParts(path, p, 0, n, st);
      PiecesInParts(path, p + 1, n, maximum, AddPiece(path, p, 0, n, st).value);
    }
  }

  /** Wherever the rate of change is Lipschitz in the squared velocity, every
      subdivision fine enough against its constant makes propagation monotone. */
  lemma FineSubdivisionIsMonotone(path: Path, k: real, n: nat, maximum: nat)
    requires n > 0 && PositivePieces(path) && AddPieces(path, 0, n, maximum, NO_STATIONS).Ok?
    requires k >= 0.0 && forall i | OnPath(path, i) :: LipschitzOver(path, i, k)
    requires forall p | 0 <= p < |path.pieces| :: Product(k, path.pieces[p].length / n as real) <= 0.5
    ensures Monotone(path, AddPieces(path, 0, n, maximum, NO_STATIONS).value.intervals)
  {
    PiecesInParts(path, 0, n, maximum, NO_STATIONS);
    hide LipschitzOver, Product, AddPieces, MonotoneOver;
    var intervals := AddPieces(path, 0, n, maximum, NO_STATIONS).value.intervals;
    forall j | 0 <= j < |intervals| ensures MonotoneOver(path, intervals[j]) {
      assert OnPath(path, intervals[j]);
      ShortIsMonotone(path, intervals[j], k);
    }
  }

  /** Where some rate separates braking from accelerating on each interval,
      braking undoes accelerating. */
  lemma SeparatedRatesUndo(path: Path, intervals: seq<Interval>, between: Interval -> real)
    requires PositiveLengths(intervals)
    requires forall k | 0 <= k < |intervals| :: SeparatedOver(path, intervals[k], between(intervals[k]))
    ensures BrakingUndoes(path, intervals)
  {
    hide SeparatedOver, UndoesOver;
    forall k | 0 <= k < |intervals| ensures UndoesOver(path, intervals[k]) {
      SeparatedUndoes(path, intervals[k], between(intervals[k]));
    }
  }

  /** Constant rates along each interval, the least no more than the most. */
  ghost predicate ConstantOver(path: Path, i: Interval, least: real, most: real) {
    least <= most && forall forward, at, v :: path.derivative(i, forward, at, v) == Some(if forward then most else least)
  }

  /** Both hypotheses hold for constant rates. */
  lemma ConstantRatesSuffice(path: Path, intervals: seq<Interval>, least: Interval -> real, most: Interval -> real)
    requires PositiveLengths(intervals)
    requires forall k | 0 <= k < |intervals| ::
               ConstantOver(path, intervals[k], least(intervals[k]), most(intervals[k]))
    ensures Monotone(path, intervals) && BrakingUndoes(path, intervals)
  {
    hide MonotoneOver, UndoesOver;
    forall k | 0 <= k < |intervals|
      ensures MonotoneOver(path, intervals[k]) && UndoesOver(path, intervals[k])
    {
      var i := intervals[k];
      assert ConstantOver(path, i, least(i), most(i));
      assert forall d :: Product(0.0, d) == 0.0;
      assert LipschitzOver(path, i, 0.0);
      ShortIsMonotone(path, i, 0.0);
      assert SeparatedOver(path, i, least(i));
      SeparatedUndoes(path, i, least(i));
    }
  }

  /** A piece of length 1 with the cap 400, accelerating or braking by 3. */
  function Straight(root: real -> real): Path {
    Path([Piece(1.0, 20.0)], (p, d) => Some(20.0), (p, d, v) => true,
         (i, forward, at, v) => Some(if forward then 3.0 else -3.0), root)
  }

  function StraightStations(): Stations { Stations([400.0, 400.0], [Interval(0, 0.0, 1.0)]) }

  lemma StraightIsLaid(root: real -> real)
    ensures AddPieces(Straight(root), 0, 1, 10, NO_STATIONS) == Ok(StraightStations())
  {
    var path, st := Straight(root), StraightStations();
    assert SquaredLimit(path, 0, 0.0) == Ok(400.0) && SquaredLimit(path, 0, 1.0) == Ok(400.0);
    hide SquaredLimit;
    var first := Stations([400.0], st.intervals);
    assert Distance(path.pieces[0], 0, 1) == 0.0 && Distance(path.pieces[0], 1, 1) == 1.0;
    hide Distance;
    assert [] + [400.0] == [400.0] && [] + st.intervals == st.intervals && [400.0] + [400.0] == [400.0, 400.0];
    assert AddStation(path, 0, 0, 1, NO_STATIONS) == Ok(first);
    assert AddStation(path, 0, 1, 1, first) == Ok(st);
    hide AddStation;
    assert AddPiece(path, 0, 1, 1, first) == AddPiece(path, 0, 2, 1, st) == Ok(st);
    assert AddPieces(path, 0, 1, 10, NO_STATIONS) == AddPieces(path, 1, 1, 10, st);
  }

  /** A path whose start velocity is not met: asked to start at 10 and end at 1,
      the code answers, without an error, with a profile that starts at 2. */
  lemma StartsSlowerThanAsked(root: real -> real)
    requires root(1.0) == 1.0 && root(4.0) == 2.0
    ensures var path, st := Straight(root), StraightStations();
            && AddPieces(path, 0, 1, 10, NO_STATIONS) == Ok(st)
            && Profile(path, st, 100.0, 1.0) == Ok([4.0, 1.0])
            && Solve(path, 100.0, 1.0, 1, 10) == Ok(Resolution(2.0 / 3.0, 2.0, 1))
  {
    var path, st := Straight(root), StraightStations();
    StraightIsLaid(root);
    hide AddPieces;
    assert Propagate(path, st.intervals[0], 100.0, true) == Some(103.0);
    assert Propagate(path, st.intervals[0], 1.0, false) == Some(4.0);
    hide Propagate;
    assert ForwardTo(path, st, 100.0, 0) == Ok([100.0]);
    assert [100.0] + [103.0] == [100.0, 103.0] && [4.0] + [1.0] == [4.0, 1.0];
    assert ForwardTo(path, st, 100.0, 1) == Ok([100.0, 103.0]);
    assert ProfileFrom(path, st, [100.0, 103.0], 1.0, 1) == Ok([1.0]);
    assert ProfileFrom(path, st, [100.0, 103.0], 1.0, 0) == Ok([4.0, 1.0]);
    assert TimeTo(path, st, [4.0, 1.0], 0) == Ok(Timing(0.0, 0.0));
    assert TimeTo(path, st, [4.0, 1.0], 1) == Ok(Timing(2.0 / 3.0, 2.0));
  }

  /** The path above meets both hypotheses, so the exact condition applies to it:
      the envelope starts at 4, below the 100 asked for. */
  lemma StraightIsCovered(root: real -> real)
    ensures var path, st := Straight(root), StraightStations();
            && Ready(st) && Monotone(path, st.intervals) && BrakingUndoes(path, st.intervals)
            && BrakingFrom(path, st, 1.0, 0) == Ok([4.0, 1.0])
  {
    var path, st := Straight(root), StraightStations();
    ConstantRatesSuffice(path, st.intervals, i => -3.0, i => 3.0);
    assert Propagate(path, st.intervals[0], 1.0, false) == Some(4.0);
    hide Propagate, Monotone, BrakingUndoes;
    assert BrakingFrom(path, st, 1.0, 1) == Ok([1.0]);
    assert [4.0] + [1.0] == [4.0, 1.0];
  }
}
