/** Infinite-jerk timing of a fixed path: velocity caps by bisection, stations,
    forward and backward velocity passes, and the refinement loop, over reals
    (src/InfiniteJerkTrajectoryTime.cpp 100-134 and 147-328). */
module TrajectoryTime {

  import opened Text
  import opened Arithmetic

  datatype Piece = Piece(length: real, velocityLimit: real)

  /** One integration step: the part of a piece from `start`, `length` long. */
  datatype Interval = Interval(piece: nat, start: real, length: real)

  datatype Error =
    | GeometryNotFinite
    | NoVelocityLimit
    | NoFeasibleState
    | IntervalBoundExceeded
    | BoundaryVelocityTooHigh
    | EnvelopeEmpty(interval: nat)
    | Stationary(interval: nat)

  /** The geometry and limits: the velocity limit at a distance (unit tangent
      and axis limits applied), whether some acceleration is feasible at a
      squared velocity, the squared velocity's rate of change along an interval
      (by fraction, accelerating or braking), and the square root. */
  datatype Path = Path(
    pieces: seq<Piece>,
    velocityLimit: (nat, real) -> Option<real>,
    feasible: (nat, real, real) -> bool,
    derivative: (Interval, bool, real, real) -> Option<real>,
    root: real -> real)

  function NonNegative(a: real): real { Max(0.0, a) }

  function Squared(a: real): real { Product(a, a) }

  // ----- velocitySquaredLimit

  function Half(n: nat, r: real): real { if n == 0 then r else Half(n - 1, r) / 2.0 }

  /** The fixed number of bisection steps. */
  function Iterations(): nat { 48 }

  datatype Bounds = Bounds(lower: real, higher: real)

  function Bisect(path: Path, p: nat, distance: real, b: Bounds, left: nat): Bounds
    decreases left
  {
    if left == 0 then b
    else
      var middle := (b.lower + b.higher) / 2.0;
      Bisect(path, p, distance, if path.feasible(p, distance, middle) then b.(lower := middle) else b.(higher := middle),
             left - 1)
  }

  /** The largest squared velocity found feasible at a distance on a piece. */
  function SquaredLimit(path: Path, p: nat, distance: real): Result<real, Error> {
    var limit := path.velocityLimit(p, distance);
    if limit.None? then Err(GeometryNotFinite)
    else if limit.value <= 0.0 then Err(NoVelocityLimit)
    else
      var upper := Squared(limit.value);
      if path.feasible(p, distance, upper) then Ok(upper)
      else if !path.feasible(p, distance, 0.0) then Err(NoFeasibleState)
      else Ok(Bisect(path, p, distance, Bounds(0.0, upper), Iterations()).lower)
  }

  /** Bisection keeps a feasible lower and an infeasible upper bound and halves
      the gap each time. */
  lemma {:induction false} BisectKeepsBounds(path: Path, p: nat, distance: real, b: Bounds, left: nat)
    requires 0.0 <= b.lower < b.higher
    requires path.feasible(p, distance, b.lower) && !path.feasible(p, distance, b.higher)
    ensures var r := Bisect(path, p, distance, b, left);
            && b.lower <= r.lower < r.higher <= b.higher
            && path.feasible(p, distance, r.lower) && !path.feasible(p, distance, r.higher)
            && r.higher - r.lower == Half(left, b.higher - b.lower)
    decreases left
  {
    if left > 0 {
      var middle := (b.lower + b.higher) / 2.0;
      var next := if path.feasible(p, distance, middle) then b.(lower := middle) else b.(higher := middle);
      BisectKeepsBounds(path, p, distance, next, left - 1);
      HalfOfHalf(left - 1, b.higher - b.lower);
    }
  }

  lemma {:induction false} HalfOfHalf(n: nat, r: real)
    ensures Half(n, r / 2.0) == Half(n + 1, r)
    decreases n
  {
    if n > 0 { HalfOfHalf(n - 1, r); }
  }

  /** A cap is feasible and non-negative; when the direct limit is infeasible,
      an infeasible velocity lies above the cap by the limit over 2^48. */
  lemma SquaredLimitIsTight(path: Path, p: nat, distance: real)
    requires SquaredLimit(path, p, distance).Ok?
    ensures var cap := SquaredLimit(path, p, distance).value;
            var upper := Squared(path.velocityLimit(p, distance).value);
            && 0.0 <= cap <= upper && path.feasible(p, distance, cap)
            && (cap < upper ==> !path.feasible(p, distance, cap + Half(Iterations(), upper)))
  {
    hide Squared, Bisect, Half, Iterations;
    var upper := Squared(path.velocityLimit(p, distance).value);
    SquareIsPositive(path.velocityLimit(p, distance).value);
    if !path.feasible(p, distance, upper) {
      BisectKeepsBounds(path, p, distance, Bounds(0.0, upper), Iterations());
      var r := Bisect(path, p, distance, Bounds(0.0, upper), Iterations());
      assert r.higher == r.lower + Half(Iterations(), upper);
    }
  }

  /** Where feasibility is downward closed no feasible velocity up to the limit
      exceeds the cap by the limit over 2^48. */
  lemma NothingFeasibleIsMissed(path: Path, p: nat, distance: real, v: real)
    requires SquaredLimit(path, p, distance).Ok? && DownwardClosed(path, p, distance)
    requires v <= Squared(path.velocityLimit(p, distance).value) && path.feasible(p, distance, v)
    ensures var cap := SquaredLimit(path, p, distance).value;
            v <= cap || v < cap + Half(Iterations(), Squared(path.velocityLimit(p, distance).value))
  {
    hide Bisect, Squared, Half, Iterations;
    SquaredLimitIsTight(path, p, distance);
    var cap := SquaredLimit(path, p, distance).value;
    var missed := cap + Half(Iterations(), Squared(path.velocityLimit(p, distance).value));
    if cap < v && missed <= v {
      HalfIsNonNegative(Iterations(), Squared(path.velocityLimit(p, distance).value));
      assert path.feasible(p, distance, missed);
    }
  }

  lemma {:induction false} HalfIsNonNegative(n: nat, r: real)
    requires r >= 0.0
    ensures Half(n, r) >= 0.0
    decreases n
  {
    if n > 0 { HalfIsNonNegative(n - 1, r); }
  }

  lemma SquareIsPositive(r: real)
    requires r > 0.0
    ensures Squared(r) > 0.0
  {
    hide Product;
    ProductIsPositive(r, r);
  }

  ghost predicate DownwardClosed(path: Path, p: nat, distance: real) {
    forall a, b | 0.0 <= a <= b && path.feasible(p, distance, b) :: path.feasible(p, distance, a)
  }

  /** The bisection loop. */
  method VelocitySquaredLimit(path: Path, p: nat, distance: real) returns (r: Result<real, Error>)
    ensures r == SquaredLimit(path, p, distance)
  {
    hide Squared;
    var limit := path.velocityLimit(p, distance);
    if limit.None? {
      return Err(GeometryNotFinite);
    }
    if limit.value <= 0.0 {
      return Err(NoVelocityLimit);
    }
    var upper := Squared(limit.value);
    if path.feasible(p, distance, upper) {
      return Ok(upper);
    }
    if !path.feasible(p, distance, 0.0) {
      return Err(NoFeasibleState);
    }
    var lower, higher := 0.0, upper;
    var iteration := 0;
    while iteration < Iterations()
      invariant 0 <= iteration <= Iterations()
      invariant Bisect(path, p, distance, Bounds(0.0, upper), Iterations())
             == Bisect(path, p, distance, Bounds(lower, higher), Iterations() - iteration)
    {
      var middle := (lower + higher) / 2.0;
      if path.feasible(p, distance, middle) {
        lower := middle;
      } else {
        higher := middle;
      }
      iteration := iteration + 1;
    }
    return Ok(lower);
  }

  // ----- integrateEnvelope

  function Weighted(step: real, k1: real, k2: real, k3: real, k4: real): real {
    (Product(step, k1) + 2.0 * Product(step, k2) + 2.0 * Product(step, k3) + Product(step, k4)) / 6.0
  }

  /** One fourth-order step of the squared velocity across an interval. */
  function Propagate(path: Path, i: Interval, v: real, forward: bool): Option<real> {
    var step := if forward then i.length else -i.length;
    var begin := if forward then 0.0 else 1.0;
    var k1 := path.derivative(i, forward, begin, NonNegative(v));
    if k1.None? then None
    else
      var k2 := path.derivative(i, forward, 0.5, NonNegative(v + Product(step, k1.value) / 2.0));
      if k2.None? then None
      else
        var k3 := path.derivative(i, forward, 0.5, NonNegative(v + Product(step, k2.value) / 2.0));
        if k3.None? then None
        else
          var k4 := path.derivative(i, forward, 1.0 - begin, NonNegative(v + Product(step, k3.value)));
          if k4.None? then None
          else
            Some(NonNegative(v + Weighted(step, k1.value, k2.value, k3.value, k4.value)))
  }

  lemma PropagateIsNonNegative(path: Path, i: Interval, v: real, forward: bool)
    ensures Propagate(path, i, v, forward).Some? ==> Propagate(path, i, v, forward).value >= 0.0
  {}

  // ----- stations

  datatype Stations = Stations(caps: seq<real>, intervals: seq<Interval>)

  const NO_STATIONS := Stations([], [])

  function Distance(piece: Piece, s: nat, n: nat): real
    requires n > 0
  {
    piece.length * s as real / n as real
  }

  /** The cap of a piece's first station joins the last of the piece before; the
      initial infinite cap stands here as no cap at all. */
  function AddCap(caps: seq<real>, s: nat, cap: real): seq<real> {
    if s > 0 || caps == [] then caps + [cap] else caps[|caps| - 1 := Min(caps[|caps| - 1], cap)]
  }

  function AddStation(path: Path, p: nat, s: nat, n: nat, st: Stations): Result<Stations, Error>
    requires p < |path.pieces| && n > 0
  {
    var distance := Distance(path.pieces[p], s, n);
    match SquaredLimit(path, p, distance)
    case Err(e) => Err(e)
    case Ok(cap) =>
      Ok(Stations(AddCap(st.caps, s, cap),
                  if s < n then st.intervals + [Interval(p, distance, path.pieces[p].length / n as real)]
                  else st.intervals))
  }

  /** The stations of one piece from subdivision `s` on. */
  function AddPiece(path: Path, p: nat, s: nat, n: nat, st: Stations): (r: Result<Stations, Error>)
    requires p < |path.pieces| && n > 0 && s <= n + 1
    ensures r.Ok? && s <= n ==> |r.value.intervals| == |st.intervals| + n - s
    ensures r.Ok? ==> |r.value.caps| == |st.caps| + (n + 1 - s) - (if s == 0 && st.caps != [] then 1 else 0)
    decreases n + 1 - s
  {
    if s == n + 1 then Ok(st)
    else
      match AddStation(path, p, s, n, st)
      case Err(e) => Err(e)
      case Ok(next) => AddPiece(path, p, s + 1, n, next)
  }

  /** One more station than intervals, once there are any. */
  predicate Shaped(st: Stations) { |st.caps| == if st.intervals == [] then 0 else |st.intervals| + 1 }

  function AddPieces(path: Path, p: nat, n: nat, maximum: nat, st: Stations): (r: Result<Stations, Error>)
    requires p <= |path.pieces| && n > 0 && Shaped(st)
    ensures r.Ok? ==> Shaped(r.value) && (p < |path.pieces| || st.intervals != [] ==> r.value.intervals != [])
    decreases |path.pieces| - p
  {
    if p == |path.pieces| then Ok(st)
    else if n > maximum - |st.intervals| then Err(IntervalBoundExceeded)
    else
      match AddPiece(path, p, 0, n, st)
      case Err(e) => Err(e)
      case Ok(next) => AddPieces(path, p + 1, n, maximum, next)
  }

  function Length(intervals: seq<Interval>): real
    decreases |intervals|
  {
    if intervals == [] then 0.0 else Length(intervals[..|intervals| - 1]) + intervals[|intervals| - 1].length
  }

  /** The length of the first `p` pieces. */
  function PathLength(pieces: seq<Piece>, p: nat): real
    requires p <= |pieces|
  {
    if p == 0 then 0.0 else PathLength(pieces, p - 1) + pieces[p - 1].length
  }

  ghost predicate PositivePieces(path: Path) {
    forall p | 0 <= p < |path.pieces| :: path.pieces[p].length > 0.0
  }

  ghost predicate NonNegativeCaps(caps: seq<real>) { forall i | 0 <= i < |caps| :: caps[i] >= 0.0 }

  ghost predicate PositiveLengths(intervals: seq<Interval>) {
    forall i | 0 <= i < |intervals| :: intervals[i].length > 0.0
  }

  /** Stations are one more than intervals, caps are non-negative, lengths positive. */
  ghost predicate Laid(st: Stations) {
    NonNegativeCaps(st.caps) && PositiveLengths(st.intervals) && Shaped(st)
  }

  /** What a piece's first `s` stations have added to `before`. */
  ghost predicate PartlyLaid(path: Path, p: nat, s: nat, n: nat, st: Stations, before: Stations)
    requires p < |path.pieces| && n > 0
  {
    var parts := if s <= n then s else n;
    && NonNegativeCaps(st.caps) && PositiveLengths(st.intervals)
    && |st.intervals| == |before.intervals| + parts
    && |st.caps| == (if s == 0 then |before.caps| else |before.intervals| + s)
    && Length(st.intervals) == Length(before.intervals) + Parts(parts, path.pieces[p].length / n as real)
  }

  function Parts(n: nat, d: real): real { n as real * d }

  lemma AddCapLays(caps: seq<real>, s: nat, cap: real)
    requires NonNegativeCaps(caps) && cap >= 0.0
    ensures NonNegativeCaps(AddCap(caps, s, cap))
    ensures |AddCap(caps, s, cap)| == |caps| + (if s > 0 || caps == [] then 1 else 0)
  {}

  lemma AddIntervalLays(intervals: seq<Interval>, i: Interval)
    requires PositiveLengths(intervals) && i.length > 0.0
    ensures PositiveLengths(intervals + [i]) && Length(intervals + [i]) == Length(intervals) + i.length
  {
    assert (intervals + [i])[..|intervals|] == intervals;
  }

  lemma StationIsLaid(path: Path, p: nat, s: nat, n: nat, st: Stations, before: Stations)
    requires p < |path.pieces| && n > 0 && s <= n && PositivePieces(path) && Laid(before)
    requires PartlyLaid(path, p, s, n, st, before) && AddStation(path, p, s, n, st).Ok?
    ensures PartlyLaid(path, p, s + 1, n, AddStation(path, p, s, n, st).value, before)
  {
    var d := path.pieces[p].length / n as real;
    SquaredLimitIsTight(path, p, Distance(path.pieces[p], s, n));
    QuotientIsPositive(path.pieces[p].length, n as real);
    OneMore(s, d);
    hide SquaredLimit, Distance, Parts, AddCap;
    AddCapLays(st.caps, s, SquaredLimit(path, p, Distance(path.pieces[p], s, n)).value);
    if s < n { AddIntervalLays(st.intervals, Interval(p, Distance(path.pieces[p], s, n), d)); }
  }

  lemma {:induction false} PieceIsLaid(path: Path, p: nat, s: nat, n: nat, st: Stations, before: Stations)
    requires p < |path.pieces| && n > 0 && s <= n + 1 && PositivePieces(path) && Laid(before)
    requires PartlyLaid(path, p, s, n, st, before) && AddPiece(path, p, s, n, st).Ok?
    ensures PartlyLaid(path, p, n + 1, n, AddPiece(path, p, s, n, st).value, before)
    decreases n + 1 - s
  {
    if s <= n {
      hide PartlyLaid, AddStation;
      StationIsLaid(path, p, s, n, st, before);
      PieceIsLaid(path, p, s + 1, n, AddStation(path, p, s, n, st).value, before);
    }
  }

  lemma OneMore(s: nat, d: real)
    ensures Parts(s + 1, d) == Parts(s, d) + d && Parts(0, d) == 0.0
  {}

  lemma WholeOfParts(n: nat, length: real)
    requires n > 0
    ensures Parts(n, length / n as real) == length
  {}

  function Times(p: nat, n: nat): nat { p * n }

  lemma TimesGrows(p: nat, n: nat)
    ensures Times(p + 1, n) == Times(p, n) + n
  {}

  /** What the first `p` pieces have laid. */
  ghost predicate Covers(path: Path, p: nat, n: nat, st: Stations)
    requires p <= |path.pieces|
  {
    Laid(st) && |st.intervals| == Times(p, n) && Length(st.intervals) == PathLength(path.pieces, p)
  }

  lemma PieceExtends(path: Path, p: nat, n: nat, st: Stations)
    requires p < |path.pieces| && n > 0 && PositivePieces(path)
    requires Covers(path, p, n, st) && AddPiece(path, p, 0, n, st).Ok?
    ensures Covers(path, p + 1, n, AddPiece(path, p, 0, n, st).value)
  {
    hide AddPiece, Parts, Times;
    OneMore(0, path.pieces[p].length / n as real);
    PieceIsLaid(path, p, 0, n, st, st);
    WholeOfParts(n, path.pieces[p].length);
    TimesGrows(p, n);
  }

  lemma {:induction false} PiecesAreLaid(path: Path, p: nat, n: nat, maximum: nat, st: Stations)
    requires p <= |path.pieces| && n > 0 && PositivePieces(path)
    requires Covers(path, p, n, st) && |st.intervals| <= maximum
    requires AddPieces(path, p, n, maximum, st).Ok?
    ensures var r := AddPieces(path, p, n, maximum, st).value;
            Covers(path, |path.pieces|, n, r) && |r.intervals| <= maximum
    decreases |path.pieces| - p
  {
    hide AddPiece, PositivePieces;
    if p < |path.pieces| {
      PieceExtends(path, p, n, st);
      TimesGrows(p, n);
      hide Laid, Times, PathLength, Length;
      PiecesAreLaid(path, p + 1, n, maximum, AddPiece(path, p, 0, n, st).value);
    }
  }

  /** Stations number one more than intervals, intervals never exceed the bound,
      and the intervals cover the path exactly. */
  lemma StationsCoverPath(path: Path, n: nat, maximum: nat)
    requires n > 0 && path.pieces != [] && PositivePieces(path)
    requires AddPieces(path, 0, n, maximum, NO_STATIONS).Ok?
    ensures var st := AddPieces(path, 0, n, maximum, NO_STATIONS).value;
            && |st.caps| == |st.intervals| + 1 && |st.intervals| == Times(|path.pieces|, n) <= maximum
            && NonNegativeCaps(st.caps) && PositiveLengths(st.intervals)
            && Length(st.intervals) == PathLength(path.pieces, |path.pieces|)
  {
    PiecesAreLaid(path, 0, n, maximum, NO_STATIONS);
    assert Times(|path.pieces|, n) >= 1;
  }
}
