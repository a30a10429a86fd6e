/** What the numbers of a resolution mean: every cap is a velocity limit of the
    pieces that meet there, every step integrates the rate it is given, every
    interval takes the time of its mean velocity. */
module TrajectoryMeaning {

  import opened Text
  import opened Arithmetic
  import opened TrajectoryTime
  import opened TrajectoryPasses
  import opened TrajectoryLoops

  // ----- caps

  function LimitAtStart(path: Path, i: Interval): Result<real, Error> { SquaredLimit(path, i.piece, i.start) }

  function LimitAtEnd(path: Path, i: Interval): Result<real, Error> { SquaredLimit(path, i.piece, i.start + i.length) }

  predicate AtMost(v: real, limit: Result<real, Error>) { limit.Ok? && v <= limit.value }

  /** Station `k` is capped at no more than what the interval behind it and the
      one before it allow there, and at what one of them allows. */
  predicate CapOk(path: Path, st: Stations, k: nat)
    requires k < |st.caps|
  {
    && (k < |st.intervals| ==> AtMost(st.caps[k], LimitAtStart(path, st.intervals[k])))
    && (0 < k <= |st.intervals| ==> AtMost(st.caps[k], LimitAtEnd(path, st.intervals[k - 1])))
    && (|| (k < |st.intervals| && LimitAtStart(path, st.intervals[k]) == Ok(st.caps[k]))
        || (0 < k <= |st.intervals| && LimitAtEnd(path, st.intervals[k - 1]) == Ok(st.caps[k])))
  }

  ghost predicate Capped(path: Path, st: Stations) { forall k | 0 <= k < |st.caps| :: CapOk(path, st, k) }

  lemma CapIsKept(path: Path, st: Stations, next: Stations, k: nat)
    requires k < |st.caps| <= |next.caps| && k < |st.intervals| <= |next.intervals| && CapOk(path, st, k)
    requires next.caps[k] == st.caps[k] && next.intervals[..|st.intervals|] == st.intervals
    ensures CapOk(path, next, k)
  {
    hide LimitAtStart, LimitAtEnd, AtMost;
    assert next.intervals[k] == next.intervals[..|st.intervals|][k];
    if k > 0 { assert next.intervals[k - 1] == next.intervals[..|st.intervals|][k - 1]; }
  }

  function Part(path: Path, p: nat, s: nat, n: nat): Interval
    requires p < |path.pieces| && n > 0
  {
    Interval(p, Distance(path.pieces[p], s, n), path.pieces[p].length / n as real)
  }

  lemma PartsMeet(path: Path, p: nat, s: nat, n: nat)
    requires p < |path.pieces| && n > 0 && s > 0
    ensures LimitAtEnd(path, Part(path, p, s - 1, n)) == SquaredLimit(path, p, Distance(path.pieces[p], s, n))
  {
    var part := path.pieces[p].length / n as real;
    DistanceIsParts(path.pieces[p], s, n);
    DistanceIsParts(path.pieces[p], s - 1, n);
    ProductAdds((s - 1) as real, 1.0, part);
    ProductOfOne(part);
    hide Distance, Product, SquaredLimit;
    assert (s - 1) as real + 1.0 == s as real;
  }

  /** Between the stations of a piece: the last part has no cap at its end yet. */
  ghost predicate Inside(path: Path, p: nat, s: nat, n: nat, st: Stations)
    requires p < |path.pieces| && n > 0
  {
    && Capped(path, st) && st.caps != []
    && (if s == 0 then |st.caps| == |st.intervals| + 1
        else if s <= n then |st.caps| == |st.intervals| && st.intervals[|st.intervals| - 1] == Part(path, p, s - 1, n)
        else |st.caps| == |st.intervals| + 1)
  }

  lemma FirstStationIsCapped(path: Path, p: nat, n: nat, st: Stations)
    requires p < |path.pieces| && n > 0 && Shaped(st) && Capped(path, st) && AddStation(path, p, 0, n, st).Ok?
    ensures Inside(path, p, 1, n, AddStation(path, p, 0, n, st).value)
  {
    var cap := SquaredLimit(path, p, Distance(path.pieces[p], 0, n)).value;
    var next := AddStation(path, p, 0, n, st).value;
    var m := |st.intervals|;
    assert next.intervals == st.intervals + [Part(path, p, 0, n)];
    assert LimitAtStart(path, Part(path, p, 0, n)) == Ok(cap);
    assert next.caps == if m == 0 then [cap] else st.caps[m := Min(st.caps[m], cap)];
    hide SquaredLimit, Distance, AddStation, Part, LimitAtStart, LimitAtEnd, CapOk;
    forall k | 0 <= k < m ensures CapOk(path, next, k) { CapIsKept(path, st, next, k); }
    FirstCap(path, st, next, Part(path, p, 0, n), cap);
  }

  lemma FirstCap(path: Path, st: Stations, next: Stations, i: Interval, cap: real)
    requires Shaped(st) && next.intervals == st.intervals + [i] && LimitAtStart(path, i) == Ok(cap)
    requires st.intervals != [] ==> CapOk(path, st, |st.intervals|)
    requires next.caps == if st.intervals == [] then [cap] else st.caps[|st.intervals| := Min(st.caps[|st.intervals|], cap)]
    ensures |next.caps| == |st.intervals| + 1 && CapOk(path, next, |st.intervals|)
  {
    hide LimitAtStart, LimitAtEnd;
    var m := |st.intervals|;
    assert next.intervals[m] == i;
    if m > 0 { assert next.intervals[m - 1] == st.intervals[m - 1]; }
  }

  lemma LaterAdds(path: Path, p: nat, s: nat, n: nat, st: Stations)
    requires p < |path.pieces| && 0 < s <= n && AddStation(path, p, s, n, st).Ok?
    ensures var limit := SquaredLimit(path, p, Distance(path.pieces[p], s, n));
            && limit.Ok? && LimitAtStart(path, Part(path, p, s, n)) == limit
            && AddStation(path, p, s, n, st).value.caps == st.caps + [limit.value]
  {
    hide SquaredLimit, Distance;
  }

  lemma LaterStationIsCapped(path: Path, p: nat, s: nat, n: nat, st: Stations)
    requires p < |path.pieces| && 0 < s <= n && Inside(path, p, s, n, st) && AddStation(path, p, s, n, st).Ok?
    ensures Inside(path, p, s + 1, n, AddStation(path, p, s, n, st).value)
  {
    hide SquaredLimit, Distance, AddStation, Part, LimitAtStart, LimitAtEnd, CapOk;
    PartsMeet(path, p, s, n);
    LaterAdds(path, p, s, n, st);
    StationIntervals(path, p, s, n, st);
    var cap := SquaredLimit(path, p, Distance(path.pieces[p], s, n)).value;
    var next := AddStation(path, p, s, n, st).value;
    var m := |st.intervals|;
    forall k | 0 <= k < m ensures CapOk(path, next, k) { CapIsKept(path, st, next, k); }
    LaterCap(path, st, next, Part(path, p, s, n), cap);
  }

  lemma LaterCap(path: Path, st: Stations, next: Stations, i: Interval, cap: real)
    requires st.intervals != [] && |st.caps| == |st.intervals| && next.caps == st.caps + [cap]
    requires next.intervals == st.intervals + [i] || next.intervals == st.intervals
    requires LimitAtEnd(path, st.intervals[|st.intervals| - 1]) == Ok(cap) && LimitAtStart(path, i) == Ok(cap)
    ensures CapOk(path, next, |st.intervals|)
  {
    hide LimitAtStart, LimitAtEnd;
    var m := |st.intervals|;
    assert next.intervals[m - 1] == st.intervals[m - 1];
    assert next.caps[m] == cap;
  }

  lemma {:induction false} PieceIsCapped(path: Path, p: nat, s: nat, n: nat, st: Stations)
    requires p < |path.pieces| && 0 < s <= n + 1 && n > 0 && Inside(path, p, s, n, st) && AddPiece(path, p, s, n, st).Ok?
    ensures Inside(path, p, n + 1, n, AddPiece(path, p, s, n, st).value)
    decreases n + 1 - s
  {
    hide Inside, AddStation;
    if s <= n {
      LaterStationIsCapped(path, p, s, n, st);
      PieceIsCapped(path, p, s + 1, n, AddStation(path, p, s, n, st).value);
    }
  }

  lemma {:induction false} PiecesAreCapped(path: Path, p: nat, n: nat, maximum: nat, st: Stations)
    requires p <= |path.pieces| && n > 0 && Shaped(st) && Capped(path, st) && AddPieces(path, p, n, maximum, st).Ok?
    ensures Capped(path, AddPieces(path, p, n, maximum, st).value)
    decreases |path.pieces| - p
  {
    if p < |path.pieces| {
      hide AddStation, Capped;
      FirstStationIsCapped(path, p, n, st);
      PieceIsCapped(path, p, 1, n, AddStation(path, p, 0, n, st).value);
      var next := AddPiece(path, p, 0, n, st).value;
      assert AddPiece(path, p, 0, n, st) == AddPiece(path, p, 1, n, AddStation(path, p, 0, n, st).value);
      assert Capped(path, next);
      PiecesAreCapped(path, p + 1, n, maximum, next);
    }
  }

  /** Each laid interval begins where the one before it ends, on the same piece
      or at the start of the next once a piece is done. */
  ghost predicate EndToEnd(path: Path, intervals: seq<Interval>) {
    && (intervals != [] ==> intervals[0].piece == 0 && intervals[0].start == 0.0)
    && forall k | 0 < k < |intervals| :: Follows(path, intervals[k - 1], intervals[k])
  }

  predicate Follows(path: Path, a: Interval, b: Interval) {
    a.piece < |path.pieces|
    && if a.piece == b.piece then b.start == a.start + a.length
       else b.piece == a.piece + 1 && b.start == 0.0 && a.start + a.length == path.pieces[a.piece].length
  }

  /** Every cap of a resolution is a squared velocity limit of a piece it belongs
      to, and exceeds that of neither interval it joins: the limit at the start
      of the one behind it, the limit at the end of the one before it. */
  lemma CapsAreLimits(path: Path, n: nat, maximum: nat, k: nat)
    requires n > 0 && path.pieces != [] && AddPieces(path, 0, n, maximum, NO_STATIONS).Ok?
    requires k < |AddPieces(path, 0, n, maximum, NO_STATIONS).value.caps|
    ensures var st := AddPieces(path, 0, n, maximum, NO_STATIONS).value;
            && |st.caps| == |st.intervals| + 1
            && (k < |st.intervals| ==> AtMost(st.caps[k], LimitAtStart(path, st.intervals[k])))
            && (k > 0 ==> AtMost(st.caps[k], LimitAtEnd(path, st.intervals[k - 1])))
            && (|| (k < |st.intervals| && LimitAtStart(path, st.intervals[k]) == Ok(st.caps[k]))
                || (k > 0 && LimitAtEnd(path, st.intervals[k - 1]) == Ok(st.caps[k])))
  {
    PiecesAreCapped(path, 0, n, maximum, NO_STATIONS);
    hide AddPieces, AtMost, LimitAtStart, LimitAtEnd;
    assert CapOk(path, AddPieces(path, 0, n, maximum, NO_STATIONS).value, k);
  }

  // ----- the intervals

  ghost predicate Reaches(path: Path, p: nat, s: nat, n: nat, intervals: seq<Interval>)
    requires p < |path.pieces| && n > 0
  {
    && EndToEnd(path, intervals)
    && (if s > 0 then intervals != [] && intervals[|intervals| - 1] == Part(path, p, s - 1, n)
        else if p == 0 then intervals == []
        else intervals != [] && intervals[|intervals| - 1] == Part(path, p - 1, n - 1, n))
  }

  lemma PartsTouch(path: Path, p: nat, s: nat, n: nat)
    requires p < |path.pieces| && n > 0 && s <= n
    ensures Distance(path.pieces[p], 0, n) == 0.0
    ensures s > 0 ==> Part(path, p, s - 1, n).start + Part(path, p, s - 1, n).length == Distance(path.pieces[p], s, n)
    ensures Distance(path.pieces[p], n, n) == path.pieces[p].length
  {
    var part := path.pieces[p].length / n as real;
    DistanceIsParts(path.pieces[p], s, n);
    QuotientTimes(path.pieces[p].length, n as real);
    ProductCommutes(part, n as real);
    DistanceIsParts(path.pieces[p], n, n);
    DistanceIsParts(path.pieces[p], 0, n);
    ProductOfOne(part);
    if s > 0 {
      DistanceIsParts(path.pieces[p], s - 1, n);
      ProductAdds((s - 1) as real, 1.0, part);
      hide Distance, Product;
      assert (s - 1) as real + 1.0 == s as real;
    }
  }

  lemma NextPartFollows(path: Path, p: nat, s: nat, n: nat, intervals: seq<Interval>)
    requires p < |path.pieces| && n > 0 && s < n && Reaches(path, p, s, n, intervals)
    ensures Reaches(path, p, s + 1, n, intervals + [Part(path, p, s, n)])
  {
    PartsTouch(path, p, s, n);
    if p > 0 { PartsTouch(path, p - 1, n, n); }
    hide Distance;
    var longer := intervals + [Part(path, p, s, n)];
    forall k | 0 < k < |longer| ensures Follows(path, longer[k - 1], longer[k]) {
      if k < |intervals| { assert Follows(path, intervals[k - 1], intervals[k]); }
    }
  }

  lemma StationIntervals(path: Path, p: nat, s: nat, n: nat, st: Stations)
    requires p < |path.pieces| && n > 0 && AddStation(path, p, s, n, st).Ok?
    ensures AddStation(path, p, s, n, st).value.intervals
         == if s < n then st.intervals + [Part(path, p, s, n)] else st.intervals
  {
    hide SquaredLimit, Distance;
  }

  lemma {:induction false} PieceFollows(path: Path, p: nat, s: nat, n: nat, st: Stations)
    requires p < |path.pieces| && n > 0 && s <= n && Reaches(path, p, s, n, st.intervals) && AddPiece(path, p, s, n, st).Ok?
    ensures Reaches(path, p, n, n, AddPiece(path, p, s, n, st).value.intervals)
    decreases n - s
  {
    hide AddPiece, AddStation, Reaches, Part, Distance, SquaredLimit;
    PieceUnfolds(path, p, s, n, st);
    StationIntervals(path, p, s, n, st);
    if s < n {
      NextPartFollows(path, p, s, n, st.intervals);
      PieceFollows(path, p, s + 1, n, AddStation(path, p, s, n, st).value);
    }
  }

  lemma PieceUnfolds(path: Path, p: nat, s: nat, n: nat, st: Stations)
    requires p < |path.pieces| && n > 0 && s <= n && AddPiece(path, p, s, n, st).Ok?
    ensures AddStation(path, p, s, n, st).Ok?
    ensures AddPiece(path, p, s, n, st) == AddPiece(path, p, s + 1, n, AddStation(path, p, s, n, st).value)
    ensures s == n ==> AddPiece(path, p, s, n, st) == AddStation(path, p, s, n, st)
  {
    hide AddStation;
  }

  lemma NextPieceFollows(path: Path, p: nat, n: nat, intervals: seq<Interval>)
    requires p < |path.pieces| && n > 0 && Reaches(path, p, n, n, intervals)
    ensures EndToEnd(path, intervals) && (p + 1 < |path.pieces| ==> Reaches(path, p + 1, 0, n, intervals))
  {
    hide EndToEnd, Part;
  }

  lemma {:induction false} PiecesFollow(path: Path, p: nat, n: nat, maximum: nat, st: Stations)
    requires p <= |path.pieces| && n > 0 && Shaped(st) && AddPieces(path, p, n, maximum, st).Ok?
    requires p < |path.pieces| ==> Reaches(path, p, 0, n, st.intervals)
    requires EndToEnd(path, st.intervals)
    ensures EndToEnd(path, AddPieces(path, p, n, maximum, st).value.intervals)
    decreases |path.pieces| - p
  {
    if p < |path.pieces| {
      hide AddPiece, EndToEnd, Reaches;
      PieceFollows(path, p, 0, n, st);
      NextPieceFollows(path, p, n, AddPiece(path, p, 0, n, st).value.intervals);
      PiecesFollow(path, p + 1, n, maximum, AddPiece(path, p, 0, n, st).value);
    }
  }

  /** The intervals of a resolution run along the path without gap or overlap, each
      an equal part of its piece. */
  lemma IntervalsFollow(path: Path, n: nat, maximum: nat)
    requires n > 0 && path.pieces != [] && PositivePieces(path) && AddPieces(path, 0, n, maximum, NO_STATIONS).Ok?
    ensures var intervals := AddPieces(path, 0, n, maximum, NO_STATIONS).value.intervals;
            EndToEnd(path, intervals) && EqualParts(path, n, intervals)
  {
    PiecesInParts(path, 0, n, maximum, NO_STATIONS);
    PiecesFollow(path, 0, n, maximum, NO_STATIONS);
  }

  // ----- what the caps give the profile

  /** Where feasibility is downward closed, every value of a resolution's profile
      but the last is feasible, and within the velocity limit, on both the
      interval it starts and the one it ends. */
  lemma ProfileIsFeasible(path: Path, start: real, end: real, n: nat, maximum: nat, k: nat)
    requires n > 0 && path.pieces != [] && PositivePieces(path) && start >= 0.0 && end >= 0.0
    requires AddPieces(path, 0, n, maximum, NO_STATIONS).Ok?
    requires forall p, distance :: DownwardClosed(path, p, distance)
    requires var st := AddPieces(path, 0, n, maximum, NO_STATIONS).value;
             |st.caps| == |st.intervals| + 1 && k < |st.intervals| && Profile(path, st, start, end).Ok?
    ensures var st := AddPieces(path, 0, n, maximum, NO_STATIONS).value;
            var v := Profile(path, st, start, end).value[k];
            && WithinLimit(path, st.intervals[k].piece, st.intervals[k].start, v)
            && (k > 0 ==> var i := st.intervals[k - 1]; WithinLimit(path, i.piece, i.start + i.length, v))
  {
    hide AddPieces, DownwardClosed, Profile, CapOk, WithinLimit, NonNegativeCaps, PositiveLengths, PositivePieces, Times, Length,
      PathLength;
    StationsCoverPath(path, n, maximum);
    PiecesAreCapped(path, 0, n, maximum, NO_STATIONS);
    var st := AddPieces(path, 0, n, maximum, NO_STATIONS).value;
    assert CapOk(path, st, k);
    UnderCapIsFeasible(path, st, start, end, k);
  }

  lemma UnderCapIsFeasible(path: Path, st: Stations, start: real, end: real, k: nat)
    requires Ready(st) && k < |st.intervals| && CapOk(path, st, k) && start >= 0.0 && end >= 0.0
    requires Profile(path, st, start, end).Ok? && forall p, distance :: DownwardClosed(path, p, distance)
    ensures var v := Profile(path, st, start, end).value[k];
            && WithinLimit(path, st.intervals[k].piece, st.intervals[k].start, v)
            && (k > 0 ==> var i := st.intervals[k - 1]; WithinLimit(path, i.piece, i.start + i.length, v))
  {
    hide SquaredLimit, DownwardClosed, Profile, LimitAtStart, LimitAtEnd, AtMost, WithinLimit, NonNegativeCaps, PositiveLengths;
    ProfileUnderCaps(path, st, start, end, k);
    var v := Profile(path, st, start, end).value[k];
    StartIsWithin(path, st.intervals[k], v, st.caps[k]);
    if k > 0 { EndIsWithin(path, st.intervals[k - 1], v, st.caps[k]); }
  }

  lemma StartIsWithin(path: Path, i: Interval, v: real, cap: real)
    requires AtMost(cap, LimitAtStart(path, i)) && 0.0 <= v <= cap && DownwardClosed(path, i.piece, i.start)
    ensures WithinLimit(path, i.piece, i.start, v)
  {
    hide SquaredLimit, DownwardClosed, WithinLimit;
    UnderLimitIsWithin(path, i.piece, i.start, v, cap, LimitAtStart(path, i));
  }

  lemma EndIsWithin(path: Path, i: Interval, v: real, cap: real)
    requires AtMost(cap, LimitAtEnd(path, i)) && 0.0 <= v <= cap && DownwardClosed(path, i.piece, i.start + i.length)
    ensures WithinLimit(path, i.piece, i.start + i.length, v)
  {
    hide SquaredLimit, DownwardClosed, WithinLimit;
    UnderLimitIsWithin(path, i.piece, i.start + i.length, v, cap, LimitAtEnd(path, i));
  }

  lemma ProfileUnderCaps(path: Path, st: Stations, start: real, end: real, k: nat)
    requires Ready(st) && k < |st.intervals| && start >= 0.0 && end >= 0.0 && Profile(path, st, start, end).Ok?
    ensures 0.0 <= Profile(path, st, start, end).value[k] <= st.caps[k]
  {
    ForwardIsBounded(path, st, start, |st.intervals|);
    ProfileIsBounded(path, st, ForwardTo(path, st, start, |st.intervals|).value, end, 0);
  }

  /** A squared velocity that is feasible and no more than the limit's square. */
  ghost predicate WithinLimit(path: Path, p: nat, distance: real, v: real) {
    && path.velocityLimit(p, distance).Some? && v <= Squared(path.velocityLimit(p, distance).value)
    && path.feasible(p, distance, v)
  }

  lemma UnderLimitIsWithin(path: Path, p: nat, distance: real, v: real, cap: real, limit: Result<real, Error>)
    requires limit == SquaredLimit(path, p, distance) && AtMost(cap, limit) && 0.0 <= v <= cap
    requires DownwardClosed(path, p, distance)
    ensures WithinLimit(path, p, distance, v)
  {
    SquaredLimitIsTight(path, p, distance);
  }

  /** Neither boundary velocity's square exceeds the limit there by more than the slack. */
  lemma BoundariesAreWithin(path: Path, start: real, end: real, n: nat, maximum: nat)
    requires n > 0 && path.pieces != [] && Solve(path, start, end, n, maximum).Ok?
    ensures var last := |path.pieces| - 1;
            var (a, b) := (SquaredLimit(path, 0, 0.0), SquaredLimit(path, last, path.pieces[last].length));
            && a.Ok? && b.Ok? && start <= a.value + a.value / 1000000000000.0 && end <= b.value + b.value / 1000000000000.0
  {
    EndsAreCapped(path, n, maximum);
    hide AddPieces, SquaredLimit;
  }

  lemma EndsAreCapped(path: Path, n: nat, maximum: nat)
    requires n > 0 && path.pieces != [] && AddPieces(path, 0, n, maximum, NO_STATIONS).Ok?
    ensures var st := AddPieces(path, 0, n, maximum, NO_STATIONS).value;
            var last := |path.pieces| - 1;
            && st.caps != [] && AtMost(st.caps[0], SquaredLimit(path, 0, 0.0))
            && AtMost(st.caps[|st.caps| - 1], SquaredLimit(path, last, path.pieces[last].length))
  {
    var st := AddPieces(path, 0, n, maximum, NO_STATIONS).value;
    var last := |path.pieces| - 1;
    PiecesAreCapped(path, 0, n, maximum, NO_STATIONS);
    PiecesFollow(path, 0, n, maximum, NO_STATIONS);
    LastIsReached(path, 0, n, maximum, NO_STATIONS);
    PartsTouch(path, last, n, n);
    hide AddPieces, SquaredLimit, Distance;
    assert CapOk(path, st, 0) && CapOk(path, st, |st.intervals|);
    hide Follows;
  }

  lemma {:induction false} LastIsReached(path: Path, p: nat, n: nat, maximum: nat, st: Stations)
    requires p < |path.pieces| && n > 0 && Shaped(st) && AddPieces(path, p, n, maximum, st).Ok?
    requires Reaches(path, p, 0, n, st.intervals)
    ensures Reaches(path, |path.pieces| - 1, n, n, AddPieces(path, p, n, maximum, st).value.intervals)
    decreases |path.pieces| - p
  {
    hide AddPiece, EndToEnd, Reaches;
    PieceFollows(path, p, 0, n, st);
    NextPieceFollows(path, p, n, AddPiece(path, p, 0, n, st).value.intervals);
    if p < |path.pieces| - 1 {
      LastIsReached(path, p + 1, n, maximum, AddPiece(path, p, 0, n, st).value);
    }
  }

  // ----- when laying stations succeeds

  /** Station `s` of a piece has a limit. */
  predicate HasLimit(path: Path, p: nat, s: nat, n: nat)
    requires p < |path.pieces| && n > 0
  {
    SquaredLimit(path, p, Distance(path.pieces[p], s, n)).Ok?
  }

  /** Every station of every piece from `p` on has a limit. */
  ghost predicate Limited(path: Path, p: nat, n: nat)
    requires n > 0
  {
    forall q, s: nat | p <= q < |path.pieces| && s <= n :: HasLimit(path, q, s, n)
  }

  lemma StationSucceeds(path: Path, p: nat, s: nat, n: nat, st: Stations)
    requires p < |path.pieces| && n > 0
    ensures AddStation(path, p, s, n, st).Ok? <==> HasLimit(path, p, s, n)
  {
    hide SquaredLimit, Distance;
  }

  lemma {:induction false} PieceSucceeds(path: Path, p: nat, s: nat, n: nat, st: Stations)
    requires p < |path.pieces| && n > 0 && s <= n + 1
    ensures AddPiece(path, p, s, n, st).Ok? <==> forall t: nat | s <= t <= n :: HasLimit(path, p, t, n)
    decreases n + 1 - s
  {
    hide HasLimit, AddStation;
    if s <= n {
      StationSucceeds(path, p, s, n, st);
      if AddStation(path, p, s, n, st).Ok? {
        PieceSucceeds(path, p, s + 1, n, AddStation(path, p, s, n, st).value);
      }
    }
  }

  lemma {:induction false} PiecesSucceed(path: Path, p: nat, n: nat, maximum: nat, st: Stations)
    requires p <= |path.pieces| && n > 0 && Shaped(st) && |st.intervals| == Times(p, n) <= maximum
    ensures AddPieces(path, p, n, maximum, st).Ok? <==> Times(|path.pieces|, n) <= maximum && Limited(path, p, n)
    decreases |path.pieces| - p
  {
    if p < |path.pieces| {
      hide AddPiece, Times;
      TimesGrows(p, n);
      TimesMonotone(p + 1, |path.pieces|, n);
      PieceSucceeds(path, p, 0, n, st);
      LimitedSplits(path, p, n);
      hide HasLimit, Limited;
      if Times(p + 1, n) <= maximum && AddPiece(path, p, 0, n, st).Ok? {
        PiecesSucceed(path, p + 1, n, maximum, AddPiece(path, p, 0, n, st).value);
      }
    }
  }

  lemma LimitedSplits(path: Path, p: nat, n: nat)
    requires p < |path.pieces| && n > 0
    ensures Limited(path, p, n) <==>
            && Limited(path, p + 1, n)
            && forall s: nat | 0 <= s <= n :: HasLimit(path, p, s, n)
  {
    hide HasLimit;
  }

  lemma {:induction false} TimesMonotone(p: nat, q: nat, n: nat)
    requires p <= q
    ensures Times(p, n) <= Times(q, n)
    decreases q
  {
    if p < q {
      TimesMonotone(p, q - 1, n);
      TimesGrows(q - 1, n);
    }
  }

  /** Stations are laid exactly when as many intervals as pieces times
      subdivisions are allowed and every station has a limit. */
  lemma StationsAreLaidExactly(path: Path, n: nat, maximum: nat)
    requires n > 0
    ensures AddPieces(path, 0, n, maximum, NO_STATIONS).Ok? <==>
            Times(|path.pieces|, n) <= maximum && Limited(path, 0, n)
  {
    PiecesSucceed(path, 0, n, maximum, NO_STATIONS);
  }

  /** A point of a piece has a limit exactly when the geometry gives a positive
      one and at least standing still is feasible there, or the limit itself. */
  lemma LimitExistsExactly(path: Path, p: nat, distance: real)
    ensures var limit := path.velocityLimit(p, distance);
            match SquaredLimit(path, p, distance)
            case Ok(_) =>
              && limit.Some? && limit.value > 0.0
              && (path.feasible(p, distance, Squared(limit.value)) || path.feasible(p, distance, 0.0))
            case Err(e) =>
              && (e == GeometryNotFinite <==> limit.None?)
              && (e == NoVelocityLimit <==> limit.Some? && limit.value <= 0.0)
              && (e == NoFeasibleState <==>
                  && limit.Some? && limit.value > 0.0
                  && !path.feasible(p, distance, Squared(limit.value)) && !path.feasible(p, distance, 0.0))
              && e in {GeometryNotFinite, NoVelocityLimit, NoFeasibleState}
  {
    hide Bisect, Iterations, Squared;
  }

  // ----- what a step integrates

  /** A rate that depends on the place alone: a step is Simpson's rule, exact for
      every rate up to the third degree. */
  lemma StepIsSimpson(path: Path, i: Interval, v: real, forward: bool, rate: real -> real)
    requires forall at, x :: path.derivative(i, forward, at, x) == Some(rate(at))
    ensures var gained := Product(i.length, rate(0.0) + 4.0 * rate(0.5) + rate(1.0)) / 6.0;
            Propagate(path, i, v, forward) == Some(Max(0.0, v + if forward then gained else -gained))
  {
    var begin, end := rate(if forward then 0.0 else 1.0), rate(if forward then 1.0 else 0.0);
    var step := if forward then i.length else -i.length;
    var half := rate(0.5);
    assert path.derivative(i, forward, 0.5, 0.0) == Some(half);
    WeightsAdd(step, begin, half, end);
    WeightsTurn(i.length, rate(0.0), half, rate(1.0));
    hide Product, Weighted;
  }

  lemma WeightsAdd(step: real, a: real, b: real, c: real)
    ensures Weighted(step, a, b, b, c) == Product(step, a + 4.0 * b + c) / 6.0
  {}

  lemma WeightsTurn(length: real, a: real, b: real, c: real)
    ensures Product(-length, c + 4.0 * b + a) / 6.0 == -(Product(length, a + 4.0 * b + c) / 6.0)
  {}

  /** A rate proportional to the squared velocity: a step multiplies by the
      exponential's series up to the fourth power. */
  lemma StepIsFourthOrder(path: Path, i: Interval, v: real, forward: bool, factor: real)
    requires v >= 0.0 && i.length > 0.0 && (if forward then factor >= 0.0 else factor <= 0.0)
    requires forall at, x :: path.derivative(i, forward, at, x) == Some(Product(factor, x))
    ensures var z := Product(i.length, if forward then factor else -factor);
            Propagate(path, i, v, forward) ==
            Some(v + Product(z, v) + Product(z, Product(z, v)) / 2.0 + Product(z, Product(z, Product(z, v))) / 6.0
                 + Product(z, Product(z, Product(z, Product(z, v)))) / 24.0)
  {
    hide Product;
    var step := if forward then i.length else -i.length;
    var rate := if forward then factor else -factor;
    var z := Product(i.length, rate);
    StepTurns(i.length, factor, forward);
    var z1 := Product(z, v);
    var z2 := Product(z, z1);
    var z3 := Product(z, z2);
    var z4 := Product(z, z3);
    StepIsPositive(i.length, rate, v);
    StepIsPositive(i.length, rate, z1);
    StepIsPositive(i.length, rate, z2);
    StepIsPositive(i.length, rate, z3);
    var v2 := v + 0.5 * z1;
    var v3 := v2 + 0.25 * z2;
    var a, b := v + 1.0 * z1, v + 1.0 * z1 + 0.5 * z2;
    var v4 := b + 0.25 * z3;
    StageScales(step, factor, z, v);
    StageScales(step, factor, z, v2);
    StageAdds(z, v, z1, 0.5);
    StageScales(step, factor, z, v3);
    StageAdds(z, v2, z2, 0.25);
    StageScales(step, factor, z, v4);
    StageAdds(z, v, z1, 1.0);
    StageAdds(z, a, z2, 0.5);
    StageAdds(z, b, z3, 0.25);
    assert Product(step, Product(factor, v2)) == z1 + 0.5 * z2;
    assert Product(step, Product(factor, v3)) == z1 + 0.5 * z2 + 0.25 * z3;
    assert Product(step, Product(factor, v4)) == z1 + z2 + 0.5 * z3 + 0.25 * z4;
    assert v4 == v + Product(step, Product(factor, v3));
    FourStages(path, i, v, forward, factor, z1, v2, v3, v4);
  }

  lemma StepTurns(length: real, factor: real, forward: bool)
    ensures Product(if forward then length else -length, factor) == Product(length, if forward then factor else -factor)
  {}

  /** The stages of a step on a rate proportional to the squared velocity, all of them non-negative. */
  lemma FourStages(path: Path, i: Interval, v: real, forward: bool, factor: real, z1: real, v2: real, v3: real, v4: real)
    requires forall at, x :: path.derivative(i, forward, at, x) == Some(Product(factor, x))
    requires v >= 0.0 && v2 >= 0.0 && v3 >= 0.0 && v4 >= 0.0
    requires var step := if forward then i.length else -i.length;
             && Product(step, Product(factor, v)) == z1 && v2 == v + z1 / 2.0
             && v3 == v + Product(step, Product(factor, v2)) / 2.0 && v4 == v + Product(step, Product(factor, v3))
    ensures var step := if forward then i.length else -i.length;
            var sum := z1 + 2.0 * Product(step, Product(factor, v2)) + 2.0 * Product(step, Product(factor, v3))
                       + Product(step, Product(factor, v4));
            Propagate(path, i, v, forward) == Some(Max(0.0, v + sum / 6.0))
  {
    hide Product;
  }

  lemma StepIsPositive(length: real, factor: real, v: real)
    requires length > 0.0 && factor >= 0.0 && v >= 0.0
    ensures Product(Product(length, factor), v) >= 0.0
  {
    hide Product;
    ProductGrows(0.0, length, factor);
    ProductOfOne(factor);
    ProductGrows(0.0, Product(length, factor), v);
    ProductOfOne(v);
  }

  lemma StageScales(step: real, factor: real, z: real, x: real)
    requires z == Product(step, factor)
    ensures Product(step, Product(factor, x)) == Product(z, x)
  {}

  lemma StageAdds(z: real, x: real, y: real, part: real)
    ensures Product(z, x + part * y) == Product(z, x) + part * Product(z, y)
  {}

  // ----- the time

  /** The sum of some times. */
  function Total(times: seq<real>): real {
    if times == [] then 0.0 else Total(times[..|times| - 1]) + times[|times| - 1]
  }

  /** The duration is the sum over the intervals of the times at which the mean
      of the two end velocities covers each; the maximum velocity is at least
      every velocity and, past the first interval, one of them. */
  lemma {:induction false} DurationAddsUp(path: Path, st: Stations, profile: seq<real>, i: nat) returns (times: seq<real>)
    requires i <= |st.intervals| < |profile| && TimeTo(path, st, profile, i).Ok? && SquareRoot(path)
    ensures |times| == i && TimeTo(path, st, profile, i).value.duration == Total(times)
    ensures forall k | 0 <= k < i ::
              Product(times[k], (Velocity(path, profile[k]) + Velocity(path, profile[k + 1])) / 2.0) == st.intervals[k].length
    ensures var most := TimeTo(path, st, profile, i).value.maximumVelocity;
            && (forall k | 0 <= k <= i && i > 0 :: Velocity(path, profile[k]) <= most)
            && (i > 0 ==> exists k | 0 <= k <= i :: Velocity(path, profile[k]) == most)
  {
    hide IntervalTime, Velocity, Product, SquareRoot;
    times := [];
    if i > 0 {
      var before := DurationAddsUp(path, st, profile, i - 1);
      var sum := Velocity(path, profile[i - 1]) + Velocity(path, profile[i]);
      var time := IntervalTime(st.intervals[i - 1].length, sum);
      TimeOfMean(st.intervals[i - 1].length, sum);
      VelocityGrows(path, profile[i - 1], profile[i - 1]);
      times := before + [time];
      TotalGrows(before, time);
      forall k | 0 <= k < i
        ensures Product(times[k], (Velocity(path, profile[k]) + Velocity(path, profile[k + 1])) / 2.0) == st.intervals[k].length
      {
        if k < i - 1 { assert times[k] == before[k]; }
      }
    }
  }

  lemma TotalGrows(times: seq<real>, time: real)
    ensures Total(times + [time]) == Total(times) + time
  {
    assert (times + [time])[..|times|] == times;
  }

  lemma TimeOfMean(length: real, sum: real)
    requires sum > 0.0
    ensures Product(IntervalTime(length, sum), sum / 2.0) == length
  {
    QuotientTimes(2.0 * length, sum);
  }

  // ----- refinement

  /** Each refinement halves every interval of the one before; it is given up
      when it would need more intervals per piece than are allowed in all, or
      when doubling once more leaves a 64-bit count. */
  lemma SubdivisionsDouble(o: Options, k: nat)
    ensures Subdivisions(o, 0) == o.initialSubdivisions && Subdivisions(o, k + 1) == 2 * Subdivisions(o, k)
    ensures Overflows(o, k) <==> k >= 64 || Subdivisions(o, k) > o.maximumIntervals
  {
    hide Pow2;
    assert Pow2(0) == 1 && Pow2(k + 1) == 2 * Pow2(k) by { PowersDouble(k); }
    var p, q := Pow2(k), o.maximumIntervals / Pow2(k);
    var r := o.maximumIntervals % p;
    assert o.maximumIntervals == q * p + r && 0 <= r < p;
    OverQuotient(o.initialSubdivisions, o.maximumIntervals, p, q, r);
    DoubleProduct(o.initialSubdivisions, p);
  }

  lemma PowersDouble(k: nat)
    ensures Pow2(0) == 1 && Pow2(k + 1) == 2 * Pow2(k)
  {}

  lemma DoubleProduct(a: nat, p: nat)
    ensures a * (2 * p) == 2 * (a * p)
  {}

  lemma OverQuotient(a: nat, m: nat, p: nat, q: nat, r: nat)
    requires p > 0 && m == q * p + r && r < p
    ensures a > q <==> a * p > m
  {
    assert a * p == Times(a, p) && q * p == Times(q, p);
    hide Times;
    if a > q {
      TimesMonotone(q + 1, a, p);
      TimesGrows(q, p);
    } else {
      TimesMonotone(a, q, p);
    }
  }

  /** Two resolutions count as one when their durations differ by no more than
      the tolerances allow. */
  predicate Close(o: Options, a: Resolution, b: Resolution) {
    && b.duration - a.duration <= o.absoluteTolerance + Product(o.relativeTolerance, b.duration)
    && a.duration - b.duration <= o.absoluteTolerance + Product(o.relativeTolerance, b.duration)
  }

  lemma CloseIsAgreeing(o: Options, a: Resolution, b: Resolution)
    ensures Agree(o, a, b) <==> Close(o, a, b)
  {
    AllowedIs(o, b.duration);
    hide Allowed, Product;
  }

  lemma AllowedIs(o: Options, duration: real)
    ensures Allowed(o, duration) == o.absoluteTolerance + Product(o.relativeTolerance, duration)
  {}

  /** Refinement `i` succeeded and none between it and `k` did. */
  ghost predicate LastBefore(path: Path, start: real, end: real, o: Options, i: nat, k: nat)
    requires o.initialSubdivisions > 0 && path.pieces != []
  {
    i < k && Resolved(path, start, end, o, i).Ok? && forall m | i < m < k :: Resolved(path, start, end, o, m).Err?
  }

  /** Refinement `k` succeeded and is close to the last one that did. */
  ghost predicate Settles(path: Path, start: real, end: real, o: Options, k: nat)
    requires o.initialSubdivisions > 0 && path.pieces != []
  {
    Resolved(path, start, end, o, k).Ok?
    && exists i: nat :: LastBefore(path, start, end, o, i, k)
                        && Close(o, Resolved(path, start, end, o, i).value, Resolved(path, start, end, o, k).value)
  }

  /** What has been seen before refinement `k`: the last success, if any. */
  ghost predicate Seen(path: Path, start: real, end: real, o: Options, k: nat, previous: Option<Resolution>, j: nat)
    requires o.initialSubdivisions > 0 && path.pieces != []
  {
    match previous
    case None => forall m | 0 <= m < k :: Resolved(path, start, end, o, m).Err?
    case Some(r) => LastBefore(path, start, end, o, j, k) && Resolved(path, start, end, o, j).value == r
  }

  /** Refinement goes on until it settles: a result is that of the first
      refinement close to the last success before it; without one, too many
      subdivisions, no success at all, or the last success is reported. */
  ghost predicate Ends(path: Path, start: real, end: real, o: Options, k: nat, r: Result<Outcome, Failure>)
    requires o.initialSubdivisions > 0 && path.pieces != []
  {
    match r
    case Ok(outcome) =>
      && k <= outcome.refinements <= o.maximumRefinements && Settles(path, start, end, o, outcome.refinements)
      && (forall m | k <= m < outcome.refinements :: !Settles(path, start, end, o, m))
      && (forall m | k <= m <= outcome.refinements :: !Overflows(o, m))
    case Err(SubdivisionOverflow) =>
      exists n: nat :: k <= n <= o.maximumRefinements && Overflows(o, n)
                       && forall m | k <= m < n :: !Settles(path, start, end, o, m) && !Overflows(o, m)
    case Err(NoFeasibleEnvelope) => forall m | 0 <= m <= o.maximumRefinements :: Resolved(path, start, end, o, m).Err?
    case Err(NotConverged(last)) =>
      && (forall m | k <= m <= o.maximumRefinements :: !Settles(path, start, end, o, m))
      && exists i: nat :: LastBefore(path, start, end, o, i, if k > o.maximumRefinements then k else o.maximumRefinements + 1)
                          && Resolved(path, start, end, o, i).value == last
    case Err(InvalidInput) => false
  }

  lemma SettlesOnLast(
    path: Path, start: real, end: real, o: Options, k: nat, previous: Option<Resolution>, j: nat)
    requires o.initialSubdivisions > 0 && path.pieces != [] && Seen(path, start, end, o, k, previous, j)
    requires Resolved(path, start, end, o, k).Ok?
    ensures Settles(path, start, end, o, k) <==>
            previous.Some? && Agree(o, previous.value, Resolved(path, start, end, o, k).value)
  {
    hide Resolved, Agree, Close;
    if previous.Some? { CloseIsAgreeing(o, previous.value, Resolved(path, start, end, o, k).value); }
    forall i: nat | LastBefore(path, start, end, o, i, k) ensures previous.Some? && i == j {}
  }

  lemma {:induction false} RefinesUntilSettled(
    path: Path, start: real, end: real, o: Options, k: nat, previous: Option<Resolution>, j: nat)
    requires o.initialSubdivisions > 0 && path.pieces != [] && k <= o.maximumRefinements + 1
    requires Seen(path, start, end, o, k, previous, j)
    ensures Ends(path, start, end, o, k, RefineFrom(path, start, end, o, k, previous))
    decreases o.maximumRefinements + 1 - k
  {
    hide Resolved, Agree, Overflows, Settles;
    if k <= o.maximumRefinements && !Overflows(o, k) {
      var current := Resolved(path, start, end, o, k);
      if current.Err? {
        NotSettled(path, start, end, o, k);
        RefinesUntilSettled(path, start, end, o, k + 1, previous, j);
        EndsLater(path, start, end, o, k, RefineFrom(path, start, end, o, k + 1, previous));
      } else {
        SettlesOnLast(path, start, end, o, k, previous, j);
        if !(previous.Some? && Agree(o, previous.value, current.value)) {
          RefinesUntilSettled(path, start, end, o, k + 1, Some(current.value), k);
          EndsLater(path, start, end, o, k, RefineFrom(path, start, end, o, k + 1, Some(current.value)));
        }
      }
    }
  }

  lemma NotSettled(path: Path, start: real, end: real, o: Options, k: nat)
    requires o.initialSubdivisions > 0 && path.pieces != [] && Resolved(path, start, end, o, k).Err?
    ensures !Settles(path, start, end, o, k)
  {}

  lemma EndsLater(path: Path, start: real, end: real, o: Options, k: nat, r: Result<Outcome, Failure>)
    requires o.initialSubdivisions > 0 && path.pieces != [] && k <= o.maximumRefinements
    requires Ends(path, start, end, o, k + 1, r) && !Settles(path, start, end, o, k) && !Overflows(o, k)
    ensures Ends(path, start, end, o, k, r)
  {
    hide Resolved, Overflows, Settles, LastBefore;
  }

  /** Over valid input refinement ends with the first resolution close to the one
      before it, and with an error only when there is none. */
  lemma RefinementSettles(path: Path, startVelocity: real, endVelocity: real, o: Options)
    requires ValidInput(path, startVelocity, endVelocity, o)
    ensures o.initialSubdivisions > 0 && path.pieces != []
    ensures Ends(path, Squared(startVelocity), Squared(endVelocity), o, 0, TimeOf(path, startVelocity, endVelocity, o))
  {
    hide RefineFrom, Ends, Squared, Resolved;
    RefinesUntilSettled(path, Squared(startVelocity), Squared(endVelocity), o, 0, None, 0);
  }
}
