/** What the numbers of the timing loop measure: the grid each sample refers to,
    what its counts count, when a summary is offered for publication
    (src/HostedExecutorRuntime.cpp 29-45, 316-356 and 410-473). */
module HostedMeaning {

  import opened Arithmetic
  import opened HostedTiming
  import opened HostedServoLoop

  // ----- samples

  /** The `g`-th grid point. */
  function Grid(start: int, period: int, g: nat): int { start + period * g }

  /** The sample of iteration `n` is due at the next grid point not skipped
      before: it is as late as the wake-up is behind that, took from the wake-up
      to the finish, and has until the grid point after; the grid points from
      there on that the finish has reached are skipped. */
  lemma SampleMeans(start: int, period: int, readings: seq<Reading>, n: nat)
    requires period > 0 && n < |readings| && Monotone(readings)
    ensures var x := Trace(start, period, readings, |readings|)[n];
            var g := n + 1 + SkippedBefore(start, period, readings, n);
            var (due, next) := (Grid(start, period, g), Grid(start, period, g + 1));
            && x.tick == n + 1
            && x.wakeLateness == readings[n].wake - due
            && x.execution == readings[n].finished - readings[n].wake
            && x.slack == next - readings[n].finished
            && (x.slack < 0 <==> readings[n].finished > next)
            && (x.skipped == 0 <==> readings[n].finished < next)
            && (x.skipped > 0 ==> Grid(start, period, g + x.skipped) <= readings[n].finished)
            && readings[n].finished < Grid(start, period, g + 1 + x.skipped)
            && SkippedBefore(start, period, readings, n + 1) == SkippedBefore(start, period, readings, n) + x.skipped
  {
    var g := n + 1 + SkippedBefore(start, period, readings, n);
    var x := Trace(start, period, readings, |readings|)[n];
    DueIsGrid(start, period, readings, n);
    assert x == DueSample(n + 1, Grid(start, period, g), period, readings[n]) by { SampleAt(start, period, readings, n); }
    hide Trace, DeadlineAfter, Grid;
    GridSteps(start, period, g, 1);
    GridSteps(start, period, g, x.skipped);
    GridSteps(start, period, g, 1 + x.skipped);
    SkipsAreSteps(Grid(start, period, g), period, readings[n].finished);
    hide SkippedPeriods;
  }

  lemma DueIsGrid(start: int, period: int, readings: seq<Reading>, n: nat)
    requires period > 0 && n < |readings|
    ensures DeadlineAfter(start, period, readings, n) + period
         == Grid(start, period, n + 1 + SkippedBefore(start, period, readings, n))
  {
    assert DeadlineAfter(start, period, readings, n)
        == Grid(start, period, n + SkippedBefore(start, period, readings, n)) by {
      DeadlinesStayOnGrid(start, period, readings, n);
      hide DeadlineAfter, SkippedBefore;
    }
    hide DeadlineAfter, Grid, SkippedBefore;
    GridSteps(start, period, n + SkippedBefore(start, period, readings, n), 1);
  }

  lemma GridSteps(start: int, period: int, g: nat, steps: nat)
    ensures Grid(start, period, g + steps) == Grid(start, period, g) + period * steps
  {
    Distribute(period, g, steps);
  }

  lemma SkipsAreSteps(due: int, period: int, finished: int)
    requires period > 0
    ensures var skipped := SkippedPeriods(due, period, finished);
            && (skipped == 0 <==> finished < due + period)
            && (skipped > 0 ==> due + period * skipped <= finished)
            && finished < due + period * (1 + skipped)
  {
    DivisionBounds(finished - due, period);
    if finished >= due + period { HostedServoLoop.QuotientIsPositive(finished - due, period); }
    Distribute(period, 1, SkippedPeriods(due, period, finished));
  }

  // ----- counts

  /** The samples of a stretch that missed their deadline. */
  function MissedIn(t: seq<Sample>, i: nat, j: nat): set<nat>
    requires i <= j <= |t|
  {
    set k | i <= k < j && t[k].slack < 0
  }

  /** A duration belongs to a bucket: none to the first, doubling ranges to the others. */
  predicate Belongs(nanoseconds: int, b: nat) {
    if b == 0 then nanoseconds <= 0
    else Pow2(b - 1) <= nanoseconds && (b < BUCKETS - 1 ==> nanoseconds < Pow2(b))
  }

  function LateIn(t: seq<Sample>, i: nat, j: nat, b: nat): set<nat>
    requires i <= j <= |t|
  {
    set k | i <= k < j && Belongs(t[k].wakeLateness, b)
  }

  function LongIn(t: seq<Sample>, i: nat, j: nat, b: nat): set<nat>
    requires i <= j <= |t|
  {
    set k | i <= k < j && Belongs(t[k].execution, b)
  }

  lemma {:induction false} MissesAreCounted(t: seq<Sample>, i: nat, j: nat)
    requires i <= j <= |t|
    ensures Missed(t, i, j) == |MissedIn(t, i, j)|
    decreases j
  {
    if i < j {
      MissesAreCounted(t, i, j - 1);
      assert MissedIn(t, i, j) == MissedIn(t, i, j - 1) + if t[j - 1].slack < 0 then {j - 1} else {};
    } else {
      assert MissedIn(t, i, j) == {};
    }
  }

  lemma BucketIsRange(nanoseconds: int, b: nat)
    requires b < BUCKETS
    ensures Bucket(HostedTiming.NonNegative(nanoseconds)) == b <==> Belongs(nanoseconds, b)
  {
    BucketRange(HostedTiming.NonNegative(nanoseconds), b);
  }

  lemma {:induction false} WakesAreCounted(t: seq<Sample>, i: nat, j: nat, b: nat)
    requires i <= j <= |t| && b < BUCKETS
    ensures WakeIn(t, i, j, b) == |LateIn(t, i, j, b)|
    decreases j
  {
    hide Bucket, Belongs;
    if i < j {
      WakesAreCounted(t, i, j - 1, b);
      BucketIsRange(t[j - 1].wakeLateness, b);
      assert LateIn(t, i, j, b) == LateIn(t, i, j - 1, b) + if Belongs(t[j - 1].wakeLateness, b) then {j - 1} else {};
    } else {
      assert LateIn(t, i, j, b) == {};
    }
  }

  lemma {:induction false} ExecutionsAreCounted(t: seq<Sample>, i: nat, j: nat, b: nat)
    requires i <= j <= |t| && b < BUCKETS
    ensures ExecutionIn(t, i, j, b) == |LongIn(t, i, j, b)|
    decreases j
  {
    hide Bucket, Belongs;
    if i < j {
      ExecutionsAreCounted(t, i, j - 1, b);
      BucketIsRange(t[j - 1].execution, b);
      assert LongIn(t, i, j, b) == LongIn(t, i, j - 1, b) + if Belongs(t[j - 1].execution, b) then {j - 1} else {};
    } else {
      assert LongIn(t, i, j, b) == {};
    }
  }

  /** Every count of a stretch is the number of its samples that are so: first and
      last tick, samples, missed deadlines, and for each bucket the wake-ups that
      late and the executions that long. */
  lemma StretchCounts(t: seq<Sample>, i: nat, j: nat, failed: nat, b: nat)
    requires i < j <= |t| && b < BUCKETS
    ensures var s := Stretch(t, i, j, failed);
            && s.firstTick == t[i].tick && s.lastTick == t[j - 1].tick && s.sampleCount == j - i
            && s.missedDeadlines == |MissedIn(t, i, j)|
            && |s.wakeHistogram| == |s.executionHistogram| == BUCKETS
            && s.wakeHistogram[b] == |LateIn(t, i, j, b)|
            && s.executionHistogram[b] == |LongIn(t, i, j, b)|
  {
    MissesAreCounted(t, i, j);
    WakesAreCounted(t, i, j, b);
    ExecutionsAreCounted(t, i, j, b);
    hide Worst, MaxWake, MaxExecution, LongestStreak, Missed, WakeIn, ExecutionIn;
  }

  // ----- publication

  /** Sample `n` offers the summary for publication. */
  ghost predicate Attempted(t: seq<Sample>, answers: seq<Answer>, period: nat, n: nat)
    requires n < |t| && |answers| == |t|
  {
    RunTo(t, answers, period, n + 1).attempts > RunTo(t, answers, period, n).attempts
  }

  function Since(t: seq<Sample>, answers: seq<Answer>, period: nat, n: nat): nat
    requires n <= |t| && |answers| == |t|
  {
    RunTo(t, answers, period, n).accumulator.ticksSinceAttempt
  }

  lemma OneSample(t: seq<Sample>, answers: seq<Answer>, period: nat, n: nat)
    requires n < |t| && |answers| == |t|
    ensures var (r, next) := (RunTo(t, answers, period, n), RunTo(t, answers, period, n + 1));
            var due := answers[n].forced || Since(t, answers, period, n) + 1 >= period;
            && (Attempted(t, answers, period, n) <==> due)
            && next.attempts == r.attempts + (if due then 1 else 0)
            && Since(t, answers, period, n + 1) == (if due then 0 else Since(t, answers, period, n) + 1)
            && next.published == r.published
                 + (if due && answers[n].accepted then next.published[|r.published|..] else [])
            && |next.published| == |r.published| + (if due && answers[n].accepted then 1 else 0)
  {
    var r := RunTo(t, answers, period, n);
    hide Accumulate, RunTo;
    assert RunTo(t, answers, period, n + 1) == Step(r, t[n], period, answers[n], n + 1) by { OneMore(t, answers, period, n); }
  }

  lemma OneMore(t: seq<Sample>, answers: seq<Answer>, period: nat, n: nat)
    requires n < |t| && |answers| == |t|
    ensures RunTo(t, answers, period, n + 1) == Step(RunTo(t, answers, period, n), t[n], period, answers[n], n + 1)
  {}

  lemma NothingYet(t: seq<Sample>, answers: seq<Answer>, period: nat)
    requires |answers| == |t|
    ensures Since(t, answers, period, 0) == 0
  {}

  lemma SinceGrows(t: seq<Sample>, answers: seq<Answer>, period: nat, n: nat)
    requires n < |t| && |answers| == |t|
    ensures Since(t, answers, period, n + 1)
         == if Attempted(t, answers, period, n) then 0 else Since(t, answers, period, n) + 1
  {
    hide Attempted, RunTo, Since;
    OneSample(t, answers, period, n);
  }

  lemma {:induction false} SinceLastAttempt(t: seq<Sample>, answers: seq<Answer>, period: nat, n: nat)
    requires n <= |t| && |answers| == |t|
    ensures var since := Since(t, answers, period, n);
            && since <= n
            && (forall m | n - since <= m < n :: !Attempted(t, answers, period, m))
            && (since < n ==> Attempted(t, answers, period, n - since - 1))
    decreases n
  {
    hide Attempted, Since, RunTo;
    if n > 0 {
      SinceLastAttempt(t, answers, period, n - 1);
      SinceGrows(t, answers, period, n - 1);
    } else {
      NothingYet(t, answers, period);
    }
  }

  /** A summary is offered for publication when an I/O fault asks for it, and when
      none was during the last `period` samples; it leaves, alone, exactly when
      it is offered and the channel accepts. */
  lemma PublicationIsDue(t: seq<Sample>, answers: seq<Answer>, period: nat, n: nat)
    requires n < |t| && |answers| == |t|
    ensures Attempted(t, answers, period, n) <==>
            || answers[n].forced
            || (n + 1 >= period && forall m: nat | n - period < m < n :: !Attempted(t, answers, period, m))
    ensures var (r, next) := (RunTo(t, answers, period, n), RunTo(t, answers, period, n + 1));
            && next.attempts == r.attempts + (if Attempted(t, answers, period, n) then 1 else 0)
            && r.published <= next.published
            && |next.published| == |r.published|
                                   + (if Attempted(t, answers, period, n) && answers[n].accepted then 1 else 0)
  {
    SinceLastAttempt(t, answers, period, n);
    OneSample(t, answers, period, n);
    hide RunTo, Attempted, Since;
    var since := Since(t, answers, period, n);
    if since + 1 >= period {
      forall m: nat | n - period < m < n ensures !Attempted(t, answers, period, m) {
        assert n - since <= m;
      }
    } else if n + 1 >= period {
      assert Attempted(t, answers, period, n - since - 1);
      var m: nat := n - since - 1;
      assert n - period < m < n;
    }
  }
}
