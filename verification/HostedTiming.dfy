/** Servo-loop timing: histogram buckets, streaming summaries under failing
    publications against the whole trace, and the merge that readers apply
    (src/HostedExecutorRuntime.cpp 29-45 and 410-473,
    src/include/machine/RealtimeTiming.h). */
module HostedTiming {

  import opened Arithmetic

  // ----- buckets

  const BUCKETS := 32

  /** std::bit_width. */
  function BitWidth(n: nat): (w: nat)
    ensures n == 0 <==> w == 0
    ensures w > 0 ==> Pow2(w - 1) <= n < Pow2(w)
  {
    if n == 0 then 0
    else
      var w := BitWidth(n / 2);
      assert w > 0 ==> Pow2(w) == 2 * Pow2(w - 1);
      assert Pow2(w + 1) == 2 * Pow2(w);
      1 + w
  }

  function Bucket(nanoseconds: nat): (b: nat)
    ensures b < BUCKETS
  {
    if nanoseconds == 0 then 0
    else if BitWidth(nanoseconds) < BUCKETS - 1 then BitWidth(nanoseconds) else BUCKETS - 1
  }

  /** Bucket zero holds zero; bucket b the values from 2^(b-1) up to 2^b, the
      last bucket everything from 2^30 on. */
  lemma BucketRange(n: nat, b: nat)
    requires b < BUCKETS
    ensures Bucket(n) == b <==>
              if b == 0 then n == 0 else Pow2(b - 1) <= n && (b < BUCKETS - 1 ==> n < Pow2(b))
  {
    var w := BitWidth(n);
    if n > 0 && b > 0 {
      if w < b { Pow2Grows(w, b - 1); } else if w > b { Pow2Grows(b, w - 1); }
      if w >= BUCKETS - 1 { Pow2Grows(BUCKETS - 2, w - 1); }
    }
  }

  // ----- samples and summaries

  datatype Sample = Sample(tick: nat, wakeLateness: int, execution: nat, slack: int, skipped: nat)

  datatype Summary = Summary(
    firstTick: nat, lastTick: nat, sampleCount: nat,
    maximumWakeLateness: int, maximumExecution: nat, minimumSlack: int, worstTick: nat,
    missedDeadlines: nat, skippedPeriods: nat, maximumConsecutiveMisses: nat, failedPublications: nat,
    wakeHistogram: seq<nat>, executionHistogram: seq<nat>)

  function NoCounts(): seq<nat> { seq(BUCKETS, _ => 0) }

  function EmptySummary(): Summary { Summary(0, 0, 0, 0, 0, 0, 0, 0, 0, 0, 0, NoCounts(), NoCounts()) }

  function Larger(a: int, b: int): int { if a < b then b else a }

  function NonNegative(n: int): nat { if n < 0 then 0 else n }

  // ----- what a stretch of the trace amounts to

  function MaxWake(t: seq<Sample>, i: nat, j: nat): int
    requires i <= j <= |t|
  {
    if i == j then 0 else Larger(MaxWake(t, i, j - 1), t[j - 1].wakeLateness)
  }

  function MaxExecution(t: seq<Sample>, i: nat, j: nat): nat
    requires i <= j <= |t|
  {
    if i == j then 0 else Larger(MaxExecution(t, i, j - 1), t[j - 1].execution)
  }

  /** The position of the smallest slack, the first of equals. */
  function Worst(t: seq<Sample>, i: nat, j: nat): (w: nat)
    requires i < j <= |t|
    ensures i <= w < j
  {
    if j == i + 1 then i
    else
      var w := Worst(t, i, j - 1);
      if t[j - 1].slack < t[w].slack then j - 1 else w
  }

  function Missed(t: seq<Sample>, i: nat, j: nat): nat
    requires i <= j <= |t|
  {
    if i == j then 0 else Missed(t, i, j - 1) + (if t[j - 1].slack < 0 then 1 else 0)
  }

  function Skipped(t: seq<Sample>, i: nat, j: nat): nat
    requires i <= j <= |t|
  {
    if i == j then 0 else Skipped(t, i, j - 1) + t[j - 1].skipped
  }

  /** How many samples in a row, ending before `k`, missed their deadline. */
  function Streak(t: seq<Sample>, k: nat): nat
    requires k <= |t|
  {
    if k == 0 || t[k - 1].slack >= 0 then 0 else Streak(t, k - 1) + 1
  }

  /** The longest streak that ends inside a stretch, wherever it began. */
  function LongestStreak(t: seq<Sample>, i: nat, j: nat): nat
    requires i <= j <= |t|
  {
    if i == j then 0 else Larger(LongestStreak(t, i, j - 1), Streak(t, j))
  }

  function WakeIn(t: seq<Sample>, i: nat, j: nat, b: nat): nat
    requires i <= j <= |t|
  {
    if i == j then 0
    else WakeIn(t, i, j - 1, b) + (if Bucket(NonNegative(t[j - 1].wakeLateness)) == b then 1 else 0)
  }

  function ExecutionIn(t: seq<Sample>, i: nat, j: nat, b: nat): nat
    requires i <= j <= |t|
  {
    if i == j then 0 else ExecutionIn(t, i, j - 1, b) + (if Bucket(t[j - 1].execution) == b then 1 else 0)
  }

  function WakeHistogram(t: seq<Sample>, i: nat, j: nat): (h: seq<nat>)
    requires i <= j <= |t|
    ensures |h| == BUCKETS && forall b | 0 <= b < BUCKETS :: h[b] == WakeIn(t, i, j, b)
  {
    seq(BUCKETS, b requires 0 <= b < BUCKETS => WakeIn(t, i, j, b))
  }

  function ExecutionHistogram(t: seq<Sample>, i: nat, j: nat): (h: seq<nat>)
    requires i <= j <= |t|
    ensures |h| == BUCKETS && forall b | 0 <= b < BUCKETS :: h[b] == ExecutionIn(t, i, j, b)
  {
    seq(BUCKETS, b requires 0 <= b < BUCKETS => ExecutionIn(t, i, j, b))
  }

  /** The exact summary of samples i to j. */
  function Stretch(t: seq<Sample>, i: nat, j: nat, failed: nat): Summary
    requires i <= j <= |t|
  {
    if i == j then EmptySummary().(failedPublications := failed)
    else
      var w := Worst(t, i, j);
      Summary(t[i].tick, t[j - 1].tick, j - i,
              MaxWake(t, i, j), MaxExecution(t, i, j), t[w].slack, t[w].tick,
              Missed(t, i, j), Skipped(t, i, j), LongestStreak(t, i, j), failed,
              WakeHistogram(t, i, j), ExecutionHistogram(t, i, j))
  }

  // ----- observeTiming

  datatype Accumulator = Accumulator(summary: Summary, consecutiveMisses: nat, ticksSinceAttempt: nat)

  function Increment(h: seq<nat>, b: nat): seq<nat>
    requires b < |h|
  {
    h[b := h[b] + 1]
  }

  predicate Sized(s: Summary) { |s.wakeHistogram| == BUCKETS && |s.executionHistogram| == BUCKETS }

  /** The statistics of one more sample. */
  function Accumulate(s: Summary, misses: nat, x: Sample): Summary
    requires Sized(s)
  {
    var first := s.sampleCount == 0;
    var better := first || x.slack < s.minimumSlack;
    Summary(if first then x.tick else s.firstTick, x.tick, s.sampleCount + 1,
            Larger(s.maximumWakeLateness, x.wakeLateness), Larger(s.maximumExecution, x.execution),
            if better then x.slack else s.minimumSlack, if better then x.tick else s.worstTick,
            s.missedDeadlines + (if x.slack < 0 then 1 else 0), s.skippedPeriods + x.skipped,
            if x.slack < 0 then Larger(s.maximumConsecutiveMisses, misses + 1) else s.maximumConsecutiveMisses,
            s.failedPublications,
            Increment(s.wakeHistogram, Bucket(NonNegative(x.wakeLateness))),
            Increment(s.executionHistogram, Bucket(x.execution)))
  }

  /** One call: the new accumulator and what was published. `period` is the
      publication period and `accepted` the channel's answer if it is asked. */
  function Observe(a: Accumulator, x: Sample, period: nat, accepted: bool): (Accumulator, seq<Summary>)
    requires Sized(a.summary)
  {
    var misses := if x.slack < 0 then a.consecutiveMisses + 1 else 0;
    var summary := Accumulate(a.summary, a.consecutiveMisses, x);
    if a.ticksSinceAttempt + 1 < period then (Accumulator(summary, misses, a.ticksSinceAttempt + 1), [])
    else if accepted then (Accumulator(EmptySummary(), misses, 0), [summary])
    else (Accumulator(summary.(failedPublications := summary.failedPublications + 1), misses, 0), [])
  }

  // ----- a run over a trace

  /** What the world answers at each sample: whether the channel accepts, and
      whether an I/O fault forces the next publication attempt. */
  datatype Answer = Answer(accepted: bool, forced: bool)

  /** `cuts` starts at 0 and lists where each published summary ends. */
  datatype Run = Run(accumulator: Accumulator, published: seq<Summary>, cuts: seq<nat>, attempts: nat)

  function Start(): Run { Run(Accumulator(EmptySummary(), 0, 0), [], [0], 0) }

  /** A forced attempt is due at the next observation. */
  function Forced(a: Accumulator, forced: bool, period: nat): Accumulator {
    if forced then a.(ticksSinceAttempt := period) else a
  }

  function Step(r: Run, x: Sample, period: nat, answer: Answer, position: nat): Run
    requires Sized(r.accumulator.summary)
  {
    var a := Forced(r.accumulator, answer.forced, period);
    var (next, out) := Observe(a, x, period, answer.accepted);
    Run(next, r.published + out, if out == [] then r.cuts else r.cuts + [position],
        r.attempts + (if a.ticksSinceAttempt + 1 < period then 0 else 1))
  }

  /** Published summary k is exactly the stretch between two cuts. */
  ghost predicate Published(t: seq<Sample>, published: seq<Summary>, cuts: seq<nat>) {
    && |cuts| == |published| + 1 && cuts[0] == 0
    && (forall k | 0 <= k < |published| :: IsStretch(t, cuts[k], cuts[k + 1], published[k]))
  }

  ghost predicate IsStretch(t: seq<Sample>, begin: nat, end: nat, s: Summary) {
    begin < end <= |t| && s == Stretch(t, begin, end, s.failedPublications)
  }

  function Last(cuts: seq<nat>): nat
    requires cuts != []
  {
    cuts[|cuts| - 1]
  }

  /** The accumulator is exactly the stretch since the last cut, and the streak
      it carries over is the trace's. */
  ghost predicate Accumulates(t: seq<Sample>, n: nat, cut: nat, a: Accumulator) {
    && cut <= n <= |t|
    && a.summary == Stretch(t, cut, n, a.summary.failedPublications)
    && (cut == n ==> a.summary.failedPublications == 0)
    && a.consecutiveMisses == Streak(t, n)
  }

  ghost predicate Consistent(t: seq<Sample>, n: nat, r: Run) {
    && Published(t, r.published, r.cuts)
    && Accumulates(t, n, Last(r.cuts), r.accumulator)
    && r.attempts == |r.published| + Failures(r.published) + r.accumulator.summary.failedPublications
  }

  function Failures(published: seq<Summary>): nat
    decreases |published|
  {
    if published == [] then 0
    else Failures(published[..|published| - 1]) + published[|published| - 1].failedPublications
  }

  lemma HistogramsGrow(t: seq<Sample>, i: nat, j: nat)
    requires i <= j < |t|
    ensures WakeHistogram(t, i, j + 1)
         == Increment(WakeHistogram(t, i, j), Bucket(NonNegative(t[j].wakeLateness)))
    ensures ExecutionHistogram(t, i, j + 1) == Increment(ExecutionHistogram(t, i, j), Bucket(t[j].execution))
  {}

  lemma EmptyHistograms(t: seq<Sample>, i: nat)
    requires i <= |t|
    ensures WakeHistogram(t, i, i) == NoCounts() && ExecutionHistogram(t, i, i) == NoCounts()
  {}

  /** One observed sample extends the stretch by exactly that sample. */
  lemma StretchGrows(t: seq<Sample>, i: nat, j: nat, failed: nat)
    requires i <= j < |t|
    ensures Accumulate(Stretch(t, i, j, failed), Streak(t, j), t[j]) == Stretch(t, i, j + 1, failed)
    ensures Stretch(t, i, j + 1, failed).failedPublications == failed
  {
    HistogramsGrow(t, i, j);
    EmptyHistograms(t, i);
  }

  lemma FailureIsCounted(t: seq<Sample>, i: nat, j: nat, failed: nat)
    requires i <= j <= |t|
    ensures Stretch(t, i, j, failed).(failedPublications := failed + 1) == Stretch(t, i, j, failed + 1)
  {}

  lemma EmptyStretch(t: seq<Sample>, n: nat)
    requires n <= |t|
    ensures Stretch(t, n, n, 0) == EmptySummary() && EmptySummary().failedPublications == 0
  {}

  lemma StreakGrows(t: seq<Sample>, n: nat)
    requires n < |t|
    ensures Streak(t, n + 1) == if t[n].slack < 0 then Streak(t, n) + 1 else 0
  {}

  lemma PublishedGrows(t: seq<Sample>, published: seq<Summary>, cuts: seq<nat>, n: nat, s: Summary)
    requires Published(t, published, cuts) && IsStretch(t, Last(cuts), n, s)
    ensures Published(t, published + [s], cuts + [n])
    ensures Failures(published + [s]) == Failures(published) + s.failedPublications
  {
    hide IsStretch;
    var p, c := published + [s], cuts + [n];
    assert p[..|published|] == published;
    forall k | 0 <= k < |p| ensures IsStretch(t, c[k], c[k + 1], p[k]) {
      if k < |published| { assert p[k] == published[k] && c[k] == cuts[k] && c[k + 1] == cuts[k + 1]; }
    }
  }

  /** The accumulator after a sample, for each fate of the publication. */
  lemma ObserveAccumulates(t: seq<Sample>, n: nat, cut: nat, a: Accumulator, period: nat, accepted: bool)
    requires n < |t| && Accumulates(t, n, cut, a)
    ensures var (next, out) := Observe(a, t[n], period, accepted);
            if out == [] then
              Accumulates(t, n + 1, cut, next)
              && next.summary.failedPublications
                 == a.summary.failedPublications + (if a.ticksSinceAttempt + 1 < period then 0 else 1)
            else
              a.ticksSinceAttempt + 1 >= period
              && |out| == 1 && IsStretch(t, cut, n + 1, out[0])
              && out[0].failedPublications == a.summary.failedPublications
              && next.summary.failedPublications == 0 && Accumulates(t, n + 1, n + 1, next)
  {
    var failed := a.summary.failedPublications;
    StretchGrows(t, cut, n, failed);
    FailureIsCounted(t, cut, n + 1, failed);
    EmptyStretch(t, n + 1);
    StreakGrows(t, n);
    hide Stretch, Streak, Accumulate, EmptySummary;
  }

  lemma StepIsConsistent(t: seq<Sample>, n: nat, r: Run, period: nat, answer: Answer)
    requires n < |t| && Consistent(t, n, r)
    ensures Consistent(t, n + 1, Step(r, t[n], period, answer, n + 1))
  {
    var a := Forced(r.accumulator, answer.forced, period);
    ForcingChangesNothing(t, n, Last(r.cuts), r.accumulator, period);
    ObserveAccumulates(t, n, Last(r.cuts), a, period, answer.accepted);
    hide Observe, Accumulates, IsStretch, Published, Forced;
    var (next, out) := Observe(a, t[n], period, answer.accepted);
    if out == [] {
      assert r.published + out == r.published;
    } else {
      assert out == [out[0]];
      PublishedGrows(t, r.published, r.cuts, n + 1, out[0]);
    }
  }

  lemma ForcingChangesNothing(t: seq<Sample>, n: nat, cut: nat, a: Accumulator, period: nat)
    requires Accumulates(t, n, cut, a)
    ensures Accumulates(t, n, cut, a.(ticksSinceAttempt := period))
  {}

  /** The run over the first `n` samples. */
  function RunTo(t: seq<Sample>, answers: seq<Answer>, period: nat, n: nat): (r: Run)
    requires n <= |t| && |answers| == |t|
    ensures Sized(r.accumulator.summary)
  {
    if n == 0 then Start() else Step(RunTo(t, answers, period, n - 1), t[n - 1], period, answers[n - 1], n)
  }

  lemma {:induction false} RunIsConsistent(t: seq<Sample>, answers: seq<Answer>, period: nat, n: nat)
    requires n <= |t| && |answers| == |t|
    ensures Consistent(t, n, RunTo(t, answers, period, n))
    decreases n
  {
    if n == 0 {
      EmptyStretch(t, 0);
    } else {
      hide Consistent, Step;
      RunIsConsistent(t, answers, period, n - 1);
      StepIsConsistent(t, n - 1, RunTo(t, answers, period, n - 1), period, answers[n - 1]);
    }
  }

  // ----- what the numbers of a stretch mean

  ghost predicate AllMissed(t: seq<Sample>, begin: nat, end: nat)
    requires end <= |t|
  {
    forall k | begin <= k < end :: t[k].slack < 0
  }

  lemma {:induction false} MaximaAreMaxima(t: seq<Sample>, i: nat, j: nat)
    requires i <= j <= |t|
    ensures MaxWake(t, i, j) >= 0 && forall k | i <= k < j :: t[k].wakeLateness <= MaxWake(t, i, j)
    ensures MaxWake(t, i, j) == 0 || exists k | i <= k < j :: t[k].wakeLateness == MaxWake(t, i, j)
    ensures forall k | i <= k < j :: t[k].execution <= MaxExecution(t, i, j)
    ensures MaxExecution(t, i, j) == 0 || exists k | i <= k < j :: t[k].execution == MaxExecution(t, i, j)
    decreases j
  {
    if i < j { MaximaAreMaxima(t, i, j - 1); }
  }

  lemma {:induction false} WorstIsFirstMinimum(t: seq<Sample>, i: nat, j: nat)
    requires i < j <= |t|
    ensures forall k | i <= k < j :: t[Worst(t, i, j)].slack <= t[k].slack
    ensures forall k | i <= k < Worst(t, i, j) :: t[Worst(t, i, j)].slack < t[k].slack
    decreases j
  {
    if i + 1 < j { WorstIsFirstMinimum(t, i, j - 1); }
  }

  lemma {:induction false} StreakIsARun(t: seq<Sample>, k: nat)
    requires k <= |t|
    ensures Streak(t, k) <= k && AllMissed(t, k - Streak(t, k), k)
    decreases k
  {
    if k > 0 && t[k - 1].slack < 0 { StreakIsARun(t, k - 1); }
  }

  lemma {:induction false} RunsAreStreaks(t: seq<Sample>, begin: nat, end: nat)
    requires begin <= end <= |t| && AllMissed(t, begin, end)
    ensures end - begin <= Streak(t, end)
    decreases end
  {
    if end > begin { RunsAreStreaks(t, begin, end - 1); }
  }

  lemma {:induction false} LongestStreakBounds(t: seq<Sample>, i: nat, j: nat, k: nat)
    requires i < k <= j <= |t|
    ensures Streak(t, k) <= LongestStreak(t, i, j)
    decreases j
  {
    if k < j { LongestStreakBounds(t, i, j - 1, k); }
  }

  lemma {:induction false} LongestStreakIsReached(t: seq<Sample>, i: nat, j: nat) returns (k: nat)
    requires i <= j <= |t| && LongestStreak(t, i, j) > 0
    ensures i < k <= j && Streak(t, k) == LongestStreak(t, i, j)
    decreases j
  {
    k := j;
    if Streak(t, j) < LongestStreak(t, i, j) { k := LongestStreakIsReached(t, i, j - 1); }
  }

  /** Over a whole trace the reported streak is the longest run of missed
      deadlines: no run is longer, and some run is as long. */
  lemma LongestRun(t: seq<Sample>, begin: nat, end: nat) returns (a: nat, b: nat)
    requires begin <= end <= |t| && AllMissed(t, begin, end)
    ensures end - begin <= LongestStreak(t, 0, |t|)
    ensures a <= b <= |t| && AllMissed(t, a, b) && b - a == LongestStreak(t, 0, |t|)
  {
    RunsAreStreaks(t, begin, end);
    if end > begin { LongestStreakBounds(t, 0, |t|, end); }
    a, b := 0, 0;
    if LongestStreak(t, 0, |t|) > 0 {
      b := LongestStreakIsReached(t, 0, |t|);
      StreakIsARun(t, b);
      a := b - Streak(t, b);
    }
  }

  function Total(h: seq<nat>): nat
    decreases |h|
  {
    if h == [] then 0 else Total(h[..|h| - 1]) + h[|h| - 1]
  }

  lemma {:induction false} IncrementAddsOne(h: seq<nat>, b: nat)
    requires b < |h|
    ensures Total(Increment(h, b)) == Total(h) + 1
    decreases |h|
  {
    var n := |h| - 1;
    if b < n {
      assert Increment(h, b)[..n] == Increment(h[..n], b);
      IncrementAddsOne(h[..n], b);
    } else {
      assert Increment(h, b)[..n] == h[..n];
    }
  }

  lemma {:induction false} TotalOfNone(n: nat)
    ensures Total(seq(n, _ => 0)) == 0
  {
    if n > 0 {
      assert seq(n, _ => 0)[..n - 1] == seq(n - 1, _ => 0);
      TotalOfNone(n - 1);
    }
  }

  lemma {:induction false} WakeAddsUp(t: seq<Sample>, i: nat, j: nat)
    requires i <= j <= |t|
    ensures Total(WakeHistogram(t, i, j)) == j - i
    decreases j
  {
    if i == j {
      EmptyHistograms(t, i);
      NoCountsAddUp();
    } else {
      hide WakeHistogram, Bucket, Increment;
      WakeAddsUp(t, i, j - 1);
      HistogramsGrow(t, i, j - 1);
      IncrementAddsOne(WakeHistogram(t, i, j - 1), Bucket(NonNegative(t[j - 1].wakeLateness)));
    }
  }

  lemma {:induction false} ExecutionAddsUp(t: seq<Sample>, i: nat, j: nat)
    requires i <= j <= |t|
    ensures Total(ExecutionHistogram(t, i, j)) == j - i
    decreases j
  {
    if i == j {
      EmptyHistograms(t, i);
      NoCountsAddUp();
    } else {
      hide ExecutionHistogram, Bucket, Increment;
      ExecutionAddsUp(t, i, j - 1);
      HistogramsGrow(t, i, j - 1);
      IncrementAddsOne(ExecutionHistogram(t, i, j - 1), Bucket(t[j - 1].execution));
    }
  }

  lemma NoCountsAddUp()
    ensures Total(NoCounts()) == 0
  {
    assert NoCounts() == seq(BUCKETS, _ => 0);
    TotalOfNone(BUCKETS);
  }

  /** Each histogram of a stretch counts each of its samples once. */
  lemma HistogramsAddUp(t: seq<Sample>, i: nat, j: nat, failed: nat)
    requires i <= j <= |t|
    ensures var s := Stretch(t, i, j, failed);
            Total(s.wakeHistogram) == s.sampleCount == Total(s.executionHistogram)
  {
    WakeAddsUp(t, i, j);
    ExecutionAddsUp(t, i, j);
    EmptyHistograms(t, i);
  }

  // ----- merging

  function Sum(a: seq<nat>, b: seq<nat>): seq<nat>
    requires |a| == |b|
  {
    seq(|a|, k requires 0 <= k < |a| => a[k] + b[k])
  }

  /** mergeRealtimeTiming. */
  function Merge(a: Summary, b: Summary): (r: Summary)
    requires Sized(a) && Sized(b)
    ensures Sized(r)
  {
    if b.sampleCount == 0 then a
    else if a.sampleCount == 0 then b
    else
      Summary(a.firstTick, b.lastTick, a.sampleCount + b.sampleCount,
              Larger(a.maximumWakeLateness, b.maximumWakeLateness), Larger(a.maximumExecution, b.maximumExecution),
              if b.minimumSlack < a.minimumSlack then b.minimumSlack else a.minimumSlack,
              if b.minimumSlack < a.minimumSlack then b.worstTick else a.worstTick,
              a.missedDeadlines + b.missedDeadlines, a.skippedPeriods + b.skippedPeriods,
              Larger(a.maximumConsecutiveMisses, b.maximumConsecutiveMisses),
              a.failedPublications + b.failedPublications,
              Sum(a.wakeHistogram, b.wakeHistogram), Sum(a.executionHistogram, b.executionHistogram))
  }

  lemma {:induction false} MaximaSplit(t: seq<Sample>, i: nat, j: nat, k: nat)
    requires i <= j <= k <= |t|
    ensures MaxWake(t, i, k) == Larger(MaxWake(t, i, j), MaxWake(t, j, k))
    ensures MaxExecution(t, i, k) == Larger(MaxExecution(t, i, j), MaxExecution(t, j, k))
    ensures LongestStreak(t, i, k) == Larger(LongestStreak(t, i, j), LongestStreak(t, j, k))
    ensures MaxWake(t, i, j) >= 0
    decreases k
  {
    if i < j && j == k { MaximaSplit(t, i, j - 1, j - 1); }
    if j < k { MaximaSplit(t, i, j, k - 1); }
  }

  lemma {:induction false} CountsSplit(t: seq<Sample>, i: nat, j: nat, k: nat)
    requires i <= j <= k <= |t|
    ensures Missed(t, i, k) == Missed(t, i, j) + Missed(t, j, k)
    ensures Skipped(t, i, k) == Skipped(t, i, j) + Skipped(t, j, k)
    decreases k
  {
    if j < k { CountsSplit(t, i, j, k - 1); }
  }

  lemma {:induction false} BucketsSplit(t: seq<Sample>, i: nat, j: nat, k: nat, b: nat)
    requires i <= j <= k <= |t|
    ensures WakeIn(t, i, k, b) == WakeIn(t, i, j, b) + WakeIn(t, j, k, b)
    ensures ExecutionIn(t, i, k, b) == ExecutionIn(t, i, j, b) + ExecutionIn(t, j, k, b)
    decreases k
  {
    if j < k { BucketsSplit(t, i, j, k - 1, b); }
  }

  lemma {:induction false} WorstSplits(t: seq<Sample>, i: nat, j: nat, k: nat)
    requires i < j < k <= |t|
    ensures var a, b := Worst(t, i, j), Worst(t, j, k);
            Worst(t, i, k) == if t[b].slack < t[a].slack then b else a
    decreases k
  {
    if j + 1 < k { WorstSplits(t, i, j, k - 1); }
  }

  lemma HistogramsSplit(t: seq<Sample>, i: nat, j: nat, k: nat)
    requires i <= j <= k <= |t|
    ensures WakeHistogram(t, i, k) == Sum(WakeHistogram(t, i, j), WakeHistogram(t, j, k))
    ensures ExecutionHistogram(t, i, k) == Sum(ExecutionHistogram(t, i, j), ExecutionHistogram(t, j, k))
  {
    forall b | 0 <= b < BUCKETS
      ensures WakeHistogram(t, i, k)[b] == Sum(WakeHistogram(t, i, j), WakeHistogram(t, j, k))[b]
      ensures ExecutionHistogram(t, i, k)[b] == Sum(ExecutionHistogram(t, i, j), ExecutionHistogram(t, j, k))[b]
    {
      BucketsSplit(t, i, j, k, b);
    }
  }

  /** Merging neighbouring stretches gives the stretch over both. */
  lemma MergeJoins(t: seq<Sample>, i: nat, j: nat, k: nat, f: nat, g: nat)
    requires i <= j <= k <= |t| && (j == k ==> g == 0) && (i == j ==> f == 0)
    ensures Sized(Stretch(t, i, j, f)) && Sized(Stretch(t, j, k, g))
    ensures Merge(Stretch(t, i, j, f), Stretch(t, j, k, g)) == Stretch(t, i, k, f + g)
  {
    if i < j < k {
      MaximaSplit(t, i, j, k);
      CountsSplit(t, i, j, k);
      WorstSplits(t, i, j, k);
      HistogramsSplit(t, i, j, k);
      hide MaxWake, MaxExecution, LongestStreak, Missed, Skipped, Worst, WakeHistogram, ExecutionHistogram, Sum;
    }
  }

  function MergeAll(summaries: seq<Summary>): (r: Summary)
    requires forall k | 0 <= k < |summaries| :: Sized(summaries[k])
    ensures Sized(r)
    decreases |summaries|
  {
    if summaries == [] then EmptySummary()
    else Merge(MergeAll(summaries[..|summaries| - 1]), summaries[|summaries| - 1])
  }

  lemma {:induction false} PublishedMerge(t: seq<Sample>, published: seq<Summary>, cuts: seq<nat>)
    requires Published(t, published, cuts)
    ensures Last(cuts) <= |t| && (forall k | 0 <= k < |published| :: Sized(published[k]))
    ensures MergeAll(published) == Stretch(t, 0, Last(cuts), Failures(published))
    ensures Last(cuts) == 0 ==> Failures(published) == 0
    decreases |published|
  {
    if published == [] {
      EmptyStretch(t, 0);
    } else {
      var n := |published| - 1;
      var shorter, before := published[..n], cuts[..n + 1];
      forall k | 0 <= k < n ensures IsStretch(t, before[k], before[k + 1], shorter[k]) {
        assert IsStretch(t, cuts[k], cuts[k + 1], published[k]);
      }
      PublishedMerge(t, shorter, before);
      assert IsStretch(t, cuts[n], cuts[n + 1], published[n]);
      MergeJoins(t, 0, cuts[n], cuts[n + 1], Failures(shorter), published[n].failedPublications);
    }
  }

  /** Streaming equals the whole trace: for every trace, publication period and
      mix of accepted and refused publications, the published summaries and the
      current one cover the ticks contiguously, each is the exact summary of its
      own samples, and merging them gives the exact summary of the whole trace,
      its streak the longest run of missed deadlines anywhere in it. */
  lemma StreamingIsWholeTrace(t: seq<Sample>, answers: seq<Answer>, period: nat)
    requires |answers| == |t|
    ensures var r := RunTo(t, answers, period, |t|);
            && Published(t, r.published, r.cuts)
            && Accumulates(t, |t|, Last(r.cuts), r.accumulator)
            && (forall k | 0 <= k < |r.published| :: Sized(r.published[k]))
            && Merge(MergeAll(r.published), r.accumulator.summary)
               == Stretch(t, 0, |t|, Failures(r.published) + r.accumulator.summary.failedPublications)
            && r.attempts == |r.published| + Failures(r.published) + r.accumulator.summary.failedPublications
  {
    hide Stretch, Merge, MergeAll, RunTo;
    var r := RunTo(t, answers, period, |t|);
    RunIsConsistent(t, answers, period, |t|);
    PublishedMerge(t, r.published, r.cuts);
    MergeJoins(t, 0, Last(r.cuts), |t|, Failures(r.published), r.accumulator.summary.failedPublications);
  }

  /** A published summary's ticks follow on from the one before when the trace's
      ticks are consecutive. */
  lemma TicksAreContiguous(t: seq<Sample>, answers: seq<Answer>, period: nat, k: nat)
    requires |answers| == |t| && (forall i | 0 <= i < |t| :: t[i].tick == t[0].tick + i)
    requires k + 1 < |RunTo(t, answers, period, |t|).published|
    ensures var p := RunTo(t, answers, period, |t|).published;
            p[k + 1].firstTick == p[k].lastTick + 1
            && p[k].lastTick - p[k].firstTick + 1 == p[k].sampleCount
  {
    RunIsConsistent(t, answers, period, |t|);
    var r := RunTo(t, answers, period, |t|);
    assert IsStretch(t, r.cuts[k], r.cuts[k + 1], r.published[k]);
    assert IsStretch(t, r.cuts[k + 1], r.cuts[k + 1 + 1], r.published[k + 1]);
  }
}
