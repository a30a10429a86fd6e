/** The servo loop: its timing accumulator updated in place and the arithmetic
    of its deadlines (src/HostedExecutorRuntime.cpp 316-356 and 410-473). */
module HostedServoLoop {

  import opened HostedTiming

  // ----- deadlines

  /** What the clock shows when the thread wakes and when its tick is done. */
  datatype Reading = Reading(wake: int, finished: int)

  ghost predicate Monotone(readings: seq<Reading>) {
    forall k | 0 <= k < |readings| :: readings[k].wake <= readings[k].finished
  }

  function SkippedPeriods(deadline: int, period: int, finished: int): (n: nat)
    requires period > 0
  {
    if finished >= deadline + period then (finished - deadline) / period else 0
  }

  /** Where the grid has been advanced to after the first `n` iterations. */
  function DeadlineAfter(start: int, period: int, readings: seq<Reading>, n: nat): int
    requires period > 0 && n <= |readings|
  {
    if n == 0 then start
    else
      var deadline := DeadlineAfter(start, period, readings, n - 1) + period;
      deadline + period * SkippedPeriods(deadline, period, readings[n - 1].finished)
  }

  /** The sample of one wake-up for the grid point it was due at. */
  function DueSample(tick: nat, due: int, period: int, r: Reading): Sample
    requires period > 0 && r.wake <= r.finished
  {
    Sample(tick, r.wake - due, r.finished - r.wake, due + period - r.finished, SkippedPeriods(due, period, r.finished))
  }

  /** The sample of iteration `n`; ticks are counted from 1. */
  function SampleOf(start: int, period: int, readings: seq<Reading>, n: nat): Sample
    requires period > 0 && n < |readings| && Monotone(readings)
  {
    DueSample(n + 1, DeadlineAfter(start, period, readings, n) + period, period, readings[n])
  }

  function Trace(start: int, period: int, readings: seq<Reading>, n: nat): (t: seq<Sample>)
    requires period > 0 && n <= |readings| && Monotone(readings)
    ensures |t| == n
  {
    if n == 0 then [] else Trace(start, period, readings, n - 1) + [SampleOf(start, period, readings, n - 1)]
  }

  lemma {:induction false} TraceAt(start: int, period: int, readings: seq<Reading>, n: nat, k: nat)
    requires period > 0 && k < n <= |readings| && Monotone(readings)
    ensures Trace(start, period, readings, n)[k] == SampleOf(start, period, readings, k)
    decreases n
  {
    if k < n - 1 { TraceAt(start, period, readings, n - 1, k); }
  }

  lemma DivisionBounds(a: int, d: int)
    requires d > 0
    ensures d * (a / d) <= a < d * (a / d) + d
  {}

  /** The next deadline is strictly after the finish, and not a whole period
      later than it has to be when periods were skipped. */
  lemma NextDeadlineIsAhead(start: int, period: int, readings: seq<Reading>, n: nat)
    requires period > 0 && n < |readings|
    ensures var next := DeadlineAfter(start, period, readings, n + 1) + period;
            var deadline := DeadlineAfter(start, period, readings, n) + period;
            var skipped := SkippedPeriods(deadline, period, readings[n].finished);
            && readings[n].finished < next
            && (skipped > 0 ==> next - period <= readings[n].finished)
            && (skipped > 0 <==> deadline + period - readings[n].finished <= 0)
  {
    var deadline := DeadlineAfter(start, period, readings, n) + period;
    var late := readings[n].finished - deadline;
    DivisionBounds(late, period);
    if late >= period { QuotientIsPositive(late, period); }
  }

  lemma QuotientIsPositive(a: int, d: int)
    requires a >= d > 0
    ensures a / d >= 1
  {}

  function SkippedBefore(start: int, period: int, readings: seq<Reading>, n: nat): nat
    requires period > 0 && n <= |readings|
  {
    if n == 0 then 0
    else
      SkippedBefore(start, period, readings, n - 1)
      + SkippedPeriods(DeadlineAfter(start, period, readings, n - 1) + period, period, readings[n - 1].finished)
  }

  /** Deadlines stay on the grid: ticks run plus periods skipped are the grid
      steps taken. */
  lemma {:induction false} DeadlinesStayOnGrid(start: int, period: int, readings: seq<Reading>, n: nat)
    requires period > 0 && n <= |readings|
    ensures DeadlineAfter(start, period, readings, n) == start + period * (n + SkippedBefore(start, period, readings, n))
    decreases n
  {
    if n > 0 {
      DeadlinesStayOnGrid(start, period, readings, n - 1);
      var steps := n - 1 + SkippedBefore(start, period, readings, n - 1);
      var skipped := SkippedPeriods(DeadlineAfter(start, period, readings, n - 1) + period, period, readings[n - 1].finished);
      Distribute(period, steps, 1 + skipped);
      Distribute(period, 1, skipped);
    }
  }

  lemma Distribute(p: int, a: int, b: int)
    ensures p * (a + b) == p * a + p * b
  {}

  /** The summaries' skipped periods are the grid's. */
  lemma {:induction false} TraceSkips(start: int, period: int, readings: seq<Reading>, n: nat, t: seq<Sample>)
    requires period > 0 && n <= |readings| && Monotone(readings)
    requires |t| >= n && forall k | 0 <= k < n :: t[k] == SampleOf(start, period, readings, k)
    ensures Skipped(t, 0, n) == SkippedBefore(start, period, readings, n)
    decreases n
  {
    if n > 0 { TraceSkips(start, period, readings, n - 1, t); }
  }

  /** Over a whole run the merged summary accounts for the grid: samples plus
      skipped periods are the grid steps from start to the last deadline. */
  lemma SummaryCoversGrid(start: int, period: int, readings: seq<Reading>)
    requires period > 0 && Monotone(readings)
    ensures var t := Trace(start, period, readings, |readings|);
            var s := Stretch(t, 0, |t|, 0);
            DeadlineAfter(start, period, readings, |readings|) == start + period * (s.sampleCount + s.skippedPeriods)
  {
    var n := |readings|;
    var t := Trace(start, period, readings, n);
    forall k | 0 <= k < n ensures t[k] == SampleOf(start, period, readings, k) {
      TraceAt(start, period, readings, n, k);
    }
    TraceSkips(start, period, readings, n, t);
    DeadlinesStayOnGrid(start, period, readings, n);
  }

  // ----- the accumulator object

  /** The accumulator and the channel; the summary is a plain structure whose
      members are assigned one by one. */
  class TimingAccumulator {
    var summary: Summary
    var consecutiveMisses: nat
    var ticksSinceAttempt: nat
    /** What the channel has taken. */
    var published: seq<Summary>

    ghost predicate Valid()
      reads this
    {
      Sized(summary)
    }

    function Value(): Accumulator
      reads this
    {
      Accumulator(summary, consecutiveMisses, ticksSinceAttempt)
    }

    constructor ()
      ensures Valid() && Value() == Start().accumulator && published == []
    {
      summary, consecutiveMisses, ticksSinceAttempt, published := EmptySummary(), 0, 0, [];
    }

    method CountSample(x: Sample)
      requires Valid()
      modifies this`summary, this`consecutiveMisses
      ensures summary == Accumulate(old(summary), old(consecutiveMisses), x)
      ensures consecutiveMisses == if x.slack < 0 then old(consecutiveMisses) + 1 else 0
    {
      ghost var counted := Accumulate(summary, consecutiveMisses, x);
      var s := summary;
      if s.sampleCount == 0 {
        s := s.(firstTick := x.tick, minimumSlack := x.slack, worstTick := x.tick);
      }
      s := s.(lastTick := x.tick, sampleCount := s.sampleCount + 1);
      s := s.(maximumWakeLateness := Larger(s.maximumWakeLateness, x.wakeLateness));
      s := s.(maximumExecution := Larger(s.maximumExecution, x.execution));
      if x.slack < s.minimumSlack {
        s := s.(minimumSlack := x.slack, worstTick := x.tick);
      }
      s := s.(skippedPeriods := s.skippedPeriods + x.skipped);
      var misses := 0;
      if x.slack < 0 {
        misses := consecutiveMisses + 1;
        s := s.(missedDeadlines := s.missedDeadlines + 1,
                maximumConsecutiveMisses := Larger(s.maximumConsecutiveMisses, misses));
      }
      s := s.(wakeHistogram := Increment(s.wakeHistogram, Bucket(NonNegative(x.wakeLateness))));
      s := s.(executionHistogram := Increment(s.executionHistogram, Bucket(x.execution)));
      assert s == counted;
      summary, consecutiveMisses := s, misses;
    }

    /** An I/O fault during a tick makes the next observation attempt a publication. */
    method RecordIoFault(period: nat)
      requires Valid()
      modifies this`ticksSinceAttempt
      ensures Valid() && Value() == Forced(old(Value()), true, period)
    {
      ticksSinceAttempt := period;
    }

    method ObserveTiming(x: Sample, period: nat, accepted: bool)
      requires Valid()
      modifies this
      ensures var (next, out) := Observe(old(Value()), x, period, accepted);
              Value() == next && published == old(published) + out
      ensures Valid()
    {
      ghost var (next, out) := Observe(Value(), x, period, accepted);
      CountSample(x);
      ticksSinceAttempt := ticksSinceAttempt + 1;
      if ticksSinceAttempt < period {
        assert Value() == next;
        return;
      }
      ticksSinceAttempt := 0;
      if accepted {
        assert out == [summary];
        published := published + [summary];
        summary := EmptySummary();
      } else {
        summary := summary.(failedPublications := summary.failedPublications + 1);
      }
    }
  }

  // ----- the loop

  /** One iteration's sample is the trace's. */
  lemma SampleAt(start: int, period: int, readings: seq<Reading>, n: nat)
    requires period > 0 && n < |readings| && Monotone(readings)
    ensures var r := readings[n];
            var due := DeadlineAfter(start, period, readings, n) + period;
            && r.wake <= r.finished
            && Trace(start, period, readings, |readings|)[n] == DueSample(n + 1, due, period, r)
            && Trace(start, period, readings, |readings|)[n].slack == due + period - r.finished
            && DeadlineAfter(start, period, readings, n + 1) == due + period * SkippedPeriods(due, period, r.finished)
  {
    TraceAt(start, period, readings, |readings|, n);
  }

  /** What the loop has computed after `n` iterations. */
  ghost predicate LoopState(
    start: int, period: int, readings: seq<Reading>, answers: seq<Answer>, ticks: nat, n: nat,
    deadline: int, value: Accumulator, published: seq<Summary>, missed: nat)
    requires period > 0 && n <= |readings| == |answers| && Monotone(readings)
  {
    var t := Trace(start, period, readings, |readings|);
    && deadline == DeadlineAfter(start, period, readings, n)
    && value == RunTo(t, answers, ticks, n).accumulator
    && published == RunTo(t, answers, ticks, n).published
    && missed == Missed(t, 0, n)
  }

  lemma LoopStarts(start: int, period: int, readings: seq<Reading>, answers: seq<Answer>, ticks: nat)
    requires period > 0 && |readings| == |answers| && Monotone(readings)
    ensures LoopState(start, period, readings, answers, ticks, 0, start, Start().accumulator, [], 0)
  {}

  lemma LoopSteps(
    start: int, period: int, readings: seq<Reading>, answers: seq<Answer>, ticks: nat, n: nat,
    deadline: int, value: Accumulator, published: seq<Summary>, missed: nat)
    requires period > 0 && n < |readings| == |answers| && Monotone(readings)
    requires LoopState(start, period, readings, answers, ticks, n, deadline, value, published, missed)
    requires Sized(value.summary)
    ensures readings[n].wake <= readings[n].finished
    ensures var due := deadline + period;
            var (next, out) := Observe(Forced(value, answers[n].forced, ticks),
                                       DueSample(n + 1, due, period, readings[n]), ticks, answers[n].accepted);
            LoopState(start, period, readings, answers, ticks, n + 1,
                      due + period * SkippedPeriods(due, period, readings[n].finished), next, published + out,
                      missed + (if due + period - readings[n].finished < 0 then 1 else 0))
  {
    hide Observe, DueSample, SkippedPeriods;
    SampleAt(start, period, readings, n);
  }

  lemma LoopEnds(
    start: int, period: int, readings: seq<Reading>, answers: seq<Answer>, ticks: nat,
    deadline: int, value: Accumulator, published: seq<Summary>, missed: nat)
    requires period > 0 && |readings| == |answers| && Monotone(readings)
    requires LoopState(start, period, readings, answers, ticks, |readings|, deadline, value, published, missed)
    ensures var t := Trace(start, period, readings, |readings|);
            && deadline == DeadlineAfter(start, period, readings, |readings|)
            && value == RunTo(t, answers, ticks, |t|).accumulator
            && published == RunTo(t, answers, ticks, |t|).published
            && missed == Missed(t, 0, |t|)
  {}

  /** One pass of the loop body after the sleep. */
  method ServoIteration(previous: int, period: int, reading: Reading, tick: nat,
                        timing: TimingAccumulator, publicationTicks: nat, answer: Answer)
    returns (deadline: int, slack: int)
    requires period > 0 && reading.wake <= reading.finished && timing.Valid()
    modifies timing
    ensures var due := previous + period;
            && deadline == due + period * SkippedPeriods(due, period, reading.finished)
            && slack == due + period - reading.finished
            && var (next, out) := Observe(Forced(old(timing.Value()), answer.forced, publicationTicks),
                                          DueSample(tick, due, period, reading), publicationTicks, answer.accepted);
               timing.Value() == next && timing.published == old(timing.published) + out
    ensures timing.Valid()
  {
    hide Observe;
    if answer.forced {
      timing.RecordIoFault(publicationTicks);
    }
    deadline := previous + period;
    var nextDeadline := deadline + period;
    var wakeLateness := reading.wake - deadline;
    var execution := reading.finished - reading.wake;
    slack := nextDeadline - reading.finished;
    var skippedPeriods := 0;
    if reading.finished >= nextDeadline {
      QuotientIsPositive(reading.finished - deadline, period);
      skippedPeriods := (reading.finished - deadline) / period;
      deadline := deadline + period * skippedPeriods;
    }
    timing.ObserveTiming(Sample(tick, wakeLateness, execution, slack, skippedPeriods), publicationTicks, answer.accepted);
  }

  /** The loop over one run's clock readings: it observes exactly the trace, and
      a real-time loop reports one deadline fault per missed deadline. */
  method RunServoLoop(start: int, period: int, readings: seq<Reading>, answers: seq<Answer>,
                      publicationTicks: nat, realtime: bool, lastAccepted: bool)
    returns (deadline: int, timing: TimingAccumulator, faults: nat)
    requires period > 0 && Monotone(readings) && |answers| == |readings|
    ensures deadline == DeadlineAfter(start, period, readings, |readings|)
    ensures var t := Trace(start, period, readings, |readings|);
            var r := RunTo(t, answers, publicationTicks, |t|);
            && timing.Value() == r.accumulator
            && timing.published == r.published + (if r.accumulator.summary.sampleCount != 0 && lastAccepted
                                                  then [r.accumulator.summary] else [])
            && faults == if realtime then Missed(t, 0, |t|) else 0
  {
    hide LoopState, RunTo, Trace, DeadlineAfter, Missed, Observe, Start, DueSample, SkippedPeriods;
    timing := new TimingAccumulator();
    deadline := start;
    var servoTicks := 0;
    faults := 0;
    ghost var missed := 0;
    LoopStarts(start, period, readings, answers, publicationTicks);
    while servoTicks < |readings|
      invariant servoTicks <= |readings| && timing.Valid() && fresh(timing)
      invariant LoopState(start, period, readings, answers, publicationTicks, servoTicks,
                          deadline, timing.Value(), timing.published, missed)
      invariant faults == if realtime then missed else 0
    {
      LoopSteps(start, period, readings, answers, publicationTicks, servoTicks,
                deadline, timing.Value(), timing.published, missed);
      var slack;
      deadline, slack := ServoIteration(deadline, period, readings[servoTicks], servoTicks + 1,
                                        timing, publicationTicks, answers[servoTicks]);
      servoTicks := servoTicks + 1;
      missed := missed + (if slack < 0 then 1 else 0);
      if realtime && slack < 0 {
        faults := faults + 1;
      }
    }
    LoopEnds(start, period, readings, answers, publicationTicks, deadline, timing.Value(), timing.published, missed);
    if timing.summary.sampleCount != 0 && lastAccepted {
      timing.published := timing.published + [timing.summary];
    }
  }
}
