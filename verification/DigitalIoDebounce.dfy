/** The debounce counter of one instruction and the sliding-window
    specification it refines (src/DigitalIoProgram.cpp, Opcode::Debounce). */
module DigitalIoDebounce {

  datatype DebounceState = DebounceState(initialized: bool, output: bool, candidate: bool, stableTicks: nat)

  const RESET_STATE := DebounceState(false, false, false, 0)

  /** One advancing evaluation with input `sample`. */
  function Advance(state: DebounceState, ticks: nat, sample: bool): DebounceState {
    if !state.initialized || ticks == 0 || sample == state.output then
      DebounceState(true, sample, sample, 0)
    else
      var stable :=
        if sample != state.candidate then 1
        else if state.stableTicks < ticks then state.stableTicks + 1
        else state.stableTicks;
      if stable >= ticks then DebounceState(true, sample, sample, 0)
      else DebounceState(true, state.output, sample, stable)
  }

  /** The counter after a whole stream of samples, from reset. */
  function Run(ticks: nat, samples: seq<bool>): DebounceState {
    if samples == [] then RESET_STATE
    else Advance(Run(ticks, samples[..|samples| - 1]), ticks, samples[|samples| - 1])
  }

  ghost predicate Settled(samples: seq<bool>, count: nat, value: bool) {
    count <= |samples| && forall i | |samples| - count <= i < |samples| :: samples[i] == value
  }

  /** The window specification: the first sample, and afterwards the newest
      sample once the last `ticks` samples agree on it, else the previous output. */
  ghost function Window(ticks: nat, samples: seq<bool>): bool
    requires samples != []
  {
    var newest := samples[|samples| - 1];
    if |samples| == 1 || Settled(samples, ticks, newest) then newest
    else Window(ticks, samples[..|samples| - 1])
  }

  /** The counter is the length of the run of newest samples that disagree with the output. */
  ghost predicate CountsDisagreement(ticks: nat, samples: seq<bool>, state: DebounceState) {
    && state.initialized
    && state.stableTicks < |samples|
    && (ticks == 0 ==> state.stableTicks == 0)
    && (ticks > 0 ==> state.stableTicks < ticks)
    && samples[|samples| - 1 - state.stableTicks] == state.output
    && Settled(samples, state.stableTicks, !state.output)
    && (state.candidate == state.output <==> state.stableTicks == 0)
  }

  lemma {:induction false} RunCountsDisagreement(ticks: nat, samples: seq<bool>)
    requires samples != []
    ensures CountsDisagreement(ticks, samples, Run(ticks, samples))
  {
    var n := |samples| - 1;
    if n > 0 {
      RunCountsDisagreement(ticks, samples[..n]);
    }
  }

  /** The counter machine refines the window specification on every stream. */
  lemma {:induction false} RunRefinesWindow(ticks: nat, samples: seq<bool>)
    requires samples != []
    ensures Run(ticks, samples).output == Window(ticks, samples)
  {
    var n := |samples| - 1;
    if n > 0 {
      RunRefinesWindow(ticks, samples[..n]);
      RunCountsDisagreement(ticks, samples[..n]);
      var before := Run(ticks, samples[..n]);
      assert samples[n - 1 - before.stableTicks] == before.output;
    }
  }

  ghost function OutputAt(ticks: nat, samples: seq<bool>, t: nat): bool
    requires t < |samples|
  {
    Run(ticks, samples[..t + 1]).output
  }

  ghost predicate ChangesAt(ticks: nat, samples: seq<bool>, t: nat) {
    0 < t < |samples| && OutputAt(ticks, samples, t) != OutputAt(ticks, samples, t - 1)
  }

  /** A change of output is backed by a full window of agreeing samples. */
  lemma ChangeNeedsFullWindow(ticks: nat, samples: seq<bool>, t: nat)
    requires ChangesAt(ticks, samples, t)
    ensures Settled(samples[..t + 1], ticks, OutputAt(ticks, samples, t))
    ensures ticks > 0 ==> samples[t] == OutputAt(ticks, samples, t)
  {
    RunRefinesWindow(ticks, samples[..t + 1]);
    RunRefinesWindow(ticks, samples[..t]);
    assert samples[..t + 1][..t] == samples[..t];
  }

  lemma {:induction false} SomeChangeBetween(ticks: nat, samples: seq<bool>, a: nat, b: nat) returns (t: nat)
    requires a < b < |samples|
    requires OutputAt(ticks, samples, a) != OutputAt(ticks, samples, b)
    ensures a < t <= b && ChangesAt(ticks, samples, t)
    ensures OutputAt(ticks, samples, t) == OutputAt(ticks, samples, b)
    decreases b - a
  {
    if OutputAt(ticks, samples, b - 1) != OutputAt(ticks, samples, b) {
      t := b;
    } else {
      t := SomeChangeBetween(ticks, samples, a, b - 1);
    }
  }

  /** Output changes are at least `ticks` evaluations apart. */
  lemma ChangesAreSpaced(ticks: nat, samples: seq<bool>, t1: nat, t2: nat)
    requires t1 < t2 && ChangesAt(ticks, samples, t1) && ChangesAt(ticks, samples, t2)
    ensures t2 - t1 >= ticks
  {
    if t2 - t1 < ticks {
      ChangeNeedsFullWindow(ticks, samples, t1);
      ChangeNeedsFullWindow(ticks, samples, t2);
      assert samples[..t2 + 1][t1] == OutputAt(ticks, samples, t2);
      var t3 := SomeChangeBetween(ticks, samples, t1, t2 - 1);
      ChangeNeedsFullWindow(ticks, samples, t3);
      assert false;
    }
  }
}
