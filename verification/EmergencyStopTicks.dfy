/** What one tick of the executor does, one reset brings about and one reading
    returns, said of the state before alone (src/EmergencyStop.cpp 28-96,
    src/HostedExecutorRuntime.cpp `tick`). */
module EmergencyStopTicks {

  import opened EmergencyStop
  import opened EmergencyStopSafety

  /** The call a tick makes on the core: one latch when the stop comes in, one
      reset when it goes, nothing while it lasts; otherwise the fault there is,
      or the servo tick. */
  ghost predicate Obeys(stoppedBefore: bool, stoppedNow: bool, fault: bool, calls: seq<CoreCall>) {
    && (stoppedNow && !stoppedBefore <==> calls == [LatchCore])
    && (stoppedBefore && !stoppedNow <==> calls == [ResetCore])
    && (stoppedBefore && stoppedNow <==> calls == [])
    && (!stoppedBefore && !stoppedNow && fault <==> calls == [ReportFault])
    && (!stoppedBefore && !stoppedNow && !fault <==> calls == [ServoTick])
  }

  /** What the status becomes: the sources requested or signalled locally are
      active and join the latch; a reset not answered yet is answered, and clears
      the latch exactly when nothing is active. */
  ghost predicate Becomes(p: Status, sources: set<Source>, reset: bool, generation: nat, n: Status) {
    && n.active == sources
    && n.latched == (if reset && sources == {} then {} else p.latched + sources)
    && n.acknowledged == (if reset then generation else p.acknowledged)
    && n.result == (if !reset then p.result
                    else if sources != {} then BlockedByActiveSource
                    else if p.latched == {} then NotLatched else Cleared)
  }

  /** A tick nothing interrupts: the new status, published, and the one call it asks for. */
  lemma TickBecomes(s: System, local: set<Source>, fault: bool)
    requires s.executor.pc.Idle?
    ensures var n := Run(s, Ticks(10, local, fault));
            && n.executor.pc.Idle?
            && Becomes(s.executor.status, s.shared.requested + local, s.shared.generation != s.executor.observed,
                       s.shared.generation, n.executor.status)
            && n.executor.observed == s.shared.generation
            && n.history == s.history + [n.executor.status] && Published(n.shared) == n.executor.status
            && |s.log| <= |n.log| && n.log[..|s.log|] == s.log
            && Obeys(s.executor.status.latched != {}, n.executor.status.latched != {}, fault, n.log[|s.log|..])
            && n.readers == s.readers && n.shared.requested == s.shared.requested && n.shared.generation == s.shared.generation
  {
    UninterruptedTick(s, local, fault);
    var n := WholeTick(s, local, fault);
    var calls := CoreCalls(s.executor.status.latched != {}, n.executor.status.latched != {}, fault);
    assert n.log[|s.log|..] == calls && n.log[..|s.log|] == s.log;
    assert s.executor.status.latched + s.shared.requested + local == s.executor.status.latched + (s.shared.requested + local);
  }

  /** Over every interleaving, the step with which a tick ends makes exactly the
      call its status asks for on a core that is latched or not. */
  lemma EveryTickObeys(readers: nat, steps: seq<Step>, local: set<Source>, fault: bool)
    requires Run(Initial(readers), steps).executor.pc.Act?
    ensures var s := Run(Initial(readers), steps);
            var n := Next(s, Tick(local, fault));
            && |s.log| <= |n.log| && n.log[..|s.log|] == s.log && n.executor.status == s.executor.status
            && Obeys(CoreLatched(s.log), n.executor.status.latched != {}, fault, n.log[|s.log|..])
  {
    RunKeepsSafe(Initial(readers), steps);
    var s := Run(Initial(readers), steps);
    var calls := CoreCalls(s.executor.pc.was, s.executor.status.latched != {}, fault);
    assert (s.log + calls)[|s.log|..] == calls && (s.log + calls)[..|s.log|] == s.log;
    hide CoreLatched;
  }

  /** A reset requested between two ticks of any run is answered by the next
      tick: it ends the stop exactly when no source is active any more. */
  lemma ResetIsAnswered(readers: nat, steps: seq<Step>, local: set<Source>, fault: bool)
    requires Run(Initial(readers), steps).executor.pc.Idle?
    ensures var s := Run(Initial(readers), steps);
            var n := Run(s, [RequestReset] + Ticks(10, local, fault));
            var status := n.executor.status;
            && status.acknowledged == s.shared.generation + 1
            && (if s.shared.requested + local != {} then
                  && status.result == BlockedByActiveSource
                  && status.latched == s.executor.status.latched + (s.shared.requested + local)
                else
                  && status.latched == {}
                  && status.result == (if s.executor.status.latched == {} then NotLatched else Cleared)
                  && n.log == s.log + [if s.executor.status.latched != {} then ResetCore
                                       else if fault then ReportFault else ServoTick])
  {
    RunKeepsSafe(Initial(readers), steps);
    var s := Run(Initial(readers), steps);
    var asked := Next(s, RequestReset);
    assert ([RequestReset] + Ticks(10, local, fault))[1..] == Ticks(10, local, fault);
    assert Run(s, [RequestReset] + Ticks(10, local, fault)) == Run(asked, Ticks(10, local, fault));
    hide Run, Ticks, CoreLatched, LogOk, HistoryOk;
    TickBecomes(asked, local, fault);
    var n := Run(asked, Ticks(10, local, fault));
    assert n.log == n.log[..|s.log|] + n.log[|s.log|..];
  }

  // ----- reading

  function Reads(n: nat, i: nat): seq<Step> { seq(n, _ => Read(i)) }

  lemma OneRead(s: System, n: nat, i: nat)
    requires n > 0
    ensures Run(s, Reads(n, i)) == Run(Next(s, Read(i)), Reads(n - 1, i))
  {
    assert Reads(n, i)[1..] == Reads(n - 1, i);
  }

  function Loads(shared: Shared, r: Reader, n: nat): Reader
    decreases n
  {
    if n == 0 then r else Loads(shared, ReadStep(shared, r), n - 1)
  }

  /** Readers do not disturb one another or anything else. */
  lemma {:induction false} ReadsAreLoads(s: System, n: nat, i: nat)
    requires i < |s.readers|
    ensures Run(s, Reads(n, i)) == s.(readers := s.readers[i := Loads(s.shared, s.readers[i], n)])
    decreases n
  {
    hide ReadStep;
    if n == 0 {
      assert Reads(0, i) == [];
    } else {
      OneRead(s, n, i);
      ReadsAreLoads(Next(s, Read(i)), n - 1, i);
    }
  }

  lemma SixLoads(shared: Shared, r: Reader)
    requires r.reading.Start? && shared.sequence % 2 == 0
    ensures Loads(shared, r, 6) == Reader(Start, r.returned + [Published(shared)], r.positions + [shared.sequence / 2])
  {}

  /** Between publications a reader needs one round of six loads, and returns the
      last status published. */
  lemma ReadingReturnsLast(readers: nat, steps: seq<Step>, i: nat)
    requires var s := Run(Initial(readers), steps);
             i < |s.readers| && s.readers[i].reading.Start? && !InPublication(s.executor.pc)
    ensures var s := Run(Initial(readers), steps);
            var r := Run(s, Reads(6, i)).readers;
            && i < |r| && r[i].reading.Start? && s.history != []
            && r[i].returned == s.readers[i].returned + [s.history[|s.history| - 1]]
  {
    RunKeepsSeqlock(Initial(readers), steps);
    var s := Run(Initial(readers), steps);
    assert s.history[|s.history| - 1] == Published(s.shared);
    ReadsAreLoads(s, 6, i);
    SixLoads(s.shared, s.readers[i]);
    hide Run, Reads, Loads;
  }
}
