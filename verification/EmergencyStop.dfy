/** Emergency stop: the latch, its status seqlock and the executor tick that
    obeys it, as interleaved atomic steps under sequential consistency
    (src/EmergencyStop.cpp, src/HostedExecutorRuntime.cpp `tick`). */
module EmergencyStop {

  datatype Source = Gui | Pendant | PhysicalExternalEnable

  datatype ResetResult = NoReset | Cleared | BlockedByActiveSource | NotLatched

  datatype Status = Status(acknowledged: nat, active: set<Source>, latched: set<Source>, result: ResetResult)

  const INITIAL_STATUS := Status(0, {}, {}, NoReset)

  // ----- one update, given what its two loads returned

  /** Raising: the sources seen active join the latch. */
  function Raise(status: Status, requested: set<Source>, local: set<Source>): Status {
    status.(active := requested + local, latched := status.latched + requested + local)
  }

  /** Answering a reset generation that was not seen before. */
  function Answer(status: Status, observed: nat, generation: nat): Status {
    if generation == observed then status
    else if status.active != {} then status.(acknowledged := generation, result := BlockedByActiveSource)
    else if status.latched == {} then status.(acknowledged := generation, result := NotLatched)
    else status.(acknowledged := generation, latched := {}, result := Cleared)
  }

  // ----- the shared block and the threads

  /** EmergencyStopControlBlock. */
  datatype Shared = Shared(
    requested: set<Source>, generation: nat,
    sequence: nat, acknowledged: nat, active: set<Source>, latched: set<Source>, result: ResetResult)

  function Published(shared: Shared): Status {
    Status(shared.acknowledged, shared.active, shared.latched, shared.result)
  }

  /** Where the executor is in its tick; `was` is the latch it saw on entry. */
  datatype Pc =
    | Idle
    | LoadRequests(was: bool, local: set<Source>)
    | LoadGeneration(was: bool)
    | Publishing(was: bool, stored: nat)   // stored: 0 before opening, 1..5 fields done, closes at 5
    | Act(was: bool)

  datatype CoreCall = LatchCore | ResetCore | ReportFault | ServoTick

  datatype Executor = Executor(pc: Pc, status: Status, observed: nat)

  /** A reader of `status()`: before its first load, or with that load and the
      fields read since. */
  datatype Reading =
    | Start
    | Loading(before: nat, loaded: nat, partial: Status)

  datatype Reader = Reader(reading: Reading, returned: seq<Status>, positions: seq<nat>)

  /** `history` lists the statuses published so far, the initial one first;
      `log` the calls made on the executor core. */
  datatype System = System(
    shared: Shared, executor: Executor, readers: seq<Reader>, history: seq<Status>, log: seq<CoreCall>)

  datatype Step =
    | Request(source: Source)
    | Release(source: Source)
    | RequestReset
    | Tick(local: set<Source>, fault: bool)
    | Read(reader: nat)

  function Initial(readers: nat): System {
    System(Shared({}, 0, 0, 0, {}, {}, NoReset), Executor(Idle, INITIAL_STATUS, 0),
           seq(readers, _ => Reader(Start, [], [])), [INITIAL_STATUS], [])
  }

  /** The atomic stores of `publish`, in order: open, four fields, close. */
  function StoreField(shared: Shared, status: Status, stored: nat): Shared {
    if stored == 0 then shared.(sequence := shared.sequence + 1)
    else if stored == 1 then shared.(acknowledged := status.acknowledged)
    else if stored == 2 then shared.(active := status.active)
    else if stored == 3 then shared.(latched := status.latched)
    else if stored == 4 then shared.(result := status.result)
    else shared.(sequence := shared.sequence + 1)
  }

  /** What the tick does to the core once `update` has returned. */
  function CoreCalls(was: bool, stopped: bool, fault: bool): seq<CoreCall> {
    if stopped then (if was then [] else [LatchCore])
    else if was then [ResetCore]
    else if fault then [ReportFault]
    else [ServoTick]
  }

  function TickStep(s: System, local: set<Source>, fault: bool): System {
    var e := s.executor;
    match e.pc
    case Idle => s.(executor := e.(pc := LoadRequests(e.status.latched != {}, local)))
    case LoadRequests(was, sampled) =>
      s.(executor := Executor(LoadGeneration(was), Raise(e.status, s.shared.requested, sampled), e.observed))
    case LoadGeneration(was) =>
      var generation := s.shared.generation;
      s.(executor := Executor(Publishing(was, 0), Answer(e.status, e.observed, generation), generation))
    case Publishing(was, stored) =>
      var shared := StoreField(s.shared, e.status, stored);
      if stored < 5 then s.(shared := shared, executor := e.(pc := Publishing(was, stored + 1)))
      else s.(shared := shared, executor := e.(pc := Act(was)), history := s.history + [e.status])
    case Act(was) =>
      s.(executor := e.(pc := Idle), log := s.log + CoreCalls(was, e.status.latched != {}, fault))
  }

  /** One load of `status()`; an odd or changed sequence starts over. */
  function ReadStep(shared: Shared, r: Reader): Reader {
    match r.reading
    case Start =>
      if shared.sequence % 2 == 1 then r else r.(reading := Loading(shared.sequence, 0, INITIAL_STATUS))
    case Loading(before, loaded, partial) =>
      if loaded == 0 then r.(reading := Loading(before, 1, partial.(acknowledged := shared.acknowledged)))
      else if loaded == 1 then r.(reading := Loading(before, 2, partial.(active := shared.active)))
      else if loaded == 2 then r.(reading := Loading(before, 3, partial.(latched := shared.latched)))
      else if loaded == 3 then r.(reading := Loading(before, 4, partial.(result := shared.result)))
      else if shared.sequence == before then
        Reader(Start, r.returned + [partial], r.positions + [before / 2])
      else r.(reading := Start)
  }

  function Next(s: System, step: Step): System {
    match step
    case Request(source) => s.(shared := s.shared.(requested := s.shared.requested + {source}))
    case Release(source) => s.(shared := s.shared.(requested := s.shared.requested - {source}))
    case RequestReset => s.(shared := s.shared.(generation := s.shared.generation + 1))
    case Tick(local, fault) => TickStep(s, local, fault)
    case Read(i) =>
      if i < |s.readers| then s.(readers := s.readers[i := ReadStep(s.shared, s.readers[i])]) else s
  }

  function Run(s: System, steps: seq<Step>): System
    decreases |steps|
  {
    if steps == [] then s else Run(Next(s, steps[0]), steps[1..])
  }

  // ----- the seqlock invariant

  /** `shared` holds the first `stored - 1` fields of `status` and the rest of `old`. */
  ghost predicate Mixed(shared: Shared, status: Status, old': Status, stored: nat) {
    && shared.acknowledged == (if stored >= 2 then status.acknowledged else old'.acknowledged)
    && shared.active == (if stored >= 3 then status.active else old'.active)
    && shared.latched == (if stored >= 4 then status.latched else old'.latched)
    && shared.result == (if stored >= 5 then status.result else old'.result)
  }

  ghost predicate InPublication(pc: Pc) { pc.Publishing? && pc.stored >= 1 }

  ghost predicate WriterOk(s: System) {
    && s.history != []
    && s.shared.sequence == 2 * (|s.history| - 1) + (if InPublication(s.executor.pc) then 1 else 0)
    && (s.executor.pc.Publishing? ==> s.executor.pc.stored <= 5)
    && Mixed(s.shared, s.executor.status, s.history[|s.history| - 1],
             if InPublication(s.executor.pc) then s.executor.pc.stored else 0)
  }

  /** The fields a reader has loaded so far are those of `status`. */
  ghost predicate Agrees(partial: Status, loaded: nat, status: Status) {
    && (loaded >= 1 ==> partial.acknowledged == status.acknowledged)
    && (loaded >= 2 ==> partial.active == status.active)
    && (loaded >= 3 ==> partial.latched == status.latched)
    && (loaded >= 4 ==> partial.result == status.result)
  }

  ghost predicate NonDecreasing(p: seq<nat>) { forall i, j | 0 <= i <= j < |p| :: p[i] <= p[j] }

  ghost predicate ReaderOk(shared: Shared, history: seq<Status>, r: Reader) {
    && |r.returned| == |r.positions|
    && (forall i | 0 <= i < |r.positions| ::
          r.positions[i] < |history| && r.returned[i] == history[r.positions[i]])
    && NonDecreasing(r.positions)
    && (r.positions != [] ==> r.positions[|r.positions| - 1] <= shared.sequence / 2)
    && (r.reading.Loading? ==>
          var before := r.reading.before;
          && before % 2 == 0 && before <= shared.sequence && before / 2 < |history|
          && r.reading.loaded <= 4
          && (r.positions != [] ==> r.positions[|r.positions| - 1] <= before / 2)
          && (shared.sequence == before ==> Agrees(r.reading.partial, r.reading.loaded, history[before / 2])))
  }

  ghost predicate SeqlockOk(s: System) {
    && WriterOk(s)
    && forall i | 0 <= i < |s.readers| :: ReaderOk(s.shared, s.history, s.readers[i])
  }

  lemma WriterKeepsReaders(before: System, after: System, r: Reader)
    requires WriterOk(before) && ReaderOk(before.shared, before.history, r)
    requires before.history <= after.history
    requires after.shared.sequence >= before.shared.sequence
    ensures ReaderOk(after.shared, after.history, r)
  {}

  lemma TickKeepsSeqlock(s: System, local: set<Source>, fault: bool)
    requires SeqlockOk(s)
    ensures SeqlockOk(TickStep(s, local, fault))
  {
    var n := TickStep(s, local, fault);
    forall i | 0 <= i < |n.readers| ensures ReaderOk(n.shared, n.history, n.readers[i]) {
      WriterKeepsReaders(s, n, s.readers[i]);
    }
  }

  lemma ReadKeepsReader(s: System, r: Reader)
    requires WriterOk(s) && ReaderOk(s.shared, s.history, r)
    ensures ReaderOk(s.shared, s.history, ReadStep(s.shared, r))
  {
    if r.reading.Start? {
    } else if r.reading.loaded == 4 && s.shared.sequence == r.reading.before {
      assert r.reading.partial == s.history[r.reading.before / 2];
    }
  }

  lemma NextKeepsSeqlock(s: System, step: Step)
    requires SeqlockOk(s)
    ensures SeqlockOk(Next(s, step))
  {
    match step
    case Tick(local, fault) => TickKeepsSeqlock(s, local, fault);
    case Read(i) => if i < |s.readers| { ReadKeepsReader(s, s.readers[i]); }
    case _ =>
  }

  lemma {:induction false} RunKeepsSeqlock(s: System, steps: seq<Step>)
    requires SeqlockOk(s)
    ensures SeqlockOk(Run(s, steps))
    decreases |steps|
  {
    if steps != [] {
      NextKeepsSeqlock(s, steps[0]);
      RunKeepsSeqlock(Next(s, steps[0]), steps[1..]);
    }
  }

  /** Seqlock atomicity: over every interleaving, every status any reader has
      returned is exactly one whole published status, and the statuses one
      reader returns never go back to an older publication. */
  lemma StatusIsAtomic(readers: nat, steps: seq<Step>, i: nat)
    requires i < readers
    ensures var s := Run(Initial(readers), steps);
            && i < |s.readers|
            && var r := s.readers[i];
               && |r.returned| == |r.positions|
               && NonDecreasing(r.positions)
               && forall k | 0 <= k < |r.returned| ::
                    r.positions[k] < |s.history| && r.returned[k] == s.history[r.positions[k]]
  {
    RunKeepsSeqlock(Initial(readers), steps);
    RunKeepsReaderCount(Initial(readers), steps);
    var s := Run(Initial(readers), steps);
    assert ReaderOk(s.shared, s.history, s.readers[i]);
  }

  lemma {:induction false} RunKeepsReaderCount(s: System, steps: seq<Step>)
    ensures |Run(s, steps).readers| == |s.readers|
    decreases |steps|
  {
    if steps != [] {
      RunKeepsReaderCount(Next(s, steps[0]), steps[1..]);
    }
  }
}
