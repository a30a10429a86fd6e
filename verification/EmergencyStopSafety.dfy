/** Safety of the emergency stop over every interleaving of requests, releases,
    resets, readers and executor ticks (src/EmergencyStop.cpp 4-26 and 71-96,
    src/HostedExecutorRuntime.cpp `tick`). */
module EmergencyStopSafety {

  import opened EmergencyStop

  // ----- what one update may do to the published status

  ghost predicate Contained(status: Status) { status.active <= status.latched }

  /** `n` is a legal successor of the published status `p`. */
  ghost predicate Follows(p: Status, n: Status) {
    && Contained(n)
    && p.acknowledged <= n.acknowledged
    && (n.acknowledged == p.acknowledged ==> n.result == p.result && n.latched == p.latched + n.active)
    && (n.acknowledged > p.acknowledged ==> AnswersReset(p, n))
  }

  /** The verdict on a newly seen reset generation. */
  ghost predicate AnswersReset(p: Status, n: Status) {
    && n.result != NoReset
    && (n.result == BlockedByActiveSource <==> n.active != {})
    && (n.result == Cleared <==> n.active == {} && p.latched != {})
    && n.latched == (if n.active == {} then {} else p.latched + n.active)
  }

  ghost predicate Cleans(p: Status, n: Status) {
    n.active == {} && n.latched == {} && n.result == Cleared && p.acknowledged < n.acknowledged
  }

  lemma UpdateFollows(p: Status, requested: set<Source>, local: set<Source>, observed: nat, generation: nat)
    requires Contained(p) && observed == p.acknowledged && observed <= generation
    ensures var n := Answer(Raise(p, requested, local), observed, generation);
            Follows(p, n) && n.acknowledged == generation && n.active == requested + local
  {}

  /** No update both raises and clears, and only a newly seen reset with no
      active source takes anything out of the latch. */
  lemma UpdateRaisesOrClears(p: Status, n: Status)
    requires Follows(p, n)
    ensures p.latched <= n.latched || Cleans(p, n)
    ensures n.latched - p.latched != {} ==> p.latched <= n.latched
  {}

  // ----- the invariant

  /** The core is latched when the last latch or reset call was a latch. */
  ghost predicate CoreLatched(log: seq<CoreCall>)
    decreases |log|
  {
    log != [] &&
    (log[|log| - 1] == LatchCore || (log[|log| - 1] != ResetCore && CoreLatched(log[..|log| - 1])))
  }

  /** A call is allowed on a core whose calls so far are `log`. */
  ghost predicate Allowed(log: seq<CoreCall>, call: CoreCall) {
    match call
    case LatchCore => !CoreLatched(log)
    case ResetCore => CoreLatched(log)
    case ReportFault => !CoreLatched(log)
    case ServoTick => !CoreLatched(log)
  }

  ghost predicate LogOk(log: seq<CoreCall>) {
    forall i | 0 <= i < |log| :: Allowed(log[..i], log[i])
  }

  ghost predicate HistoryOk(history: seq<Status>) {
    && history != [] && Contained(history[0])
    && forall i | 0 < i < |history| :: Follows(history[i - 1], history[i])
  }

  /** How the executor's status relates to the last published one. */
  ghost predicate Progress(pc: Pc, last: Status, status: Status, log: seq<CoreCall>) {
    match pc
    case Idle => status == last && (status.latched != {} <==> CoreLatched(log))
    case LoadRequests(was, _) => status == last && was == CoreLatched(log)
    case LoadGeneration(was) =>
      && status == Raise(last, status.active, {})
      && was == CoreLatched(log)
    case Publishing(was, _) => Follows(last, status) && was == CoreLatched(log)
    case Act(was) => status == last && was == CoreLatched(log)
  }

  ghost predicate Safe(s: System) {
    && HistoryOk(s.history) && Contained(s.history[|s.history| - 1])
    && Progress(s.executor.pc, s.history[|s.history| - 1], s.executor.status, s.log)
    && s.executor.observed == s.executor.status.acknowledged
    && s.executor.observed <= s.shared.generation
    && LogOk(s.log)
  }

  lemma ActKeepsCore(log: seq<CoreCall>, was: bool, stopped: bool, fault: bool)
    requires LogOk(log) && was == CoreLatched(log)
    ensures LogOk(log + CoreCalls(was, stopped, fault))
    ensures CoreLatched(log + CoreCalls(was, stopped, fault)) == stopped
  {
    var calls := CoreCalls(was, stopped, fault);
    if calls == [] {
      assert log + calls == log;
    } else {
      assert (log + calls)[..|log|] == log;
      forall i | 0 <= i < |log| + 1 ensures Allowed((log + calls)[..i], (log + calls)[i]) {
        if i < |log| { assert (log + calls)[..i] == log[..i]; }
      }
    }
  }

  lemma LoadsKeepSafe(s: System, local: set<Source>, fault: bool)
    requires Safe(s) && (s.executor.pc.LoadRequests? || s.executor.pc.LoadGeneration?)
    ensures Safe(TickStep(s, local, fault))
  {
    assert s.history != [];
    hide HistoryOk, LogOk, CoreLatched;
    var e := s.executor;
    var last := s.history[|s.history| - 1];
    match e.pc
    case LoadRequests(was, sampled) =>
      assert Raise(last, s.shared.requested, sampled) == Raise(last, s.shared.requested + sampled, {});
    case LoadGeneration(was) => UpdateFollows(last, e.status.active, {}, e.observed, s.shared.generation);
  }

  lemma PublishingKeepsSafe(s: System, local: set<Source>, fault: bool)
    requires Safe(s) && s.executor.pc.Publishing?
    ensures Safe(TickStep(s, local, fault))
  {
    hide LogOk, CoreLatched;
  }

  lemma TickKeepsSafe(s: System, local: set<Source>, fault: bool)
    requires Safe(s)
    ensures Safe(TickStep(s, local, fault))
  {
    match s.executor.pc
    case Idle =>
    case LoadRequests(_, _) => LoadsKeepSafe(s, local, fault);
    case LoadGeneration(_) => LoadsKeepSafe(s, local, fault);
    case Publishing(_, _) => PublishingKeepsSafe(s, local, fault);
    case Act(was) => ActKeepsCore(s.log, was, s.executor.status.latched != {}, fault);
  }

  lemma NextKeepsSafe(s: System, step: Step)
    requires Safe(s)
    ensures Safe(Next(s, step))
  {
    match step
    case Tick(local, fault) => TickKeepsSafe(s, local, fault);
    case _ =>
  }

  lemma {:induction false} RunKeepsSafe(s: System, steps: seq<Step>)
    requires Safe(s)
    ensures Safe(Run(s, steps))
    decreases |steps|
  {
    if steps != [] {
      NextKeepsSafe(s, steps[0]);
      RunKeepsSafe(Next(s, steps[0]), steps[1..]);
    }
  }

  // ----- main results

  /** Over every interleaving: active sources are latched in every published
      status, each publication follows legally from the previous one, and no
      acknowledgement is ahead of the resets requested. */
  lemma PublicationsAreSafe(readers: nat, steps: seq<Step>)
    ensures var s := Run(Initial(readers), steps);
            && HistoryOk(s.history)
            && (forall i | 0 <= i < |s.history| :: Contained(s.history[i]))
            && (forall i, j | 0 <= i <= j < |s.history| ::
                  s.history[i].acknowledged <= s.history[j].acknowledged <= s.shared.generation)
  {
    RunKeepsSafe(Initial(readers), steps);
    var s := Run(Initial(readers), steps);
    var h := s.history;
    forall i, j | 0 <= i <= j < |h|
      ensures h[i].acknowledged <= h[j].acknowledged <= s.shared.generation
    {
      AcknowledgementsGrow(h, i, j);
      AcknowledgementsGrow(h, j, |h| - 1);
    }
    forall i | 0 <= i < |h| ensures Contained(h[i]) {
      if i > 0 { assert Follows(h[i - 1], h[i]); }
    }
  }

  lemma {:induction false} AcknowledgementsGrow(history: seq<Status>, i: nat, j: nat)
    requires HistoryOk(history) && i <= j < |history|
    ensures history[i].acknowledged <= history[j].acknowledged
    decreases j
  {
    if i < j {
      AcknowledgementsGrow(history, i, j - 1);
      assert Follows(history[j - 1], history[j]);
    }
  }

  /** Once latched, a source leaves the published latch only through an update
      that saw a new reset and no active source, and cleared everything. */
  lemma {:induction false} LatchIsHeldUntilCleared(history: seq<Status>, i: nat, j: nat, source: Source)
    requires HistoryOk(history) && i <= j < |history|
    requires source in history[i].latched && source !in history[j].latched
    ensures exists k | i < k <= j :: Cleans(history[k - 1], history[k])
    decreases j
  {
    if source in history[j - 1].latched {
      UpdateRaisesOrClears(history[j - 1], history[j]);
      assert Cleans(history[j - 1], history[j]);
    } else {
      LatchIsHeldUntilCleared(history, i, j - 1, source);
    }
  }

  /** Over every interleaving, latch and reset calls on the core strictly
      alternate, latch first, and the core is neither ticked nor handed another
      fault while latched. */
  lemma CoreCallsAlternate(readers: nat, steps: seq<Step>)
    ensures LogOk(Run(Initial(readers), steps).log)
  {
    RunKeepsSafe(Initial(readers), steps);
  }

  /** Between two latch calls there is a reset, and every servo tick is
      preceded by as many resets as latches. */
  function Count(log: seq<CoreCall>, call: CoreCall): nat
    decreases |log|
  {
    if log == [] then 0
    else Count(log[..|log| - 1], call) + (if log[|log| - 1] == call then 1 else 0)
  }

  lemma {:induction false} LatchesMatchResets(log: seq<CoreCall>)
    requires LogOk(log)
    ensures Count(log, LatchCore) == Count(log, ResetCore) + (if CoreLatched(log) then 1 else 0)
    decreases |log|
  {
    if log != [] {
      var n := |log| - 1;
      assert forall i | 0 <= i < n :: log[..n][..i] == log[..i];
      assert forall i | 0 <= i < n :: Allowed(log[..i], log[i]);
      LatchesMatchResets(log[..n]);
      assert Allowed(log[..n], log[n]);
    }
  }

  // ----- a held request

  ghost predicate NoRelease(steps: seq<Step>, source: Source) { Release(source) !in steps }

  ghost predicate StoppingCalls(log: seq<CoreCall>, from: nat) {
    forall i | from <= i < |log| :: log[i] == LatchCore
  }

  ghost predicate Holding(s: System, source: Source, published: nat, called: nat) {
    && source in s.shared.requested
    && published <= |s.history| && called <= |s.log|
    && (s.executor.pc.LoadGeneration? || s.executor.pc.Publishing? || s.executor.pc.Act? ==>
          source in s.executor.status.active && source in s.executor.status.latched)
    && (forall k | published <= k < |s.history| ::
          source in s.history[k].active && source in s.history[k].latched)
    && StoppingCalls(s.log, called)
  }

  lemma NextKeepsHolding(s: System, step: Step, source: Source, published: nat, called: nat)
    requires Holding(s, source, published, called) && step != Release(source)
    ensures Holding(Next(s, step), source, published, called)
  {}

  lemma {:induction false} RunKeepsHolding(
    s: System, steps: seq<Step>, source: Source, published: nat, called: nat)
    requires Holding(s, source, published, called) && NoRelease(steps, source)
    ensures Holding(Run(s, steps), source, published, called)
    decreases |steps|
  {
    if steps != [] {
      NextKeepsHolding(s, steps[0], source, published, called);
      RunKeepsHolding(Next(s, steps[0]), steps[1..], source, published, called);
    }
  }

  /** A source requested before the executor samples and not released: every
      status published from then on shows it active and latched, whatever
      resets are requested, and the only call the core can get is its latch. */
  lemma HeldSourceStops(s: System, steps: seq<Step>, source: Source)
    requires s.executor.pc.Idle? || s.executor.pc.LoadRequests?
    requires source in s.shared.requested && NoRelease(steps, source)
    ensures var n := Run(s, steps);
            && (forall k | |s.history| <= k < |n.history| ::
                  source in n.history[k].active && source in n.history[k].latched)
            && |s.log| <= |n.log| && StoppingCalls(n.log, |s.log|)
  {
    RunKeepsHolding(s, steps, source, |s.history|, |s.log|);
  }

  // ----- a pulse: a request and its release, with any steps in between

  function With(s: System, source: Source): System {
    s.(shared := s.shared.(requested := s.shared.requested + {source}))
  }

  /** The executor's load of the requests, its one step that looks at them. */
  predicate IsLoad(s: System, step: Step) { step.Tick? && s.executor.pc.LoadRequests? }

  /** The executor does not load the requests during these steps. */
  predicate LoadFree(s: System, steps: seq<Step>)
    decreases |steps|
  {
    steps == [] || (!IsLoad(s, steps[0]) && LoadFree(Next(s, steps[0]), steps[1..]))
  }

  /** Nobody else requests or releases the source. */
  predicate Untouched(steps: seq<Step>, source: Source) {
    Request(source) !in steps && Release(source) !in steps
  }

  lemma {:induction false} RunConcat(s: System, a: seq<Step>, b: seq<Step>)
    ensures Run(s, a + b) == Run(Run(s, a), b)
    decreases |a|
  {
    if a == [] {
      assert a + b == b;
    } else {
      assert (a + b)[1..] == a[1..] + b;
      RunConcat(Next(s, a[0]), a[1..], b);
    }
  }

  /** Without a load a request changes nothing but itself. */
  lemma {:induction false} RequestCommutes(s: System, source: Source, steps: seq<Step>)
    requires LoadFree(s, steps) && Untouched(steps, source)
    ensures Run(With(s, source), steps) == With(Run(s, steps), source)
    decreases |steps|
  {
    if steps != [] {
      var step := steps[0];
      assert Next(With(s, source), step) == With(Next(s, step), source) by {
        match step
        case Request(other) => assert {other} + {source} == {source} + {other};
        case Release(other) =>
          assert s.shared.requested + {source} - {other} == s.shared.requested - {other} + {source};
        case _ =>
      }
      RequestCommutes(Next(s, step), source, steps[1..]);
    }
  }

  lemma {:induction false} RequestsOfOthers(s: System, source: Source, steps: seq<Step>)
    requires Untouched(steps, source)
    ensures source in Run(s, steps).shared.requested <==> source in s.shared.requested
    decreases |steps|
  {
    if steps != [] {
      RequestsOfOthers(Next(s, steps[0]), source, steps[1..]);
    }
  }

  /** A pulse during which the executor does not load the requests leaves no
      trace, whatever else happens meanwhile: other sources' requests and
      releases, resets, readers, and the executor's own stores and calls. */
  lemma ReleasedPulseIsUnseen(s: System, source: Source, mid: seq<Step>, rest: seq<Step>)
    requires source !in s.shared.requested && Untouched(mid, source) && LoadFree(s, mid)
    ensures Run(s, [Request(source)] + mid + [Release(source)] + rest) == Run(s, mid + rest)
  {
    var after := Run(s, mid);
    RunConcat(s, [Request(source)] + mid + [Release(source)], rest);
    RunConcat(s, [Request(source)] + mid, [Release(source)]);
    RunConcat(s, [Request(source)], mid);
    RunConcat(s, mid, rest);
    RunsOne(s, Request(source));
    RequestCommutes(s, source, mid);
    RunsOne(With(after, source), Release(source));
    RequestsOfOthers(s, source, mid);
    assert after.shared.requested + {source} - {source} == after.shared.requested;
  }

  lemma RunsOne(s: System, step: Step)
    ensures Run(s, [step]) == Next(s, step)
  {
    assert [step][1..] == [];
  }

  /** No local signal raises the source: neither one sampled during these steps
      nor one already sampled and about to be raised. */
  predicate NotLocal(s: System, steps: seq<Step>, source: Source) {
    && (s.executor.pc.LoadRequests? ==> source !in s.executor.pc.local)
    && forall t | t in steps && t.Tick? :: source !in t.local
  }

  ghost predicate Knows(s: System, source: Source) {
    source in s.executor.status.active && source in s.executor.status.latched
  }

  lemma StepSees(s: System, step: Step, source: Source)
    requires source in s.shared.requested && step != Release(source)
    requires s.executor.pc.LoadRequests? ==> source !in s.executor.pc.local
    requires Knows(s, source) || source !in s.executor.status.active
    ensures source in Next(s, step).shared.requested
    ensures Knows(s, source) || IsLoad(s, step) ==> Knows(Next(s, step), source)
    ensures source !in s.executor.status.active && !IsLoad(s, step) ==>
              && source !in Next(s, step).executor.status.active
              && (source !in s.executor.status.latched ==> source !in Next(s, step).executor.status.latched)
  {}

  lemma {:induction false} RunSees(s: System, steps: seq<Step>, source: Source)
    requires source in s.shared.requested && Untouched(steps, source) && NotLocal(s, steps, source)
    requires Knows(s, source) || source !in s.executor.status.active
    ensures Knows(s, source) || !LoadFree(s, steps) ==> Knows(Run(s, steps), source)
    ensures source !in s.executor.status.active && LoadFree(s, steps) ==>
              && source !in Run(s, steps).executor.status.active
              && (source !in s.executor.status.latched ==> source !in Run(s, steps).executor.status.latched)
    decreases |steps|
  {
    if steps != [] {
      StepSees(s, steps[0], source);
      RunSees(Next(s, steps[0]), steps[1..], source);
    }
  }

  ghost predicate SamePlace(p: Pc, q: Pc) {
    match p
    case Idle => q.Idle?
    case LoadRequests(_, _) => q.LoadRequests?
    case LoadGeneration(_) => q.LoadGeneration?
    case Publishing(_, stored) => q.Publishing? && q.stored == stored
    case Act(_) => q.Act?
  }

  /** When the executor loads depends only on where it is in its tick. */
  lemma {:induction false} LoadsIgnoreRequests(s: System, t: System, steps: seq<Step>)
    requires SamePlace(s.executor.pc, t.executor.pc)
    ensures LoadFree(s, steps) == LoadFree(t, steps)
    decreases |steps|
  {
    if steps != [] {
      LoadsIgnoreRequests(Next(s, steps[0]), Next(t, steps[0]), steps[1..]);
    }
  }

  /** A pulse of a source inactive so far and not raised locally makes it active
      exactly when one of the executor's loads of the requests falls inside; it
      is then latched too, whatever resets came. A pulse without a load latches
      nothing that was not latched before. */
  lemma PulseIsSeenExactly(s: System, source: Source, mid: seq<Step>)
    requires source !in s.executor.status.active && Untouched(mid, source) && NotLocal(s, mid, source)
    ensures var n := Run(s, [Request(source)] + mid + [Release(source)]);
            && (source in n.executor.status.active <==> !LoadFree(s, mid))
            && (!LoadFree(s, mid) ==> source in n.executor.status.latched)
            && (source !in s.executor.status.latched ==>
                  (source in n.executor.status.latched <==> !LoadFree(s, mid)))
  {
    RunConcat(s, [Request(source)] + mid, [Release(source)]);
    RunConcat(s, [Request(source)], mid);
    RunsOne(s, Request(source));
    LoadsIgnoreRequests(s, With(s, source), mid);
    RunSees(With(s, source), mid, source);
    RunsOne(Run(With(s, source), mid), Release(source));
  }

  // ----- one tick with nothing in between

  /** `n` consecutive steps of the executor. */
  function Ticks(n: nat, local: set<Source>, fault: bool): seq<Step> { seq(n, _ => Tick(local, fault)) }

  function Updated(s: System, local: set<Source>): Status {
    Answer(Raise(s.executor.status, s.shared.requested, local), s.executor.observed, s.shared.generation)
  }

  function Store(shared: Shared, status: Status): Shared {
    shared.(sequence := shared.sequence + 2, acknowledged := status.acknowledged,
            active := status.active, latched := status.latched, result := status.result)
  }

  /** The state after a tick that nothing interrupts. */
  function WholeTick(s: System, local: set<Source>, fault: bool): System {
    var was := s.executor.status.latched != {};
    var status := Updated(s, local);
    s.(shared := Store(s.shared, status),
       executor := Executor(Idle, status, s.shared.generation),
       history := s.history + [status],
       log := s.log + CoreCalls(was, status.latched != {}, fault))
  }

  /** After the two loads of the update. */
  function Loaded(s: System, local: set<Source>): System {
    s.(executor := Executor(Publishing(s.executor.status.latched != {}, 0), Updated(s, local), s.shared.generation))
  }

  /** After the two sequence increments and the four stores of the publication. */
  function PublishedState(s: System): System
    requires s.executor.pc.Publishing?
  {
    s.(shared := Store(s.shared, s.executor.status),
       executor := s.executor.(pc := Act(s.executor.pc.was)),
       history := s.history + [s.executor.status])
  }

  lemma OneTick(s: System, n: nat, local: set<Source>, fault: bool)
    requires n > 0
    ensures Run(s, Ticks(n, local, fault)) == Run(TickStep(s, local, fault), Ticks(n - 1, local, fault))
  {
    assert Ticks(n, local, fault)[1..] == Ticks(n - 1, local, fault);
  }

  lemma LoadSteps(s: System, local: set<Source>, fault: bool)
    requires s.executor.pc.Idle?
    ensures Run(s, Ticks(10, local, fault)) == Run(Loaded(s, local), Ticks(7, local, fault))
  {
    var s1 := TickStep(s, local, fault);
    var s2 := TickStep(s1, local, fault);
    OneTick(s, 10, local, fault);
    OneTick(s1, 9, local, fault);
    OneTick(s2, 8, local, fault);
  }

  lemma PublishSteps(s: System, local: set<Source>, fault: bool)
    requires s.executor.pc.Publishing? && s.executor.pc.stored == 0
    ensures Run(s, Ticks(7, local, fault)) == Run(PublishedState(s), Ticks(1, local, fault))
  {
    var s1 := TickStep(s, local, fault);
    var s2 := TickStep(s1, local, fault);
    var s3 := TickStep(s2, local, fault);
    var s4 := TickStep(s3, local, fault);
    var s5 := TickStep(s4, local, fault);
    OneTick(s, 7, local, fault);
    OneTick(s1, 6, local, fault);
    OneTick(s2, 5, local, fault);
    OneTick(s3, 4, local, fault);
    OneTick(s4, 3, local, fault);
    OneTick(s5, 2, local, fault);
    assert TickStep(s5, local, fault) == PublishedState(s);
  }

  lemma ActStep(s: System, local: set<Source>, fault: bool)
    requires s.executor.pc.Act?
    ensures Run(s, Ticks(1, local, fault)) == TickStep(s, local, fault)
  {
    OneTick(s, 1, local, fault);
    assert Ticks(0, local, fault) == [];
  }

  /** The ten steps, run back to back, are one whole update and its core call. */
  lemma UninterruptedTick(s: System, local: set<Source>, fault: bool)
    requires s.executor.pc.Idle?
    ensures Run(s, Ticks(10, local, fault)) == WholeTick(s, local, fault)
  {
    LoadSteps(s, local, fault);
    PublishSteps(Loaded(s, local), local, fault);
    ActStep(PublishedState(Loaded(s, local)), local, fault);
  }
}
