/** What one service call does to each channel, said of the state before and the
    backend's answers alone (src/IpcExecutorBridge.cpp 19-159). */
module IpcBridgeService {

  import opened Text
  import opened IpcBridge
  import opened IpcBridgeObject

  /** The value that waits: the one in the slot, or what has just been offered. */
  function Waiting<T>(slot: Option<T>, offer: Option<T>): Option<T> { if slot.Some? then slot else offer }

  /** Towards the peer: what waits goes into the ring if there is room, and else
      stays in the slot; a new offer is asked for only when the slot is empty. */
  ghost predicate Passed<T(!new)>(before: Outbound<T>, offer: Option<T>, after: Outbound<T>) {
    match Waiting(before.slot, offer)
    case None => after == before
    case Some(value) =>
      var offered := if before.slot.None? then before.offered + [value] else before.offered;
      if |before.ring.content| < before.ring.capacity then
        after == Outbound(None, Ring(before.ring.content + [value], before.ring.capacity),
                          offered, before.pushed + [value], before.delivered)
      else after == Outbound(Some(value), before.ring, offered, before.pushed, before.delivered)
  }

  function Head<T>(s: seq<T>): Option<T> { if s == [] then None else Some(s[0]) }

  /** The ring of an inbound channel after its head moved into an empty slot. */
  ghost predicate TookHead<T(!new)>(before: Inbound<T>, after: Inbound<T>) {
    && after.sent == before.sent && after.ring.capacity == before.ring.capacity
    && (if before.slot.None? && before.ring.content != [] then
          && before.ring.content == [before.ring.content[0]] + after.ring.content
          && after.popped == before.popped + [before.ring.content[0]]
        else after.ring.content == before.ring.content && after.popped == before.popped)
  }

  /** The outputs of a call: each channel passes on what waits, a completion
      that leaves is counted, and the policy will see the newest snapshot. */
  ghost predicate OutputsMean(s: State, a: Answers, n: State) {
    && Passed(s.events, a.event, n.events)
    && Passed(s.snapshots, a.snapshot, n.snapshots)
    && Passed(s.timings, a.timing, n.timings)
    && n.latest == (if s.snapshots.slot.None? && a.snapshot.Some? then a.snapshot.value else s.latest)
    && n.completedControls == s.completedControls + LeavingCompletions(s.events, a.event)
    && n == s.(events := n.events, snapshots := n.snapshots, timings := n.timings, latest := n.latest,
               completedControls := n.completedControls,
               history := s.history.(backendEvents := n.history.backendEvents, origins := n.history.origins))
    && (if s.events.slot.None? && a.event.Some? then
          && n.history.backendEvents == s.history.backendEvents + [a.event.value]
          && n.history.origins == s.history.origins + [FromBackend(a.event.value)]
        else n.history == s.history)
  }

  function LeavingCompletions(events: Outbound<Event>, offer: Option<Event>): nat {
    if |events.ring.content| < events.ring.capacity && Waiting(events.slot, offer).Some?
       && Waiting(events.slot, offer).value.RequestCompleted?
    then 1 else 0
  }

  /** A demand waits until it is answered: published or refused as invalid, but
      not while the backend is unavailable. */
  ghost predicate DemandMeans(s: State, a: Answers, n: State) {
    var waiting := Waiting(s.demand, a.demand);
    && n.demand == (if a.demandResult == DemandUnavailable then waiting else None)
    && n.history.demandsAnswered ==
         s.history.demandsAnswered + (if a.demandResult == DemandUnavailable then [] else SlotContent(waiting))
    && n.history.demandsTaken == s.history.demandsTaken + (if s.demand.None? then SlotContent(a.demand) else [])
  }

  /** The item the backend is offered: what waits, prepared once by the policy if there is one. */
  function Ready(s: State, a: Answers, item: Item): Item {
    if s.policy && !(s.items.slot.Some? && s.prepared) then a.rewritten else item
  }

  /** One item at a time: it is prepared once with the newest snapshot, offered on
      every call until the backend publishes it, or finds it invalid while no
      event waits; the peer then hears of the rejection by epoch and number. */
  ghost predicate ItemMeans(s: State, a: Answers, n: State) {
    var h, waiting := s.history, Waiting(s.items.slot, Head(s.items.ring.content));
    TookHead(s.items, n.items)
    && match waiting
       case None =>
         n.items.slot.None? && n.prepared == s.prepared && n.events == s.events
         && n.history.preparations == h.preparations && n.history.attempts == h.attempts
         && n.history.outcomes == h.outcomes && n.history.origins == h.origins
       case Some(item) =>
         var ready := Ready(s, a, item);
         && n.history.preparations == h.preparations +
              (if s.items.slot.Some? && s.prepared then [] else [Preparation(item, s.latest, ready)])
         && n.history.attempts == h.attempts + [Attempt(|h.outcomes|, ready, a.published)]
         && (if a.published == Published then
               && n.items.slot.None? && !n.prepared && n.events == s.events
               && n.history.outcomes == h.outcomes + [WasPublished(ready)] && n.history.origins == h.origins
             else if a.published == Invalid && s.events.slot.None? then
               && n.items.slot.None? && !n.prepared
               && n.events == s.events.(slot := n.events.slot, offered := n.events.offered)
               && n.events.slot.Some? && n.events.slot.value.ChunkRejected?
               && n.events.slot.value.epoch == ready.epoch && n.events.slot.value.chunk == ready.id
               && n.events.offered == s.events.offered + [n.events.slot.value]
               && n.history.outcomes == h.outcomes + [WasRejected(ready)]
               && n.history.origins == h.origins + [FromRejection(ready)]
             else
               && n.items.slot == Some(ready) && n.prepared && n.events == s.events
               && n.history.outcomes == h.outcomes && n.history.origins == h.origins)
  }

  /** A control waits until it is accepted. */
  ghost predicate ControlMeans(s: State, a: Answers, n: State) {
    var waiting := Waiting(s.controls.slot, Head(s.controls.ring.content));
    && TookHead(s.controls, n.controls)
    && n.controls.slot == (if a.controlAccepted then None else waiting)
    && n.history.submitted == s.history.submitted + (if a.controlAccepted then SlotContent(waiting) else [])
  }

  /** The inputs of a call. */
  ghost predicate InputsMean(s: State, a: Answers, n: State) {
    && DemandMeans(s, a, n) && ItemMeans(s, a, n) && ControlMeans(s, a, n)
    && n.snapshots == s.snapshots && n.timings == s.timings && n.latest == s.latest && n.policy == s.policy
    && n.completedControls == s.completedControls && n.history.backendEvents == s.history.backendEvents
  }

  lemma EventsPass(s: State, a: Answers)
    ensures var n := FlushEvent(TakeEvent(s, a.event));
            && Passed(s.events, a.event, n.events)
            && n.completedControls == s.completedControls + LeavingCompletions(s.events, a.event)
            && n == s.(events := n.events, completedControls := n.completedControls,
                       history := s.history.(backendEvents := n.history.backendEvents, origins := n.history.origins))
            && (if s.events.slot.None? && a.event.Some? then
                  && n.history.backendEvents == s.history.backendEvents + [a.event.value]
                  && n.history.origins == s.history.origins + [FromBackend(a.event.value)]
                else n.history == s.history)
  {}

  lemma SnapshotsPass(s: State, a: Answers)
    ensures var n := FlushSnapshot(TakeSnapshot(s, a.snapshot));
            && Passed(s.snapshots, a.snapshot, n.snapshots)
            && n.latest == (if s.snapshots.slot.None? && a.snapshot.Some? then a.snapshot.value else s.latest)
            && n == s.(snapshots := n.snapshots, latest := n.latest)
  {}

  lemma TimingsPass(s: State, a: Answers)
    ensures var n := FlushTiming(TakeTiming(s, a.timing));
            Passed(s.timings, a.timing, n.timings) && n == s.(timings := n.timings)
  {}

  /** The output stages do what they mean. */
  lemma OutputsFollow(s: State, a: Answers)
    ensures OutputsMean(s, a, PublishOutputsStages(s, a))
  {
    var s1 := FlushEvent(TakeEvent(s, a.event));
    var s2 := FlushSnapshot(TakeSnapshot(s1, a.snapshot));
    EventsPass(s, a);
    SnapshotsPass(s1, a);
    TimingsPass(s2, a);
    hide FlushEvent, TakeEvent, FlushSnapshot, TakeSnapshot, FlushTiming, TakeTiming, Passed, LeavingCompletions;
  }

  lemma DemandFollows(s: State, a: Answers)
    ensures var n := PublishDemand(TakeDemand(s, a.demand), a.demandResult);
            && DemandMeans(s, a, n)
            && n == s.(demand := n.demand, history := s.history.(demandsTaken := n.history.demandsTaken,
                                                                 demandsAnswered := n.history.demandsAnswered))
  {}

  lemma ItemFollows(s: State, a: Answers)
    requires s.prepared ==> s.items.slot.Some?
    ensures var n := TryPublish(PrepareItem(PopItem(s), a.rewritten), a.published);
            && ItemMeans(s, a, n)
            && n == s.(items := n.items, prepared := n.prepared, events := n.events,
                       history := s.history.(preparations := n.history.preparations, attempts := n.history.attempts,
                                             outcomes := n.history.outcomes, origins := n.history.origins))
  {
    var p := PopItem(s);
    assert TookHead(s.items, p.items);
    assert p.items.slot == Waiting(s.items.slot, Head(s.items.ring.content));
    var r := PrepareItem(p, a.rewritten);
    if p.items.slot.Some? {
      assert r.items.slot == Some(Ready(s, a, p.items.slot.value));
    }
  }

  lemma ControlFollows(s: State, a: Answers)
    ensures var n := SubmitControl(PopControl(s), a.controlAccepted);
            && ControlMeans(s, a, n)
            && n == s.(controls := n.controls, history := s.history.(submitted := n.history.submitted))
  {}

  /** The input stages do what they mean. */
  lemma InputsFollow(s: State, a: Answers)
    requires s.prepared ==> s.items.slot.Some?
    ensures InputsMean(s, a, SubmitInputsStages(s, a))
  {
    var s1 := PublishDemand(TakeDemand(s, a.demand), a.demandResult);
    var s2 := TryPublish(PrepareItem(PopItem(s1), a.rewritten), a.published);
    DemandFollows(s, a);
    ItemFollows(s1, a);
    ControlFollows(s2, a);
    hide PublishDemand, TakeDemand, TryPublish, PrepareItem, PopItem, SubmitControl, PopControl, TookHead;
  }

  /** A service call of a bridge after any run, and so every call of the object:
      the outputs, then, when it may consume, the inputs. */
  lemma ServiceMeans(policy: bool, capacity: nat -> nat, blank: Snapshot, steps: seq<Step>, consume: bool, a: Answers)
    ensures var s := Run(Initial(policy, capacity, blank), steps);
            var outputs := PublishOutputsStages(s, a);
            && OutputsMean(s, a, outputs)
            && (if consume then InputsMean(outputs, a, ServiceStages(s, consume, a)) else ServiceStages(s, consume, a) == outputs)
  {
    InitialIsOk(policy, capacity, blank);
    RunKeepsOk(Initial(policy, capacity, blank), steps);
    var s := Run(Initial(policy, capacity, blank), steps);
    OutputsFollow(s, a);
    OutputStagesKeepOk(s, a);
    InputsFollow(PublishOutputsStages(s, a), a);
  }
}
