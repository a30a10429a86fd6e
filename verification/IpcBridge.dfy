/** The executor side of the IPC bridge: single pending slots between bounded
    rings and a backend that may answer anything (src/IpcExecutorBridge.cpp
    19-159). The peer process acts on the rings between any two stages. */
module IpcBridge {

  import opened Text

  datatype Item = Item(epoch: nat, id: nat, payload: int)

  datatype Event =
    | ChunkRejected(epoch: nat, chunk: nat)
    | RequestCompleted(request: nat, succeeded: bool)
    | OtherEvent(code: int)

  datatype Snapshot = Snapshot(content: int)

  datatype Timing = Timing(content: int)

  datatype Control = Control(request: nat, content: int)

  datatype Demand = Demand(generation: nat, content: int)

  datatype PublishResult = Published | Full | Invalid

  datatype DemandPublishResult = DemandPublished | DemandInvalid | DemandUnavailable

  // ----- channels

  datatype Ring<T> = Ring(content: seq<T>, capacity: nat) {
    predicate HasRoom() { |content| < capacity }

    function Pushed(value: T): Ring<T> { this.(content := content + [value]) }

    function Popped(): Ring<T>
      requires content != []
    {
      this.(content := content[1..])
    }
  }

  /** Backend to peer: what entered the slot, what the bridge pushed, what the
      peer has popped. */
  datatype Outbound<T> = Outbound(slot: Option<T>, ring: Ring<T>, offered: seq<T>, pushed: seq<T>, delivered: seq<T>) {
    function Offer(value: T): Outbound<T> { this.(slot := Some(value), offered := offered + [value]) }

    predicate CanFlush() { slot.Some? && ring.HasRoom() }

    function Flush(): Outbound<T>
      requires CanFlush()
    {
      this.(slot := None, ring := ring.Pushed(slot.value), pushed := pushed + [slot.value])
    }

    function Deliver(): Outbound<T> {
      if ring.content == [] then this
      else this.(ring := ring.Popped(), delivered := delivered + [ring.content[0]])
    }

    /** Nothing is lost, duplicated or reordered on the way to the peer. */
    ghost predicate Conserves() {
      && |ring.content| <= ring.capacity
      && pushed == delivered + ring.content
      && offered == pushed + SlotContent(slot)
    }
  }

  function SlotContent<T>(slot: Option<T>): seq<T> { if slot.Some? then [slot.value] else [] }

  /** Peer to backend: what the peer pushed and what the bridge popped. */
  datatype Inbound<T> = Inbound(slot: Option<T>, ring: Ring<T>, sent: seq<T>, popped: seq<T>) {
    function Send(value: T): Inbound<T> {
      if ring.HasRoom() then this.(ring := ring.Pushed(value), sent := sent + [value]) else this
    }

    predicate CanTake() { slot.None? && ring.content != [] }

    function Take(): Inbound<T>
      requires CanTake()
    {
      this.(slot := Some(ring.content[0]), ring := ring.Popped(), popped := popped + [ring.content[0]])
    }

    ghost predicate Conserves() {
      && |ring.content| <= ring.capacity
      && sent == popped + ring.content
    }
  }

  // ----- state and history

  /** Where an event that entered the slot came from. */
  datatype Origin = FromBackend(event: Event) | FromRejection(item: Item)

  datatype Outcome = WasPublished(item: Item) | WasRejected(item: Item)

  datatype Preparation = Preparation(raw: Item, snapshot: Snapshot, ready: Item)

  /** A call of tryPublish; `index` counts the items finished before it. */
  datatype Attempt = Attempt(index: nat, item: Item, result: PublishResult)

  datatype State = State(
    policy: bool,
    events: Outbound<Event>, snapshots: Outbound<Snapshot>, timings: Outbound<Timing>,
    items: Inbound<Item>, controls: Inbound<Control>,
    demand: Option<Demand>, latest: Snapshot, prepared: bool, completedControls: nat,
    history: History)

  datatype History = History(
    backendEvents: seq<Event>, origins: seq<Origin>,
    preparations: seq<Preparation>, attempts: seq<Attempt>, outcomes: seq<Outcome>,
    submitted: seq<Control>, demandsTaken: seq<Demand>, demandsAnswered: seq<Demand>)

  function Initial(policy: bool, capacity: nat -> nat, blank: Snapshot): State {
    State(policy,
          Outbound(None, Ring([], capacity(0)), [], [], []), Outbound(None, Ring([], capacity(1)), [], [], []),
          Outbound(None, Ring([], capacity(2)), [], [], []),
          Inbound(None, Ring([], capacity(3)), [], []), Inbound(None, Ring([], capacity(4)), [], []),
          None, blank, false, 0,
          History([], [], [], [], [], [], [], []))
  }

  // ----- publishOutputs

  function TakeEvent(s: State, answer: Option<Event>): State {
    if s.events.slot.None? && answer.Some? then
      s.(events := s.events.Offer(answer.value),
         history := s.history.(backendEvents := s.history.backendEvents + [answer.value],
                               origins := s.history.origins + [FromBackend(answer.value)]))
    else s
  }

  function FlushEvent(s: State): State {
    if s.events.CanFlush() then
      s.(events := s.events.Flush(),
         completedControls := s.completedControls + (if s.events.slot.value.RequestCompleted? then 1 else 0))
    else s
  }

  function TakeSnapshot(s: State, answer: Option<Snapshot>): State {
    if s.snapshots.slot.None? && answer.Some? then
      s.(snapshots := s.snapshots.Offer(answer.value), latest := answer.value)
    else s
  }

  function FlushSnapshot(s: State): State {
    if s.snapshots.CanFlush() then s.(snapshots := s.snapshots.Flush()) else s
  }

  function TakeTiming(s: State, answer: Option<Timing>): State {
    if s.timings.slot.None? && answer.Some? then s.(timings := s.timings.Offer(answer.value)) else s
  }

  function FlushTiming(s: State): State {
    if s.timings.CanFlush() then s.(timings := s.timings.Flush()) else s
  }

  // ----- submitInputs

  function TakeDemand(s: State, answer: Option<Demand>): State {
    if s.demand.None? && answer.Some? then
      s.(demand := answer, history := s.history.(demandsTaken := s.history.demandsTaken + [answer.value]))
    else s
  }

  function PublishDemand(s: State, result: DemandPublishResult): State {
    if s.demand.Some? && result != DemandUnavailable then
      s.(demand := None, history := s.history.(demandsAnswered := s.history.demandsAnswered + [s.demand.value]))
    else s
  }

  function PopItem(s: State): State {
    if s.items.CanTake() then s.(items := s.items.Take()) else s
  }

  /** The policy, when there is one, may rewrite the item; `rewritten` is its answer. */
  function PrepareItem(s: State, rewritten: Item): State {
    if s.items.slot.Some? && !s.prepared then
      var ready := if s.policy then rewritten else s.items.slot.value;
      s.(items := s.items.(slot := Some(ready)), prepared := true,
         history := s.history.(preparations :=
           s.history.preparations + [Preparation(s.items.slot.value, s.latest, ready)]))
    else s
  }

  function TryPublish(s: State, result: PublishResult): State {
    if s.items.slot.None? then s
    else
      var item := s.items.slot.value;
      var h := s.history.(attempts := s.history.attempts + [Attempt(|s.history.outcomes|, item, result)]);
      if result == Published then
        s.(items := s.items.(slot := None), prepared := false,
           history := h.(outcomes := h.outcomes + [WasPublished(item)]))
      else if result == Invalid && s.events.slot.None? then
        s.(items := s.items.(slot := None), prepared := false,
           events := s.events.Offer(ChunkRejected(item.epoch, item.id)),
           history := h.(outcomes := h.outcomes + [WasRejected(item)],
                         origins := h.origins + [FromRejection(item)]))
      else s.(history := h)
  }

  function PopControl(s: State): State {
    if s.controls.CanTake() then s.(controls := s.controls.Take()) else s
  }

  function SubmitControl(s: State, accepted: bool): State {
    if s.controls.slot.Some? && accepted then
      s.(controls := s.controls.(slot := None),
         history := s.history.(submitted := s.history.submitted + [s.controls.slot.value]))
    else s
  }

  // ----- steps of the bridge and of the peer

  datatype Answers = Answers(
    event: Option<Event>, snapshot: Option<Snapshot>, timing: Option<Timing>,
    demand: Option<Demand>, demandResult: DemandPublishResult,
    rewritten: Item, published: PublishResult, controlAccepted: bool)

  datatype Stage =
    | EventTaken | EventFlushed | SnapshotTaken | SnapshotFlushed | TimingTaken | TimingFlushed
    | Input(input: InputStage)

  datatype InputStage =
    | DemandTaken | DemandPublication | ItemPopped | ItemPrepared | ItemPublication
    | ControlPopped | ControlSubmission

  datatype PeerStep =
    | SendItem(item: Item)
    | SendControl(control: Control)
    | ReceiveEvent
    | ReceiveSnapshot
    | ReceiveTiming

  datatype Step = Bridge(stage: Stage, answers: Answers) | Peer(peer: PeerStep)

  function InputStep(s: State, stage: InputStage, a: Answers): State {
    match stage
    case DemandTaken => TakeDemand(s, a.demand)
    case DemandPublication => PublishDemand(s, a.demandResult)
    case ItemPopped => PopItem(s)
    case ItemPrepared => PrepareItem(s, a.rewritten)
    case ItemPublication => if s.prepared then TryPublish(s, a.published) else s
    case ControlPopped => PopControl(s)
    case ControlSubmission => SubmitControl(s, a.controlAccepted)
  }

  function BridgeStep(s: State, stage: Stage, a: Answers): State {
    match stage
    case EventTaken => TakeEvent(s, a.event)
    case EventFlushed => FlushEvent(s)
    case SnapshotTaken => TakeSnapshot(s, a.snapshot)
    case SnapshotFlushed => FlushSnapshot(s)
    case TimingTaken => TakeTiming(s, a.timing)
    case TimingFlushed => FlushTiming(s)
    case Input(input) => InputStep(s, input, a)
  }

  function PeerAction(s: State, step: PeerStep): State {
    match step
    case SendItem(item) => s.(items := s.items.Send(item))
    case SendControl(control) => s.(controls := s.controls.Send(control))
    case ReceiveEvent => s.(events := s.events.Deliver())
    case ReceiveSnapshot => s.(snapshots := s.snapshots.Deliver())
    case ReceiveTiming => s.(timings := s.timings.Deliver())
  }

  function Next(s: State, step: Step): State {
    match step
    case Bridge(stage, answers) => BridgeStep(s, stage, answers)
    case Peer(peer) => PeerAction(s, peer)
  }

  function Run(s: State, steps: seq<Step>): State
    decreases |steps|
  {
    if steps == [] then s else Run(Next(s, steps[0]), steps[1..])
  }

  // ----- what every run keeps

  function EventOf(origin: Origin): Event {
    match origin
    case FromBackend(event) => event
    case FromRejection(item) => ChunkRejected(item.epoch, item.id)
  }

  function EventsOf(origins: seq<Origin>): seq<Event>
    decreases |origins|
  {
    if origins == [] then []
    else EventsOf(origins[..|origins| - 1]) + [EventOf(origins[|origins| - 1])]
  }

  /** The backend's own events among the origins. */
  function BackendOf(origins: seq<Origin>): seq<Event>
    decreases |origins|
  {
    if origins == [] then []
    else
      var last := origins[|origins| - 1];
      BackendOf(origins[..|origins| - 1]) + (if last.FromBackend? then [last.event] else [])
  }

  /** The rejected items among the origins. */
  function RejectionsOf(origins: seq<Origin>): seq<Item>
    decreases |origins|
  {
    if origins == [] then []
    else
      var last := origins[|origins| - 1];
      RejectionsOf(origins[..|origins| - 1]) + (if last.FromRejection? then [last.item] else [])
  }

  function RejectedItems(outcomes: seq<Outcome>): seq<Item>
    decreases |outcomes|
  {
    if outcomes == [] then []
    else
      var last := outcomes[|outcomes| - 1];
      RejectedItems(outcomes[..|outcomes| - 1]) + (if last.WasRejected? then [last.item] else [])
  }

  function Completions(events: seq<Event>): nat
    decreases |events|
  {
    if events == [] then 0
    else Completions(events[..|events| - 1]) + (if events[|events| - 1].RequestCompleted? then 1 else 0)
  }

  /** Events: conserved, each with one origin, completions counted. */
  ghost predicate EventsOk(
    events: Outbound<Event>, backend: seq<Event>, origins: seq<Origin>, outcomes: seq<Outcome>, completed: nat)
  {
    && events.Conserves()
    && events.offered == EventsOf(origins)
    && BackendOf(origins) == backend
    && RejectionsOf(origins) == RejectedItems(outcomes)
    && completed == Completions(events.pushed)
  }

  /** Snapshots: conserved, and the policy is shown the latest one. */
  ghost predicate SnapshotsOk(snapshots: Outbound<Snapshot>, latest: Snapshot) {
    && snapshots.Conserves()
    && (snapshots.offered != [] ==> latest == snapshots.offered[|snapshots.offered| - 1])
  }

  /** Items: each popped item is prepared once, then finished once, in pop order. */
  ghost predicate ItemsOk(
    policy: bool, items: Inbound<Item>, prepared: bool, preparations: seq<Preparation>, outcomes: seq<Outcome>)
  {
    && items.Conserves()
    && (prepared ==> items.slot.Some?)
    && |items.popped| == |outcomes| + (if items.slot.Some? then 1 else 0)
    && |preparations| == |outcomes| + (if prepared then 1 else 0)
    && PreparedInOrder(policy, items.popped, preparations)
    && (forall i | 0 <= i < |outcomes| :: outcomes[i].item == preparations[i].ready)
    && (items.slot.Some? ==>
          items.slot.value == if prepared then preparations[|outcomes|].ready else items.popped[|outcomes|])
  }

  ghost predicate PreparedInOrder(policy: bool, popped: seq<Item>, preparations: seq<Preparation>) {
    && |preparations| <= |popped|
    && forall i | 0 <= i < |preparations| ::
         && preparations[i].raw == popped[i]
         && (!policy ==> preparations[i].ready == preparations[i].raw)
  }

  /** Publications: always of the prepared item, and never again after success. */
  ghost predicate AttemptsOk(preparations: seq<Preparation>, attempts: seq<Attempt>, outcomes: seq<Outcome>) {
    && |outcomes| <= |preparations|
    && (forall i | 0 <= i < |attempts| :: AttemptOk(preparations, attempts[i], outcomes))
    && (forall i, j | 0 <= i < j < |attempts| :: InSequence(attempts[i], attempts[j]))
    && (forall i | 0 <= i < |outcomes| :: Justified(attempts, i, outcomes[i]))
  }

  /** The backend answered so for the item finished at `index`. */
  ghost predicate Justified(attempts: seq<Attempt>, index: nat, outcome: Outcome) {
    exists k | 0 <= k < |attempts| ::
      attempts[k] == Attempt(index, outcome.item, if outcome.WasPublished? then Published else Invalid)
  }

  ghost predicate AttemptOk(preparations: seq<Preparation>, a: Attempt, outcomes: seq<Outcome>) {
    && a.index <= |outcomes| && a.index < |preparations|
    && a.item == preparations[a.index].ready
    && (a.result == Published ==> a.index < |outcomes| && outcomes[a.index] == WasPublished(a.item))
  }

  /** A later attempt is of the same item or a later one; of a later one after success. */
  ghost predicate InSequence(a: Attempt, b: Attempt) {
    if a.result == Published then a.index < b.index else a.index <= b.index
  }

  /** Controls and demands: each popped one is submitted or answered once, in order. */
  ghost predicate RequestsOk(controls: Inbound<Control>, submitted: seq<Control>) {
    controls.Conserves() && controls.popped == submitted + SlotContent(controls.slot)
  }

  ghost predicate DemandsOk(demand: Option<Demand>, taken: seq<Demand>, answered: seq<Demand>) {
    taken == answered + SlotContent(demand)
  }

  ghost predicate Conserving(s: State) {
    var h := s.history;
    && EventsOk(s.events, h.backendEvents, h.origins, h.outcomes, s.completedControls)
    && SnapshotsOk(s.snapshots, s.latest)
    && s.timings.Conserves()
    && ItemsOk(s.policy, s.items, s.prepared, h.preparations, h.outcomes)
    && AttemptsOk(h.preparations, h.attempts, h.outcomes)
    && RequestsOk(s.controls, h.submitted)
    && DemandsOk(s.demand, h.demandsTaken, h.demandsAnswered)
  }

  lemma Snoc<T>(s: seq<T>, x: T)
    ensures (s + [x])[..|s|] == s
  {}

  lemma FlushConserves<T>(c: Outbound<T>)
    requires c.Conserves() && c.CanFlush()
    ensures c.Flush().Conserves()
  {}

  lemma DeliverConserves<T>(c: Outbound<T>)
    requires c.Conserves()
    ensures c.Deliver().Conserves()
    ensures c.Deliver().offered == c.offered && c.Deliver().pushed == c.pushed
  {}

  lemma SendConserves<T>(c: Inbound<T>, value: T)
    requires c.Conserves()
    ensures c.Send(value).Conserves()
    ensures c.Send(value).popped == c.popped && c.Send(value).slot == c.slot
  {}

  lemma TakeConserves<T>(c: Inbound<T>)
    requires c.Conserves() && c.CanTake()
    ensures c.Take().Conserves()
  {}

  lemma TakeEventKeepsOk(s: State, answer: Option<Event>)
    requires Conserving(s)
    ensures Conserving(TakeEvent(s, answer))
  {
    hide SnapshotsOk, ItemsOk, AttemptsOk, DemandsOk, RequestsOk;
    if s.events.slot.None? && answer.Some? {
      var n := TakeEvent(s, answer);
      var h := n.history;
      Snoc(s.history.origins, FromBackend(answer.value));
      assert n.events.Conserves();
      assert EventsOk(n.events, h.backendEvents, h.origins, h.outcomes, n.completedControls);
    }
  }

  lemma FlushEventKeepsOk(s: State)
    requires Conserving(s)
    ensures Conserving(FlushEvent(s))
  {
    hide SnapshotsOk, ItemsOk, AttemptsOk, DemandsOk, RequestsOk;
    if s.events.CanFlush() {
      var n := FlushEvent(s);
      FlushConserves(s.events);
      Snoc(s.events.pushed, s.events.slot.value);
      assert EventsOk(n.events, n.history.backendEvents, n.history.origins, n.history.outcomes, n.completedControls);
    }
  }

  lemma SnapshotStagesKeepOk(s: State, snapshot: Option<Snapshot>)
    requires Conserving(s)
    ensures Conserving(TakeSnapshot(s, snapshot)) && Conserving(FlushSnapshot(s))
  {
    hide EventsOk, ItemsOk, AttemptsOk, DemandsOk, RequestsOk;
    assert SnapshotsOk(TakeSnapshot(s, snapshot).snapshots, TakeSnapshot(s, snapshot).latest);
    if s.snapshots.CanFlush() { FlushConserves(s.snapshots); }
  }

  lemma TimingStagesKeepOk(s: State, timing: Option<Timing>)
    requires Conserving(s)
    ensures Conserving(TakeTiming(s, timing)) && Conserving(FlushTiming(s))
  {
    hide EventsOk, SnapshotsOk, ItemsOk, AttemptsOk, DemandsOk, RequestsOk;
    assert TakeTiming(s, timing).timings.Conserves();
    if s.timings.CanFlush() { FlushConserves(s.timings); }
  }

  lemma DemandStagesKeepOk(s: State, a: Answers)
    requires Conserving(s)
    ensures Conserving(TakeDemand(s, a.demand)) && Conserving(PublishDemand(s, a.demandResult))
  {
    hide EventsOk, SnapshotsOk, ItemsOk, AttemptsOk, RequestsOk;
    var n, p := TakeDemand(s, a.demand), PublishDemand(s, a.demandResult);
    assert DemandsOk(n.demand, n.history.demandsTaken, n.history.demandsAnswered);
    assert DemandsOk(p.demand, p.history.demandsTaken, p.history.demandsAnswered);
  }

  lemma PopControlKeepsOk(s: State)
    requires Conserving(s)
    ensures Conserving(PopControl(s))
  {
    hide EventsOk, SnapshotsOk, ItemsOk, AttemptsOk, DemandsOk;
    if s.controls.CanTake() {
      TakeConserves(s.controls);
      assert RequestsOk(s.controls.Take(), s.history.submitted);
    }
  }

  lemma SubmitControlKeepsOk(s: State, accepted: bool)
    requires Conserving(s)
    ensures Conserving(SubmitControl(s, accepted))
  {
    hide EventsOk, SnapshotsOk, ItemsOk, AttemptsOk, DemandsOk;
    if s.controls.slot.Some? && accepted {
      assert RequestsOk(s.controls.(slot := None), s.history.submitted + [s.controls.slot.value]);
    }
  }

  lemma PopItemKeepsOk(s: State)
    requires Conserving(s)
    ensures Conserving(PopItem(s))
  {
    if s.items.CanTake() {
      TakeConserves(s.items);
      assert ItemsOk(s.policy, s.items.Take(), s.prepared, s.history.preparations, s.history.outcomes);
    }
  }

  lemma PrepareItemKeepsOk(s: State, rewritten: Item)
    requires Conserving(s)
    ensures Conserving(PrepareItem(s, rewritten))
  {
    if s.items.slot.Some? && !s.prepared {
      var h := s.history;
      var ready := if s.policy then rewritten else s.items.slot.value;
      var p := Preparation(s.items.slot.value, s.latest, ready);
      PreparationKeepsItems(s.policy, s.items, h.preparations, h.outcomes, p);
      PreparationKeepsAttempts(h.preparations, h.attempts, h.outcomes, p);
    }
  }

  lemma PreparationKeepsItems(
    policy: bool, items: Inbound<Item>, preparations: seq<Preparation>, outcomes: seq<Outcome>, p: Preparation)
    requires ItemsOk(policy, items, false, preparations, outcomes) && items.slot == Some(p.raw)
    requires !policy ==> p.ready == p.raw
    ensures ItemsOk(policy, items.(slot := Some(p.ready)), true, preparations + [p], outcomes)
  {}

  lemma PreparationKeepsAttempts(
    preparations: seq<Preparation>, attempts: seq<Attempt>, outcomes: seq<Outcome>, p: Preparation)
    requires AttemptsOk(preparations, attempts, outcomes)
    ensures AttemptsOk(preparations + [p], attempts, outcomes)
  {
    forall i | 0 <= i < |attempts| ensures AttemptOk(preparations + [p], attempts[i], outcomes) {
      assert AttemptOk(preparations, attempts[i], outcomes);
    }
  }

  /** A finished item leaves the slot; the next item, if any, is unprepared. */
  lemma FinishKeepsItems(
    policy: bool, items: Inbound<Item>, preparations: seq<Preparation>, outcomes: seq<Outcome>, last: Outcome)
    requires ItemsOk(policy, items, true, preparations, outcomes) && last.item == items.slot.value
    ensures ItemsOk(policy, items.(slot := None), false, preparations, outcomes + [last])
  {}

  lemma AttemptKeepsOrder(
    preparations: seq<Preparation>, attempts: seq<Attempt>, outcomes: seq<Outcome>, a: Attempt, after: seq<Outcome>)
    requires AttemptsOk(preparations, attempts, outcomes)
    requires a.index == |outcomes| && outcomes <= after && |after| <= |preparations| && AttemptOk(preparations, a, after)
    requires |after| <= |outcomes| + 1
    requires after != outcomes ==>
               a == Attempt(|outcomes|, after[|outcomes|].item, if after[|outcomes|].WasPublished? then Published else Invalid)
    ensures AttemptsOk(preparations, attempts + [a], after)
  {
    var all := attempts + [a];
    forall i | 0 <= i < |all| ensures AttemptOk(preparations, all[i], after) {
      if i < |attempts| { assert AttemptOk(preparations, attempts[i], outcomes); }
    }
    forall i, j | 0 <= i < j < |all| ensures InSequence(all[i], all[j]) {
      if j < |attempts| { assert InSequence(attempts[i], attempts[j]); }
      else { assert AttemptOk(preparations, attempts[i], outcomes); }
    }
    forall i | 0 <= i < |after| ensures Justified(all, i, after[i]) {
      if i < |outcomes| {
        assert Justified(attempts, i, outcomes[i]);
        var k :| 0 <= k < |attempts| &&
          attempts[k] == Attempt(i, outcomes[i].item, if outcomes[i].WasPublished? then Published else Invalid);
        assert all[k] == attempts[k];
      } else {
        assert all[|attempts|] == a;
      }
    }
  }

  lemma RejectionKeepsEvents(
    events: Outbound<Event>, backend: seq<Event>, origins: seq<Origin>, outcomes: seq<Outcome>, completed: nat, item: Item)
    requires EventsOk(events, backend, origins, outcomes, completed) && events.slot.None?
    ensures EventsOk(events.Offer(ChunkRejected(item.epoch, item.id)), backend, origins + [FromRejection(item)],
                     outcomes + [WasRejected(item)], completed)
  {
    Snoc(origins, FromRejection(item));
    Snoc(outcomes, WasRejected(item));
  }

  lemma PublishedKeepsOk(s: State)
    requires Conserving(s) && s.prepared
    ensures Conserving(TryPublish(s, Published))
  {
    var h := s.history;
    var outcome := WasPublished(s.items.slot.value);
    FinishKeepsItems(s.policy, s.items, h.preparations, h.outcomes, outcome);
    AttemptKeepsOrder(h.preparations, h.attempts, h.outcomes,
                      Attempt(|h.outcomes|, outcome.item, Published), h.outcomes + [outcome]);
    Snoc(h.outcomes, outcome);
    assert EventsOk(s.events, h.backendEvents, h.origins, h.outcomes + [outcome], s.completedControls);
  }

  lemma RejectedKeepsOk(s: State)
    requires Conserving(s) && s.prepared && s.events.slot.None?
    ensures Conserving(TryPublish(s, Invalid))
  {
    var h := s.history;
    var outcome := WasRejected(s.items.slot.value);
    FinishKeepsItems(s.policy, s.items, h.preparations, h.outcomes, outcome);
    AttemptKeepsOrder(h.preparations, h.attempts, h.outcomes,
                      Attempt(|h.outcomes|, outcome.item, Invalid), h.outcomes + [outcome]);
    RejectionKeepsEvents(s.events, h.backendEvents, h.origins, h.outcomes, s.completedControls, outcome.item);
  }

  lemma WaitingKeepsOk(s: State, result: PublishResult)
    requires Conserving(s) && s.prepared && result != Published && (result == Invalid ==> s.events.slot.Some?)
    ensures Conserving(TryPublish(s, result))
  {
    var h := s.history;
    AttemptKeepsOrder(h.preparations, h.attempts, h.outcomes,
                      Attempt(|h.outcomes|, s.items.slot.value, result), h.outcomes);
  }

  lemma TryPublishKeepsOk(s: State, result: PublishResult)
    requires Conserving(s) && s.prepared
    ensures Conserving(TryPublish(s, result))
  {
    if result == Published {
      PublishedKeepsOk(s);
    } else if result == Invalid && s.events.slot.None? {
      RejectedKeepsOk(s);
    } else {
      WaitingKeepsOk(s, result);
    }
  }

  lemma PeerKeepsOk(s: State, step: PeerStep)
    requires Conserving(s)
    ensures Conserving(PeerAction(s, step))
  {
    match step
    case SendItem(item) => SendConserves(s.items, item);
    case SendControl(control) => SendConserves(s.controls, control);
    case ReceiveEvent => DeliverConserves(s.events);
    case ReceiveSnapshot => DeliverConserves(s.snapshots);
    case ReceiveTiming => DeliverConserves(s.timings);
  }

  lemma InputKeepsOk(s: State, stage: InputStage, a: Answers)
    requires Conserving(s)
    ensures Conserving(InputStep(s, stage, a))
  {
    match stage
    case ItemPopped => PopItemKeepsOk(s);
    case ItemPrepared => PrepareItemKeepsOk(s, a.rewritten);
    case ItemPublication => if s.prepared { TryPublishKeepsOk(s, a.published); }
    case ControlPopped => PopControlKeepsOk(s);
    case ControlSubmission => SubmitControlKeepsOk(s, a.controlAccepted);
    case _ => DemandStagesKeepOk(s, a);
  }

  lemma NextKeepsOk(s: State, step: Step)
    requires Conserving(s)
    ensures Conserving(Next(s, step))
  {
    match step
    case Bridge(stage, a) => {
      match stage
      case EventTaken => TakeEventKeepsOk(s, a.event);
      case EventFlushed => FlushEventKeepsOk(s);
      case Input(input) => InputKeepsOk(s, input, a);
      case SnapshotTaken => SnapshotStagesKeepOk(s, a.snapshot);
      case SnapshotFlushed => SnapshotStagesKeepOk(s, a.snapshot);
      case _ => TimingStagesKeepOk(s, a.timing);
    }
    case Peer(peer) => PeerKeepsOk(s, peer);
  }

  lemma {:induction false} RunKeepsOk(s: State, steps: seq<Step>)
    requires Conserving(s)
    ensures Conserving(Run(s, steps))
    decreases |steps|
  {
    if steps != [] {
      NextKeepsOk(s, steps[0]);
      RunKeepsOk(Next(s, steps[0]), steps[1..]);
    }
  }

  // ----- main results

  lemma InitialIsOk(policy: bool, capacity: nat -> nat, blank: Snapshot)
    ensures Conserving(Initial(policy, capacity, blank))
  {}

  /** Events, over every run: what the peer has received, then what waits in the
      ring, then the pending slot are exactly the backend's events and the
      rejections, each once, in the order they occurred; and the completion
      count is the number of completions pushed. */
  lemma EventsReachThePeer(policy: bool, capacity: nat -> nat, blank: Snapshot, steps: seq<Step>)
    ensures var s := Run(Initial(policy, capacity, blank), steps);
            && s.events.delivered + s.events.ring.content + SlotContent(s.events.slot) == EventsOf(s.history.origins)
            && BackendOf(s.history.origins) == s.history.backendEvents
            && RejectionsOf(s.history.origins) == RejectedItems(s.history.outcomes)
            && s.completedControls == Completions(s.events.delivered + s.events.ring.content)
            && |s.events.ring.content| <= s.events.ring.capacity
  {
    InitialIsOk(policy, capacity, blank);
    RunKeepsOk(Initial(policy, capacity, blank), steps);
  }

  /** Items, over every run: the items sent are, in order, those finished, then
      at most one pending, then those in the ring; the i-th finished item is the
      i-th sent one as the policy prepared it, once, before its first
      publication attempt; without a policy it is the sent item itself. */
  lemma ItemsFinishInOrder(policy: bool, capacity: nat -> nat, blank: Snapshot, steps: seq<Step>)
    ensures var s := Run(Initial(policy, capacity, blank), steps);
            var h := s.history;
            && s.items.sent == s.items.popped + s.items.ring.content
            && |s.items.popped| == |h.outcomes| + |SlotContent(s.items.slot)|
            && |h.preparations| == |h.outcomes| + (if s.prepared then 1 else 0) <= |s.items.sent|
            && (forall i | 0 <= i < |h.preparations| :: h.preparations[i].raw == s.items.sent[i])
            && (forall i | 0 <= i < |h.outcomes| :: h.outcomes[i].item == h.preparations[i].ready)
            && (!policy ==> forall i | 0 <= i < |h.outcomes| :: h.outcomes[i].item == s.items.sent[i])
            && (forall i | 0 <= i < |h.attempts| ::
                  h.attempts[i].index < |h.preparations|
                  && h.attempts[i].item == h.preparations[h.attempts[i].index].ready)
  {
    InitialIsOk(policy, capacity, blank);
    RunKeepsOk(Initial(policy, capacity, blank), steps);
    RunKeepsPolicy(Initial(policy, capacity, blank), steps);
    var s := Run(Initial(policy, capacity, blank), steps);
    assert forall i | 0 <= i < |s.history.attempts| ::
        AttemptOk(s.history.preparations, s.history.attempts[i], s.history.outcomes);
  }

  lemma {:induction false} RunKeepsPolicy(s: State, steps: seq<Step>)
    ensures Run(s, steps).policy == s.policy
    decreases |steps|
  {
    if steps != [] {
      RunKeepsPolicy(Next(s, steps[0]), steps[1..]);
    }
  }

  /** An item finished as published was accepted by the backend exactly once, one
      finished as rejected never. */
  lemma PublishedExactlyOnce(policy: bool, capacity: nat -> nat, blank: Snapshot, steps: seq<Step>, i: nat)
    requires i < |Run(Initial(policy, capacity, blank), steps).history.outcomes|
    ensures var h := Run(Initial(policy, capacity, blank), steps).history;
            && (h.outcomes[i].WasPublished? <==> exists k | 0 <= k < |h.attempts| :: Succeeded(h.attempts[k], i))
            && (forall j, k | 0 <= j < |h.attempts| && 0 <= k < |h.attempts|
                              && Succeeded(h.attempts[j], i) && Succeeded(h.attempts[k], i) :: j == k)
  {
    InitialIsOk(policy, capacity, blank);
    RunKeepsOk(Initial(policy, capacity, blank), steps);
    var h := Run(Initial(policy, capacity, blank), steps).history;
    forall j, k | 0 <= j < k < |h.attempts| && Succeeded(h.attempts[j], i)
      ensures !Succeeded(h.attempts[k], i)
    {
      assert InSequence(h.attempts[j], h.attempts[k]);
    }
    forall k | 0 <= k < |h.attempts| && Succeeded(h.attempts[k], i) ensures h.outcomes[i].WasPublished? {
      assert AttemptOk(h.preparations, h.attempts[k], h.outcomes);
    }
    assert Justified(h.attempts, i, h.outcomes[i]);
    var k :| 0 <= k < |h.attempts| &&
      h.attempts[k] == Attempt(i, h.outcomes[i].item, if h.outcomes[i].WasPublished? then Published else Invalid);
    assert h.outcomes[i].WasPublished? ==> Succeeded(h.attempts[k], i);
  }

  predicate Succeeded(a: Attempt, i: nat) { a.index == i && a.result == Published }
}
