/** The bridge object: its pending slots and the rings of the shared region,
    updated in place (src/IpcExecutorBridge.cpp 19-159). */
module IpcBridgeObject {

  import opened Text
  import opened IpcBridge

  // ----- one service call as stages of the model

  function PublishOutputsStages(s: State, a: Answers): State {
    var events := FlushEvent(TakeEvent(s, a.event));
    var snapshots := FlushSnapshot(TakeSnapshot(events, a.snapshot));
    FlushTiming(TakeTiming(snapshots, a.timing))
  }

  function SubmitInputsStages(s: State, a: Answers): State {
    var demands := PublishDemand(TakeDemand(s, a.demand), a.demandResult);
    var items := TryPublish(PrepareItem(PopItem(demands), a.rewritten), a.published);
    SubmitControl(PopControl(items), a.controlAccepted)
  }

  function ServiceStages(s: State, consume: bool, a: Answers): State {
    var outputs := PublishOutputsStages(s, a);
    if consume then SubmitInputsStages(outputs, a) else outputs
  }

  /** The moves a service call reports: everything taken, pushed, answered,
      finished or submitted so far. */
  function OutputMoves(s: State): nat {
    |s.events.pushed| + |s.history.backendEvents|
    + |s.snapshots.offered| + |s.snapshots.pushed| + |s.timings.offered| + |s.timings.pushed|
  }

  function InputMoves(s: State): nat {
    |s.history.demandsTaken| + |s.history.demandsAnswered| + |s.items.popped| + |s.history.outcomes|
    + |s.controls.popped| + |s.history.submitted|
  }

  lemma OutputStagesKeepOk(s: State, a: Answers)
    requires Conserving(s)
    ensures Conserving(PublishOutputsStages(s, a))
  {
    var s1 := TakeEvent(s, a.event);
    TakeEventKeepsOk(s, a.event);
    FlushEventKeepsOk(s1);
    var s2 := FlushEvent(s1);
    SnapshotStagesKeepOk(s2, a.snapshot);
    SnapshotStagesKeepOk(TakeSnapshot(s2, a.snapshot), a.snapshot);
    var s3 := FlushSnapshot(TakeSnapshot(s2, a.snapshot));
    TimingStagesKeepOk(s3, a.timing);
    TimingStagesKeepOk(TakeTiming(s3, a.timing), a.timing);
  }

  lemma DemandsKeepOk(s: State, a: Answers)
    requires Conserving(s)
    ensures Conserving(PublishDemand(TakeDemand(s, a.demand), a.demandResult))
  {
    DemandStagesKeepOk(s, a);
    DemandStagesKeepOk(TakeDemand(s, a.demand), a);
  }

  lemma ItemStagesKeepOk(s: State, a: Answers)
    requires Conserving(s)
    ensures Conserving(TryPublish(PrepareItem(PopItem(s), a.rewritten), a.published))
  {
    PopItemKeepsOk(s);
    PrepareItemKeepsOk(PopItem(s), a.rewritten);
    var s1 := PrepareItem(PopItem(s), a.rewritten);
    if s1.items.slot.Some? {
      TryPublishKeepsOk(s1, a.published);
    }
  }

  lemma InputStagesKeepOk(s: State, a: Answers)
    requires Conserving(s)
    ensures Conserving(SubmitInputsStages(s, a))
  {
    DemandsKeepOk(s, a);
    var s1 := PublishDemand(TakeDemand(s, a.demand), a.demandResult);
    ItemStagesKeepOk(s1, a);
    var s2 := TryPublish(PrepareItem(PopItem(s1), a.rewritten), a.published);
    PopControlKeepsOk(s2);
    SubmitControlKeepsOk(PopControl(s2), a.controlAccepted);
  }

  function OutputSteps(a: Answers): seq<Step> {
    [Bridge(EventTaken, a), Bridge(EventFlushed, a), Bridge(SnapshotTaken, a), Bridge(SnapshotFlushed, a),
     Bridge(TimingTaken, a), Bridge(TimingFlushed, a)]
  }

  function DemandSteps(a: Answers): seq<Step> {
    [Bridge(Input(DemandTaken), a), Bridge(Input(DemandPublication), a)]
  }

  function ItemSteps(a: Answers): seq<Step> {
    [Bridge(Input(ItemPopped), a), Bridge(Input(ItemPrepared), a), Bridge(Input(ItemPublication), a)]
  }

  function ControlSteps(a: Answers): seq<Step> {
    [Bridge(Input(ControlPopped), a), Bridge(Input(ControlSubmission), a)]
  }

  function InputSteps(a: Answers): seq<Step> { DemandSteps(a) + (ItemSteps(a) + ControlSteps(a)) }

  lemma OneStep(s: State, steps: seq<Step>)
    requires steps != []
    ensures Run(s, steps) == Run(Next(s, steps[0]), steps[1..])
  {}

  lemma OutputsAreARun(s: State, a: Answers, rest: seq<Step>)
    ensures Run(s, OutputSteps(a) + rest) == Run(PublishOutputsStages(s, a), rest)
  {
    var steps := OutputSteps(a) + rest;
    var s2 := FlushEvent(TakeEvent(s, a.event));
    var s4 := FlushSnapshot(TakeSnapshot(s2, a.snapshot));
    OneStep(s, steps);
    OneStep(TakeEvent(s, a.event), steps[1..]);
    OneStep(s2, steps[2..]);
    OneStep(TakeSnapshot(s2, a.snapshot), steps[3..]);
    OneStep(s4, steps[4..]);
    OneStep(TakeTiming(s4, a.timing), steps[5..]);
    assert steps[6..] == rest;
  }

  lemma DemandsAreARun(s: State, a: Answers, rest: seq<Step>)
    ensures Run(s, DemandSteps(a) + rest) == Run(PublishDemand(TakeDemand(s, a.demand), a.demandResult), rest)
  {
    var steps := DemandSteps(a) + rest;
    OneStep(s, steps);
    OneStep(TakeDemand(s, a.demand), steps[1..]);
    assert steps[2..] == rest;
  }

  lemma ItemsAreARun(s: State, a: Answers, rest: seq<Step>)
    ensures Run(s, ItemSteps(a) + rest) == Run(TryPublish(PrepareItem(PopItem(s), a.rewritten), a.published), rest)
  {
    var steps := ItemSteps(a) + rest;
    var s1 := PopItem(s);
    var s2 := PrepareItem(s1, a.rewritten);
    OneStep(s, steps);
    OneStep(s1, steps[1..]);
    PublicationIsGuarded(s2, a);
    OneStep(s2, steps[2..]);
    assert steps[3..] == rest;
  }

  lemma ControlsAreARun(s: State, a: Answers)
    ensures Run(s, ControlSteps(a)) == SubmitControl(PopControl(s), a.controlAccepted)
  {
    var steps := ControlSteps(a);
    OneStep(s, steps);
    OneStep(PopControl(s), steps[1..]);
    assert steps[2..] == [];
  }

  lemma InputsAreARun(s: State, a: Answers)
    ensures Run(s, InputSteps(a)) == SubmitInputsStages(s, a)
  {
    var s1 := PublishDemand(TakeDemand(s, a.demand), a.demandResult);
    var s2 := TryPublish(PrepareItem(PopItem(s1), a.rewritten), a.published);
    DemandsAreARun(s, a, ItemSteps(a) + ControlSteps(a));
    ItemsAreARun(s1, a, ControlSteps(a));
    ControlsAreARun(s2, a);
  }

  /** After preparation a pending item is prepared, so the model's guard on
      publication agrees with the code, which has none. */
  lemma PublicationIsGuarded(s: State, a: Answers)
    requires s.items.slot.Some? ==> s.prepared
    ensures InputStep(s, ItemPublication, a) == TryPublish(s, a.published)
  {}

  /** A service call is one run of the interleaved model, so what every run
      keeps, every sequence of calls keeps. */
  lemma ServiceIsARun(s: State, consume: bool, a: Answers)
    ensures ServiceStages(s, consume, a) == Run(s, OutputSteps(a) + if consume then InputSteps(a) else [])
  {
    OutputsAreARun(s, a, if consume then InputSteps(a) else []);
    InputsAreARun(PublishOutputsStages(s, a), a);
  }

  // ----- the object

  class IpcExecutorBridge {
    const hasPolicy: bool
    var pendingEvent: Option<Event>
    var pendingSnapshot: Option<Snapshot>
    var pendingTiming: Option<Timing>
    var pendingDemand: Option<Demand>
    var pendingItem: Option<Item>
    var pendingControl: Option<Control>
    var pendingItemPrepared: bool
    var latestSnapshot: Snapshot
    var completedControls: nat

    var eventRing: Ring<Event>
    var snapshotRing: Ring<Snapshot>
    var timingRing: Ring<Timing>
    var itemRing: Ring<Item>
    var controlRing: Ring<Control>

    /** The object with the history of its run. */
    ghost var model: State

    ghost predicate Represents()
      reads this
    {
      model.policy == hasPolicy && ModelsOutputs() && ModelsInputs()
    }

    ghost predicate Valid()
      reads this
    {
      Represents() && Conserving(model)
    }

    ghost predicate ModelsOutputs()
      reads this
    {
      && model.events.slot == pendingEvent && model.events.ring == eventRing
      && model.snapshots.slot == pendingSnapshot && model.snapshots.ring == snapshotRing
      && model.timings.slot == pendingTiming && model.timings.ring == timingRing
      && model.latest == latestSnapshot && model.completedControls == completedControls
    }

    ghost predicate ModelsInputs()
      reads this
    {
      && model.demand == pendingDemand
      && model.items.slot == pendingItem && model.items.ring == itemRing && model.prepared == pendingItemPrepared
      && model.controls.slot == pendingControl && model.controls.ring == controlRing
    }

    constructor (policy: bool, capacity: nat -> nat, blank: Snapshot)
      ensures Valid() && model == Initial(policy, capacity, blank)
    {
      hasPolicy := policy;
      pendingEvent, pendingSnapshot, pendingTiming := None, None, None;
      pendingDemand, pendingItem, pendingControl := None, None, None;
      pendingItemPrepared, latestSnapshot, completedControls := false, blank, 0;
      eventRing, snapshotRing, timingRing := Ring([], capacity(0)), Ring([], capacity(1)), Ring([], capacity(2));
      itemRing, controlRing := Ring([], capacity(3)), Ring([], capacity(4));
      model := Initial(policy, capacity, blank);
      InitialIsOk(policy, capacity, blank);
    }

    method PublishEvent(a: Answers) returns (progressed: bool)
      requires Represents()
      modifies this`pendingEvent, this`eventRing, this`completedControls, this`model
      ensures model == FlushEvent(TakeEvent(old(model), a.event))
      ensures Represents()
      ensures OutputMoves(model) >= OutputMoves(old(model)) && (progressed <==> OutputMoves(model) > OutputMoves(old(model)))
    {
      progressed := false;
      ghost var taken := TakeEvent(model, a.event);
      if pendingEvent.None? {
        if a.event.Some? {
          pendingEvent := a.event;
          progressed := true;
        }
      }
      ghost var flushed := FlushEvent(taken);
      if pendingEvent.Some? && eventRing.HasRoom() {
        eventRing := eventRing.Pushed(pendingEvent.value);
        if pendingEvent.value.RequestCompleted? {
          completedControls := completedControls + 1;
        }
        pendingEvent := None;
        progressed := true;
      }
      model := flushed;
    }

    method PublishSnapshot(a: Answers) returns (progressed: bool)
      requires Represents()
      modifies this`pendingSnapshot, this`snapshotRing, this`latestSnapshot, this`model
      ensures model == FlushSnapshot(TakeSnapshot(old(model), a.snapshot))
      ensures Represents()
      ensures OutputMoves(model) >= OutputMoves(old(model)) && (progressed <==> OutputMoves(model) > OutputMoves(old(model)))
    {
      progressed := false;
      ghost var taken := TakeSnapshot(model, a.snapshot);
      if pendingSnapshot.None? {
        if a.snapshot.Some? {
          latestSnapshot := a.snapshot.value;
          pendingSnapshot := a.snapshot;
          progressed := true;
        }
      }
      ghost var flushed := FlushSnapshot(taken);
      if pendingSnapshot.Some? && snapshotRing.HasRoom() {
        snapshotRing := snapshotRing.Pushed(pendingSnapshot.value);
        pendingSnapshot := None;
        progressed := true;
      }
      model := flushed;
    }

    method PublishTiming(a: Answers) returns (progressed: bool)
      requires Represents()
      modifies this`pendingTiming, this`timingRing, this`model
      ensures model == FlushTiming(TakeTiming(old(model), a.timing))
      ensures Represents()
      ensures OutputMoves(model) >= OutputMoves(old(model)) && (progressed <==> OutputMoves(model) > OutputMoves(old(model)))
    {
      progressed := false;
      ghost var taken := TakeTiming(model, a.timing);
      if pendingTiming.None? {
        if a.timing.Some? {
          pendingTiming := a.timing;
          progressed := true;
        }
      }
      ghost var flushed := FlushTiming(taken);
      if pendingTiming.Some? && timingRing.HasRoom() {
        timingRing := timingRing.Pushed(pendingTiming.value);
        pendingTiming := None;
        progressed := true;
      }
      model := flushed;
    }

    method SubmitDemand(a: Answers) returns (progressed: bool)
      requires Represents()
      modifies this`pendingDemand, this`model
      ensures model == PublishDemand(TakeDemand(old(model), a.demand), a.demandResult)
      ensures Represents()
      ensures InputMoves(model) >= InputMoves(old(model)) && (progressed <==> InputMoves(model) > InputMoves(old(model)))
    {
      progressed := false;
      ghost var answered := PublishDemand(TakeDemand(model, a.demand), a.demandResult);
      if pendingDemand.None? {
        if a.demand.Some? {
          pendingDemand := a.demand;
          progressed := true;
        }
      }
      if pendingDemand.Some? {
        if a.demandResult != DemandUnavailable {
          pendingDemand := None;
          progressed := true;
        }
      }
      model := answered;
    }

    method TakeItem() returns (progressed: bool)
      requires Represents()
      modifies this`pendingItem, this`itemRing, this`model
      ensures model == PopItem(old(model))
      ensures Represents()
      ensures InputMoves(model) >= InputMoves(old(model)) && (progressed <==> InputMoves(model) > InputMoves(old(model)))
    {
      progressed := false;
      ghost var popped := PopItem(model);
      if pendingItem.None? {
        if itemRing.content != [] {
          pendingItem := Some(itemRing.content[0]);
          itemRing := itemRing.Popped();
          progressed := true;
        }
      }
      model := popped;
    }

    method PreparePendingItem(rewritten: Item)
      requires Represents()
      requires pendingItem.Some?
      modifies this`pendingItem, this`pendingItemPrepared, this`model
      ensures model == PrepareItem(old(model), rewritten)
      ensures Represents() && pendingItem.Some?
      ensures InputMoves(model) == InputMoves(old(model))
    {
      ghost var ready := PrepareItem(model, rewritten);
      if !pendingItemPrepared {
        if hasPolicy {
          pendingItem := Some(rewritten);
        }
        pendingItemPrepared := true;
      }
      model := ready;
    }

    method PublishPendingItem(result: PublishResult) returns (progressed: bool)
      requires Represents()
      requires pendingItem.Some?
      modifies this`pendingItem, this`pendingItemPrepared, this`pendingEvent, this`model
      ensures model == TryPublish(old(model), result)
      ensures Represents()
      ensures InputMoves(model) >= InputMoves(old(model)) && (progressed <==> InputMoves(model) > InputMoves(old(model)))
    {
      progressed := false;
      ghost var tried := TryPublish(model, result);
      if result == Published {
        pendingItem := None;
        pendingItemPrepared := false;
        progressed := true;
      } else if result == Invalid && pendingEvent.None? {
        pendingEvent := Some(ChunkRejected(pendingItem.value.epoch, pendingItem.value.id));
        pendingItem := None;
        pendingItemPrepared := false;
        progressed := true;
      }
      model := tried;
    }

    method SubmitItem(a: Answers) returns (progressed: bool)
      requires Represents()
      modifies this`pendingItem, this`pendingItemPrepared, this`itemRing, this`pendingEvent, this`model
      ensures model == TryPublish(PrepareItem(PopItem(old(model)), a.rewritten), a.published)
      ensures Represents()
      ensures InputMoves(model) >= InputMoves(old(model)) && (progressed <==> InputMoves(model) > InputMoves(old(model)))
    {
      progressed := TakeItem();
      if pendingItem.Some? {
        PreparePendingItem(a.rewritten);
        var finished := PublishPendingItem(a.published);
        progressed := progressed || finished;
      }
    }

    method SubmitControlRequest(a: Answers) returns (progressed: bool)
      requires Represents()
      modifies this`pendingControl, this`controlRing, this`model
      ensures model == SubmitControl(PopControl(old(model)), a.controlAccepted)
      ensures Represents()
      ensures InputMoves(model) >= InputMoves(old(model)) && (progressed <==> InputMoves(model) > InputMoves(old(model)))
    {
      progressed := false;
      ghost var submitted := SubmitControl(PopControl(model), a.controlAccepted);
      if pendingControl.None? {
        if controlRing.content != [] {
          pendingControl := Some(controlRing.content[0]);
          controlRing := controlRing.Popped();
          progressed := true;
        }
      }
      if pendingControl.Some? && a.controlAccepted {
        pendingControl := None;
        progressed := true;
      }
      model := submitted;
    }

    method PublishOutputs(a: Answers) returns (progressed: bool)
      requires Represents()
      modifies this
      ensures model == PublishOutputsStages(old(model), a) && Represents()
      ensures OutputMoves(model) >= OutputMoves(old(model)) && (progressed <==> OutputMoves(model) > OutputMoves(old(model)))
    {
      var event := PublishEvent(a);
      var snapshot := PublishSnapshot(a);
      var timing := PublishTiming(a);
      progressed := event || snapshot || timing;
    }

    method SubmitInputs(a: Answers) returns (progressed: bool)
      requires Represents()
      modifies this
      ensures model == SubmitInputsStages(old(model), a) && Represents()
      ensures InputMoves(model) >= InputMoves(old(model)) && (progressed <==> InputMoves(model) > InputMoves(old(model)))
    {
      var demand := SubmitDemand(a);
      var item := SubmitItem(a);
      var control := SubmitControlRequest(a);
      progressed := demand || item || control;
    }

    /** A service call is its stages, keeps the conservation invariant, and
        reports progress exactly when something moved. */
    method Service(consume: bool, a: Answers) returns (progressed: bool)
      requires Valid()
      modifies this
      ensures model == ServiceStages(old(model), consume, a) && Valid()
      ensures progressed <==>
                || OutputMoves(PublishOutputsStages(old(model), a)) > OutputMoves(old(model))
                || InputMoves(model) > InputMoves(PublishOutputsStages(old(model), a))
    {
      OutputStagesKeepOk(model, a);
      progressed := PublishOutputs(a);
      if consume {
        InputStagesKeepOk(model, a);
        var submitted := SubmitInputs(a);
        progressed := submitted || progressed;
      }
    }
  }
}
