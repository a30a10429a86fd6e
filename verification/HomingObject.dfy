/** The homing controller object: counters, observation and issued commands
    updated in place (src/HomingController.cpp 37-300 and 379-407). */
module HomingObject {

  import opened Text
  import opened Arithmetic
  import opened Joints
  import opened HomingMoves
  import opened HomingValidity
  import opened HomingRun

  // ----- observation

  type Position = p: seq<real> | |p| == 6 witness [0.0, 0.0, 0.0, 0.0, 0.0, 0.0]

  /** A logical axis and the joints that drive it. */
  datatype Axis = Axis(axis: nat, joints: seq<nat>)

  const SMALLEST_SCALE := 0.000000000001

  datatype Average = Average(sum: real, count: nat)

  /** The coordinates the joints of an axis stand for, summed and counted. */
  function Gather(joints: seq<Joint>, ids: seq<nat>, commanded: JointVector): Average
    decreases |ids|
  {
    if ids == [] then Average(0.0, 0)
    else
      var before := Gather(joints, ids[..|ids| - 1], commanded);
      var id := ids[|ids| - 1];
      match Find(joints, id)
      case None => before
      case Some(j) =>
        if id >= MAX_JOINTS || Abs(j.scale) <= SMALLEST_SCALE || j.scale == 0.0 then before
        else Average(before.sum + commanded[id] / j.scale, before.count + 1)
  }

  function ObserveAxis(joints: seq<Joint>, a: Axis, commanded: JointVector, p: Position): Position {
    var g := Gather(joints, a.joints, commanded);
    if g.count == 0 || a.axis >= 6 then p else p[a.axis := g.sum / g.count as real]
  }

  function ObserveAxes(joints: seq<Joint>, axes: seq<Axis>, commanded: JointVector, p: Position): Position
    decreases |axes|
  {
    if axes == [] then p
    else ObserveAxis(joints, axes[|axes| - 1], commanded, ObserveAxes(joints, axes[..|axes| - 1], commanded, p))
  }

  /** Every joint of the axis stands where the coordinate says. */
  ghost predicate StandsAt(joints: seq<Joint>, ids: seq<nat>, commanded: JointVector, coordinate: real) {
    forall i | 0 <= i < |ids| && ids[i] < MAX_JOINTS && Find(joints, ids[i]).Some? ::
      commanded[ids[i]] == Product(coordinate, Find(joints, ids[i]).value.scale)
  }

  lemma {:induction false} GatherOfConsistent(
    joints: seq<Joint>, ids: seq<nat>, commanded: JointVector, coordinate: real)
    requires StandsAt(joints, ids, commanded, coordinate)
    ensures var g := Gather(joints, ids, commanded); g.sum == Product(g.count as real, coordinate)
    decreases |ids|
  {
    if ids == [] {
      assert Product(0.0, coordinate) == 0.0;
    } else {
      var n := |ids| - 1;
      assert StandsAt(joints, ids[..n], commanded, coordinate);
      GatherOfConsistent(joints, ids[..n], commanded, coordinate);
      var before := Gather(joints, ids[..n], commanded);
      hide Product;
      ProductAdds(before.count as real, 1.0, coordinate);
      ProductOfOne(coordinate);
      if ids[n] < MAX_JOINTS && Find(joints, ids[n]).Some? && Find(joints, ids[n]).value.scale != 0.0 {
        assert commanded[ids[n]] == Product(coordinate, Find(joints, ids[n]).value.scale);
        QuotientTimes(coordinate, Find(joints, ids[n]).value.scale);
      }
    }
  }

  /** Joints set to the coordinates of a position are observed as that position:
      the averages undo the scaling. */
  lemma {:induction false} ObservationInvertsScaling(
    joints: seq<Joint>, axes: seq<Axis>, commanded: JointVector, p: Position)
    requires forall k | 0 <= k < |axes| ::
               axes[k].axis < 6 ==> StandsAt(joints, axes[k].joints, commanded, p[axes[k].axis])
    ensures ObserveAxes(joints, axes, commanded, p) == p
    decreases |axes|
  {
    if axes != [] {
      var n := |axes| - 1;
      assert forall k | 0 <= k < n :: axes[..n][k] == axes[k];
      ObservationInvertsScaling(joints, axes[..n], commanded, p);
      var a := axes[n];
      if a.axis < 6 {
        GatherOfConsistent(joints, a.joints, commanded, p[a.axis]);
        var g := Gather(joints, a.joints, commanded);
        if g.count > 0 {
          ProductCommutes(g.count as real, p[a.axis]);
          QuotientTimes(p[a.axis], g.count as real);
          assert p[a.axis := p[a.axis]] == p;
        }
      }
    }
  }

  /** The joint positions a run starts from. */
  function InitialPositions(joints: seq<Joint>, start: Position): JointVector
    decreases |joints|
  {
    if joints == [] then Zeros()
    else
      var before := InitialPositions(joints[..|joints| - 1], start);
      var j := joints[|joints| - 1];
      if j.id < MAX_JOINTS && j.axis < 6 then before[j.id := Product(start[j.axis], j.scale)] else before
  }

  lemma {:induction false} InitialAt(joints: seq<Joint>, start: Position, k: nat)
    requires DistinctIds(joints) && k < |joints| && joints[k].id < MAX_JOINTS && joints[k].axis < 6
    ensures InitialPositions(joints, start)[joints[k].id] == Product(start[joints[k].axis], joints[k].scale)
    decreases |joints|
  {
    var n := |joints| - 1;
    if k < n {
      InitialAt(joints[..n], start, k);
      assert joints[k].id != joints[n].id;
    }
  }

  /** A run starts by telling the joints exactly the machine position it was given. */
  lemma StartIsObservedBack(joints: seq<Joint>, axes: seq<Axis>, start: Position)
    requires DistinctIds(joints)
    requires forall k | 0 <= k < |axes| :: forall i | 0 <= i < |axes[k].joints| ::
               Find(joints, axes[k].joints[i]).Some? ==> Find(joints, axes[k].joints[i]).value.axis == axes[k].axis
    ensures ObserveAxes(joints, axes, InitialPositions(joints, start), start) == start
  {
    var commanded := InitialPositions(joints, start);
    forall k | 0 <= k < |axes| && axes[k].axis < 6
      ensures StandsAt(joints, axes[k].joints, commanded, start[axes[k].axis])
    {
      var ids := axes[k].joints;
      forall i | 0 <= i < |ids| && ids[i] < MAX_JOINTS && Find(joints, ids[i]).Some?
        ensures commanded[ids[i]] == Product(start[axes[k].axis], Find(joints, ids[i]).value.scale)
      {
        var j := Find(joints, ids[i]).value;
        var at :| 0 <= at < |joints| && joints[at] == j;
        InitialAt(joints, start, at);
      }
    }
    ObservationInvertsScaling(joints, axes, commanded, start);
  }

  lemma OneMoreJoint(joints: seq<Joint>)
    requires joints != []
    ensures AllJoints(joints) == AllJoints(joints[..|joints| - 1]) + {joints[|joints| - 1].id}
  {
    var n := |joints| - 1;
    forall id ensures id in AllJoints(joints) <==> id in AllJoints(joints[..n]) + {joints[n].id} {
      if id in AllJoints(joints[..n]) {
        var i :| 0 <= i < n && joints[..n][i].id == id;
        assert joints[i].id == id;
      }
      if id == joints[n].id { assert id in AllJoints(joints); }
      if id in AllJoints(joints) {
        var i :| 0 <= i < |joints| && joints[i].id == id;
        if i < n { assert joints[..n][i].id == id; }
      }
    }
  }

  lemma GatherNone(joints: seq<Joint>, commanded: JointVector)
    ensures Gather(joints, [], commanded) == Average(0.0, 0)
  {}

  lemma GatherNext(joints: seq<Joint>, ids: seq<nat>, i: nat, commanded: JointVector)
    requires i < |ids|
    ensures var before, joint := Gather(joints, ids[..i], commanded), Find(joints, ids[i]);
            Gather(joints, ids[..i + 1], commanded) ==
            if joint.None? || ids[i] >= MAX_JOINTS || Abs(joint.value.scale) <= SMALLEST_SCALE || joint.value.scale == 0.0
            then before
            else Average(before.sum + commanded[ids[i]] / joint.value.scale, before.count + 1)
  {
    assert ids[..i + 1][..i] == ids[..i];
  }

  // ----- the object

  function PhaseOf(triggered: bool, slow: bool, backoff: bool): Phase {
    if backoff then Backoff else if triggered then (if slow then SlowSearch else FastSearch) else FinalMove
  }

  class HomingController {
    const joints: seq<Joint>
    const axes: seq<Axis>
    var nextChunk: nat
    var branch: nat
    var nextMove: nat
    var nextRequest: nat
    var machinePosition: Position
    /** What has been handed to the backend. */
    var moves: seq<Move>
    var settings: seq<Setting>

    function CounterValues(): Counters
      reads this
    {
      Counters(nextChunk, branch, nextMove, nextRequest)
    }

    function Value(progress: Progress): Issued
      reads this
    {
      Issued(progress, moves, settings, CounterValues())
    }

    constructor (configured: seq<Joint>, logical: seq<Axis>)
      ensures joints == configured && axes == logical
    {
      joints, axes := configured, logical;
      nextChunk, branch, nextMove, nextRequest := 1, 0, 1, 1;
      machinePosition := [0.0, 0.0, 0.0, 0.0, 0.0, 0.0];
      moves, settings := [], [];
    }

    method BuildMove(group: seq<nat>, epoch: nat, triggered: bool, slow: bool, backoff: bool) returns (move: Move)
      requires IdsFit(joints) && !(triggered && backoff) && (slow ==> triggered)
      modifies this`nextChunk, this`branch, this`nextMove
      ensures move == MakeMove(joints, group, epoch, old(CounterValues()), PhaseOf(triggered, slow, backoff))
      ensures CounterValues() == Advance(old(CounterValues()))
    {
      ghost var phase := PhaseOf(triggered, slow, backoff);
      ghost var blank := Blank(epoch, CounterValues(), phase);
      move := Move(epoch, nextChunk, branch, branch + 1, nextMove, {},
                   if backoff || triggered then Relative else Absolute, Zeros(), Zeros(), Zeros(), Zeros(),
                   Envelope({}, Zeros(), Zeros()), [], triggered, false);
      nextChunk := nextChunk + 1;
      branch := branch + 1;
      nextMove := nextMove + 1;
      for i := 0 to |group|
        invariant move == AddJoints(joints, blank, group[..i], phase)
      {
        assert group[..i + 1][..i] == group[..i];
        var joint := Find(joints, group[i]);
        if joint.Some? {
          move := AddJoint(move, joint.value, PhaseOf(triggered, slow, backoff));
        }
      }
      assert group[..|group|] == group;
    }

    method BuildReleaseCheck(group: seq<nat>, epoch: nat, position: JointVector) returns (move: Move)
      requires IdsFit(joints)
      modifies this`nextChunk, this`branch, this`nextMove
      ensures move == ReleaseCheck(joints, group, epoch, old(CounterValues()), position)
      ensures CounterValues() == Advance(old(CounterValues()))
    {
      move := BuildMove(group, epoch, false, false, true);
      move := move.(targetMode := Absolute, triggerRequired := true, checkTriggersAtStart := true);
      move := RetargetAll(move, group, position);
      ghost var placed := move;
      for i := 0 to |group|
        invariant move == AddReleaseTriggers(joints, placed, group[..i])
      {
        assert group[..i + 1][..i] == group[..i];
        var joint := Find(joints, group[i]);
        if joint.Some? {
          var j := joint.value;
          move := move.(triggers := Push(move.triggers, Trigger(j.id, j.input, ReleasedCondition(j.condition))));
        }
      }
      assert group[..|group|] == group;
    }

    method RetargetAll(m: Move, group: seq<nat>, targets: JointVector) returns (move: Move)
      requires IdsFit(joints)
      ensures move == Retarget(joints, m, group, targets)
    {
      move := m;
      for i := 0 to |group|
        invariant move == Retarget(joints, m, group[..i], targets)
      {
        assert group[..i + 1][..i] == group[..i];
        var joint := Find(joints, group[i]);
        if joint.Some? {
          move := move.(target := move.target[joint.value.id := targets[joint.value.id]]);
        }
      }
      assert group[..|group|] == group;
    }

    /** The coordinates a calibration sets, joint by joint. */
    method CalibratePositions(group: seq<nat>, trigger: JointVector, stopped: JointVector) returns (calibrated: JointVector)
      requires Config(joints, group)
      ensures calibrated == Calibrated(joints, group, trigger, stopped)
    {
      GroupFits(joints, group);
      calibrated := stopped;
      for i := 0 to |group|
        invariant forall id | 0 <= id < MAX_JOINTS ::
          calibrated[id] == CalibratedAt(joints, group[..i], trigger, stopped, id)
      {
        assert group[..i + 1] == group[..i] + [group[i]] && group[i] !in group[..i];
        var joint := Find(joints, group[i]);
        if joint.Some? {
          var j := joint.value;
          calibrated := calibrated[j.id := calibrated[j.id] + (Product(j.switchPosition, j.scale) - trigger[j.id])];
        }
      }
      assert group[..|group|] == group;
      assert forall id | 0 <= id < MAX_JOINTS :: calibrated[id] == Calibrated(joints, group, trigger, stopped)[id];
    }

    /** Fast search, backoff and release check of one group. */
    method FindSwitches(group: seq<nat>, epoch: nat, a: GroupAnswers) returns (progress: Progress)
      requires Config(joints, group)
      modifies this`nextChunk, this`branch, this`nextMove, this`moves
      ensures Value(progress) == Searched(joints, group, epoch, old(Value(Proceed)), a)
    {
      hide MakeMove, AssignEnvelope, Retarget, ReleaseCheck, Behind, AllBehind, Config, IdsFit;
      ConfigFits(joints, group);
      var fast := BuildMove(group, epoch, true, false, false);
      moves := moves + [AssignEnvelope(fast, a.fastStart)];
      progress := SearchProgress(a.fast);
      if progress != Proceed {
        return;
      }
      var backoff := BuildMove(group, epoch, false, false, true);
      backoff := backoff.(targetMode := Absolute);
      backoff := RetargetAll(backoff, group, Behind(joints, a.fast.trigger));
      moves := moves + [AssignEnvelope(backoff, a.fast.stopped)];
      progress := BackoffProgress(joints, group, a);
      if progress != Proceed {
        return;
      }
      var check := BuildReleaseCheck(group, epoch, a.backoff.stopped);
      moves := moves + [AssignEnvelope(check, a.backoff.stopped)];
      progress := SearchProgress(a.release);
    }

    /** Slow search, calibration and final move of one group. */
    method LatchAndHome(group: seq<nat>, epoch: nat, a: GroupAnswers) returns (progress: Progress)
      requires Config(joints, group) && a.release.Completed?
      modifies this
      ensures Value(progress) == HomeAfterRelease(joints, group, epoch, old(Value(Proceed)), a)
      ensures machinePosition == old(machinePosition)
    {
      hide MakeMove, AssignEnvelope, Calibrated, Config, IdsFit;
      ConfigFits(joints, group);
      var slow := BuildMove(group, epoch, true, true, false);
      slow := AssignEnvelope(slow, a.release.stopped);
      assert slow == SlowMove(joints, group, epoch, old(CounterValues()), a.release);
      moves := moves + [slow];
      progress := SearchProgress(a.slow);
      if progress != Proceed {
        return;
      }
      var calibrated := CalibratePositions(group, a.slow.trigger, a.slow.stopped);
      settings := settings
        + [Setting(nextRequest, if slow.triggerRequired then slow.joints else {}, calibrated, |moves|)];
      nextRequest := nextRequest + 1;
      if !a.established {
        progress := Failed;
        return;
      }
      var final := BuildMove(group, epoch, false, false, false);
      moves := moves + [AssignEnvelope(final, a.finalStart)];
      progress := ArrivalProgress(a.final);
    }

    /** The groups in order: exactly what the model issues, until one group does
        not proceed. */
    method HomeAll(groups: seq<seq<nat>>, epoch: nat, answers: seq<GroupAnswers>) returns (progress: Progress)
      requires Configuration(joints, groups) && |answers| == |groups|
      modifies this
      ensures Value(progress) == HomeGroups(joints, groups, epoch, old(Value(Proceed)), answers)
    {
      hide HomeGroup, HomeAfterRelease, Searched, ConfiguredGroup, Config;
      progress := Proceed;
      ghost var start := Value(Proceed);
      for g := 0 to |groups|
        invariant progress == Proceed
        invariant Value(progress) == HomeGroups(joints, groups[..g], epoch, start, answers[..g])
      {
        GroupIsConfig(joints, groups, g);
        ghost var before := Value(Proceed);
        progress := FindSwitches(groups[g], epoch, answers[g]);
        SearchedFirst(joints, groups[g], epoch, before, answers[g]);
        if progress == Proceed {
          progress := LatchAndHome(groups[g], epoch, answers[g]);
        }
        assert Value(progress) == HomeGroup(joints, groups[g], epoch, before, answers[g]);
        OneMoreGroup(joints, groups, epoch, start, answers, g);
        if progress != Proceed {
          GroupsStop(joints, groups, epoch, start, answers, g + 1);
          return;
        }
      }
      assert groups[..|groups|] == groups && answers[..|groups|] == answers;
    }

    /** A whole run: fresh counters, the joints' coordinates from the machine
        position, the start-up, the groups, and how it ended. */
    method Run(start: Position, groups: seq<seq<nat>>, epoch: nat, startup: Startup, answers: seq<GroupAnswers>,
               quiesced: bool)
      returns (outcome: Outcome)
      requires Configuration(joints, groups) && |answers| == |groups|
      modifies this
      ensures var n := RunHoming(joints, groups, epoch, InitialPositions(joints, start), startup, answers);
              Value(n.progress) == n && outcome == HomingRun.Result(joints, n.progress, quiesced)
    {
      hide HomeGroups, Configuration, Find;
      moves, settings := [], [];
      machinePosition := start;
      nextRequest, nextChunk, branch, nextMove := 1, 1, 0, 1;
      if joints == [] || groups == [] || !startup.begun {
        return HomingFailed;
      }
      var all: set<nat> := {};
      var initial := Zeros();
      for i := 0 to |joints|
        invariant CounterValues() == FIRST && moves == [] && settings == []
        invariant all == AllJoints(joints[..i])
        invariant initial == InitialPositions(joints[..i], start)
      {
        var j := joints[i];
        assert joints[..i + 1][..i] == joints[..i];
        OneMoreJoint(joints[..i + 1]);
        all := all + {j.id};
        if j.id < MAX_JOINTS && j.axis < 6 {
          initial := initial[j.id := Product(start[j.axis], j.scale)];
        }
      }
      assert joints[..|joints|] == joints;
      settings := [Setting(nextRequest, all, initial, 0)];
      nextRequest := nextRequest + 1;
      assert Value(Proceed) == AtStart(joints, initial);
      if !startup.initialized || !startup.running {
        return HomingFailed;
      }
      assert Value(Proceed) == StartedUp(joints, groups, initial, startup);
      var progress := HomeAll(groups, epoch, answers);
      outcome := if !quiesced || progress == Failed then HomingFailed
                 else if progress == Stopped then HomingStopped
                 else HomingCompleted(all);
    }

    /** The machine position shown for a snapshot. */
    method ObserveSnapshot(commanded: JointVector)
      modifies this`machinePosition
      ensures machinePosition == ObserveAxes(joints, axes, commanded, old(machinePosition))
    {
      hide Gather, Find, Abs;
      for k := 0 to |axes|
        invariant machinePosition == ObserveAxes(joints, axes[..k], commanded, old(machinePosition))
      {
        assert axes[..k + 1][..k] == axes[..k];
        ghost var before := machinePosition;
        var sum, count := 0.0, 0;
        var ids := axes[k].joints;
        GatherNone(joints, commanded);
        assert ids[..0] == [];
        for i := 0 to |ids|
          invariant Average(sum, count) == Gather(joints, ids[..i], commanded) && machinePosition == before
        {
          GatherNext(joints, ids, i, commanded);
          var joint := Find(joints, ids[i]);
          if joint.Some? {
            var j := joint.value;
            if !(ids[i] >= MAX_JOINTS || Abs(j.scale) <= SMALLEST_SCALE || j.scale == 0.0) {
              sum := sum + commanded[ids[i]] / j.scale;
              count := count + 1;
            }
          }
        }
        assert ids[..|ids|] == ids;
        assert Gather(joints, axes[k].joints, commanded) == Average(sum, count);
        if count != 0 && axes[k].axis < 6 {
          machinePosition := machinePosition[axes[k].axis := sum / count as real];
        }
      }
      assert axes[..|axes|] == axes;
    }
  }

  /** The first three moves of a group, as the model issues them. */
  function Searched(joints: seq<Joint>, group: seq<nat>, epoch: nat, r: Issued, a: GroupAnswers): Issued
    requires IdsFit(joints)
  {
    var fast := Sent(r, FastMove(joints, group, epoch, r.counters, a), SearchProgress(a.fast));
    if fast.progress != Proceed then fast
    else
      var backoff := Sent(fast, BackoffMove(joints, group, epoch, fast.counters, a.fast),
                          BackoffProgress(joints, group, a));
      if backoff.progress != Proceed then backoff
      else
        Sent(backoff, ReleaseMove(joints, group, epoch, backoff.counters, a.backoff), SearchProgress(a.release))
  }

  lemma SearchedFirst(joints: seq<Joint>, group: seq<nat>, epoch: nat, r: Issued, a: GroupAnswers)
    requires IdsFit(joints)
    ensures var s := Searched(joints, group, epoch, r, a);
            && (s.progress == Proceed ==> a.release.Completed?)
            && HomeGroup(joints, group, epoch, r, a)
               == if s.progress != Proceed then s else HomeAfterRelease(joints, group, epoch, s, a)
  {
    hide FastMove, BackoffMove, ReleaseMove, HomeAfterRelease, AllBehind;
  }

  lemma OneMoreGroup(
    joints: seq<Joint>, groups: seq<seq<nat>>, epoch: nat, r: Issued, answers: seq<GroupAnswers>, g: nat)
    requires IdsFit(joints) && g < |groups| == |answers|
    requires HomeGroups(joints, groups[..g], epoch, r, answers[..g]).progress == Proceed
    ensures HomeGroups(joints, groups[..g + 1], epoch, r, answers[..g + 1])
         == HomeGroup(joints, groups[g], epoch, HomeGroups(joints, groups[..g], epoch, r, answers[..g]), answers[g])
  {
    hide HomeGroup;
    assert groups[..g + 1][..g] == groups[..g] && answers[..g + 1][..g] == answers[..g];
  }

  lemma {:induction false} GroupsStop(
    joints: seq<Joint>, groups: seq<seq<nat>>, epoch: nat, r: Issued, answers: seq<GroupAnswers>, g: nat)
    requires IdsFit(joints) && g <= |groups| == |answers|
    requires HomeGroups(joints, groups[..g], epoch, r, answers[..g]).progress != Proceed
    ensures HomeGroups(joints, groups, epoch, r, answers) == HomeGroups(joints, groups[..g], epoch, r, answers[..g])
    decreases |groups|
  {
    hide HomeGroup;
    if g == |groups| {
      assert groups[..g] == groups && answers[..g] == answers;
    } else {
      var n := |groups| - 1;
      assert groups[..n][..g] == groups[..g] && answers[..n][..g] == answers[..g];
      GroupsStop(joints, groups[..n], epoch, r, answers[..n], g);
    }
  }
}
