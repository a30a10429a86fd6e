/** Every move homing builds passes the independent validator, says exactly what
    its phase asks of each joint, and reaches what the phase is for
    (src/HomingController.cpp 106-195 and 223-300). */
module HomingValidity {

  import opened Arithmetic
  import opened Joints
  import opened HomingMoves

  function Members(group: seq<nat>): set<nat> { set i | 0 <= i < |group| :: group[i] }

  ghost predicate Config(joints: seq<Joint>, group: seq<nat>) {
    ConfiguredJoints(joints) && Listed(joints, group)
  }

  lemma ConfigFits(joints: seq<Joint>, group: seq<nat>)
    requires Config(joints, group)
    ensures IdsFit(joints)
  {}

  // ----- at most twelve joints

  lemma {:induction false} SubsetIsSmaller(a: set<nat>, b: set<nat>)
    requires a <= b
    ensures |a| <= |b|
    decreases |a|
  {
    if a != {} {
      var x :| x in a;
      SubsetIsSmaller(a - {x}, b - {x});
    }
  }

  lemma {:induction false} MembersCount(group: seq<nat>)
    requires DistinctGroup(group)
    ensures |Members(group)| == |group|
    decreases |group|
  {
    if group != [] {
      var n := |group| - 1;
      MembersCount(group[..n]);
      MembersSnoc(group[..n], group[n]);
      assert group == group[..n] + [group[n]];
      assert forall i | 0 <= i < n :: group[..n][i] != group[n];
    }
  }

  lemma MembersSnoc(group: seq<nat>, id: nat)
    ensures Members(group + [id]) == Members(group) + {id}
  {
    var all := group + [id];
    forall j ensures j in Members(all) <==> j in Members(group) + {id} {
      if j in Members(group) {
        var i :| 0 <= i < |group| && group[i] == j;
        assert all[i] == j;
      }
      if j == id { assert all[|group|] == j; }
    }
  }

  lemma GroupFits(joints: seq<Joint>, group: seq<nat>)
    requires Config(joints, group)
    ensures |group| <= MAX_JOINTS && forall i | 0 <= i < |group| :: group[i] < MAX_JOINTS
  {
    forall i | 0 <= i < |group| ensures group[i] < MAX_JOINTS {
      var j := Find(joints, group[i]).value;
      assert j in joints;
    }
    var ids := {0, 1, 2, 3, 4, 5, 6, 7, 8, 9, 10, 11};
    assert Members(group) <= ids;
    MembersCount(group);
    SubsetIsSmaller(Members(group), ids);
  }

  // ----- what a built move is

  /** For each joint of the group what the phase asks; nothing for the others. */
  ghost predicate Asks(joints: seq<Joint>, m: Move, group: seq<nat>, phase: Phase) {
    && m.joints == Members(group)
    && (forall i | 0 <= i < |group| :: group[i] < MAX_JOINTS && Find(joints, group[i]).Some?)
    && (forall i | 0 <= i < |group| ::
          var j := Find(joints, group[i]).value;
          && m.target[group[i]] == Target(j, phase)
          && m.velocity[group[i]] == Min(j.maxVelocity, PhaseVelocity(j, phase))
          && m.acceleration[group[i]] == j.maxAcceleration && m.jerk[group[i]] == j.maxJerk)
    && (forall id | 0 <= id < MAX_JOINTS && id !in m.joints :: m.target[id] == 0.0)
  }

  ghost predicate HasTriggers(joints: seq<Joint>, triggers: seq<Trigger>, group: seq<nat>, released: bool) {
    && |triggers| == |group|
    && forall i | 0 <= i < |group| ::
         Find(joints, group[i]).Some?
         && var j := Find(joints, group[i]).value;
            triggers[i] == Trigger(group[i], j.input, if released then ReleasedCondition(j.condition) else j.condition)
  }

  ghost predicate SameHeader(m: Move, n: Move) {
    && m.epoch == n.epoch && m.id == n.id && m.predecessorBranch == n.predecessorBranch && m.branch == n.branch
    && m.moveId == n.moveId && m.targetMode == n.targetMode && m.envelope == n.envelope
    && m.triggerRequired == n.triggerRequired && m.checkTriggersAtStart == n.checkTriggersAtStart
  }

  lemma ConfigPrefix(joints: seq<Joint>, group: seq<nat>)
    requires Config(joints, group) && group != []
    ensures Config(joints, group[..|group| - 1])
  {}

  /** The last joint of a group is configured and not among those before it. */
  lemma GroupSplits(joints: seq<Joint>, group: seq<nat>)
    requires Config(joints, group) && group != []
    ensures var n := |group| - 1;
            && Config(joints, group[..n]) && group == group[..n] + [group[n]]
            && Find(joints, group[n]).Some? && group[n] < MAX_JOINTS && group[n] !in group[..n] && n < MAX_JOINTS
  {
    GroupFits(joints, group);
  }

  lemma {:induction false} AddJointsBuilds(joints: seq<Joint>, blank: Move, group: seq<nat>, phase: Phase)
    requires Config(joints, group)
    requires blank.joints == {} && blank.target == Zeros() && blank.triggers == []
    ensures var m := AddJoints(joints, blank, group, phase);
            && Asks(joints, m, group, phase) && SameHeader(m, blank)
            && (if Triggered(phase) then HasTriggers(joints, m.triggers, group, false) else m.triggers == [])
    decreases |group|
  {
    hide Config, Asks, HasTriggers, AddJoint, Find;
    ConfigFits(joints, group);
    if group == [] {
      NothingBuilds(joints, blank, phase);
    } else {
      var n := |group| - 1;
      GroupSplits(joints, group);
      AddJointsBuilds(joints, blank, group[..n], phase);
      AddOne(joints, AddJoints(joints, blank, group[..n], phase), group[..n], group[n], phase);
    }
  }

  lemma NothingBuilds(joints: seq<Joint>, blank: Move, phase: Phase)
    requires blank.joints == {} && blank.target == Zeros() && blank.triggers == []
    ensures Asks(joints, blank, [], phase) && HasTriggers(joints, [], [], false)
  {
    assert Members([]) == {};
  }

  lemma AddOne(joints: seq<Joint>, m: Move, group: seq<nat>, id: nat, phase: Phase)
    requires Find(joints, id).Some? && id < MAX_JOINTS && id !in group && |group| < MAX_JOINTS
    requires Asks(joints, m, group, phase)
    requires if Triggered(phase) then HasTriggers(joints, m.triggers, group, false) else m.triggers == []
    ensures var n := AddJoint(m, Find(joints, id).value, phase);
            && Asks(joints, n, group + [id], phase) && SameHeader(n, m)
            && (if Triggered(phase) then HasTriggers(joints, n.triggers, group + [id], false) else n.triggers == [])
  {
    AddOneAsks(joints, m, group, id, phase);
    AddOneTriggers(joints, m.triggers, group, id);
    hide Asks, HasTriggers, Target, PhaseVelocity, Min, Find;
  }

  lemma AddOneAsks(joints: seq<Joint>, m: Move, group: seq<nat>, id: nat, phase: Phase)
    requires Find(joints, id).Some? && id < MAX_JOINTS && id !in group && Asks(joints, m, group, phase)
    ensures Asks(joints, AddJoint(m, Find(joints, id).value, phase), group + [id], phase)
  {
    hide Target, PhaseVelocity, Min, Find, Push;
    MembersSnoc(group, id);
    var n, all := AddJoint(m, Find(joints, id).value, phase), group + [id];
    forall i | 0 <= i < |all|
      ensures all[i] < MAX_JOINTS && Find(joints, all[i]).Some?
      ensures var j := Find(joints, all[i]).value;
              && n.target[all[i]] == Target(j, phase)
              && n.velocity[all[i]] == Min(j.maxVelocity, PhaseVelocity(j, phase))
              && n.acceleration[all[i]] == j.maxAcceleration && n.jerk[all[i]] == j.maxJerk
    {
      if i < |group| { assert all[i] == group[i]; }
    }
  }

  lemma AddOneTriggers(joints: seq<Joint>, triggers: seq<Trigger>, group: seq<nat>, id: nat)
    requires Find(joints, id).Some? && |group| < MAX_JOINTS
    ensures HasTriggers(joints, triggers, group, false) ==>
              var j := Find(joints, id).value;
              HasTriggers(joints, Push(triggers, Trigger(j.id, j.input, j.condition)), group + [id], false)
  {}

  lemma PhaseVelocityIsPositive(j: Joint, phase: Phase)
    requires ConfiguredJoint(j)
    ensures Min(j.maxVelocity, PhaseVelocity(j, phase)) > 0.0
  {
    ProductIsNotZero(j.searchVelocity, j.scale);
    ProductIsNotZero(j.latchVelocity, j.scale);
    if j.finalVelocity != 0.0 { ProductIsNotZero(j.finalVelocity, j.scale); }
    hide Product;
  }

  ghost predicate ValidHeader(m: Move) { m.epoch != 0 && m.id != 0 && m.branch != 0 && m.moveId != 0 }

  /** A move that drives a configured group, its triggers none or exactly one per
      joint, passes the validator. */
  lemma BuiltIsValid(joints: seq<Joint>, m: Move, group: seq<nat>)
    requires Config(joints, group) && group != [] && ValidHeader(m) && m.joints == Members(group)
    requires m.envelope.joints == {} && (m.checkTriggersAtStart ==> m.triggerRequired)
    requires forall i | 0 <= i < |group| ::
               group[i] < MAX_JOINTS && m.velocity[group[i]] > 0.0 && m.acceleration[group[i]] > 0.0
               && m.jerk[group[i]] > 0.0
    requires if m.triggerRequired then exists released :: HasTriggers(joints, m.triggers, group, released)
             else m.triggers == []
    ensures ValidMove(m)
  {
    GroupFits(joints, group);
    assert group[0] in Members(group);
    forall j | 0 <= j < MAX_JOINTS && j in m.joints ensures DrivenJoint(m, j) {
      var i :| 0 <= i < |group| && group[i] == j;
    }
    if m.triggerRequired {
      var released :| HasTriggers(joints, m.triggers, group, released);
      assert forall i | 0 <= i < |group| :: m.triggers[i].joint == group[i] && group[i] in Members(group);
      forall j ensures j in TriggeredJoints(m.triggers) <==> j in m.joints {
        if j in m.joints {
          var i :| 0 <= i < |group| && group[i] == j;
          assert m.triggers[i].joint == j;
        }
      }
    }
  }

  lemma LimitsArePositive(joints: seq<Joint>, m: Move, group: seq<nat>, phase: Phase)
    requires ConfiguredJoints(joints) && Asks(joints, m, group, phase)
    ensures forall i | 0 <= i < |group| ::
              m.velocity[group[i]] > 0.0 && m.acceleration[group[i]] > 0.0 && m.jerk[group[i]] > 0.0
  {
    hide Target, PhaseVelocity, Min;
    forall i | 0 <= i < |group|
      ensures m.velocity[group[i]] > 0.0 && m.acceleration[group[i]] > 0.0 && m.jerk[group[i]] > 0.0
    {
      var j := Find(joints, group[i]).value;
      assert j in joints;
      PhaseVelocityIsPositive(j, phase);
    }
  }

  /** For every valid configuration, group, epoch and counters, every phase's move
      says what the phase asks of each joint and is valid before any envelope. */
  lemma MoveIsWellFormed(joints: seq<Joint>, group: seq<nat>, epoch: nat, c: Counters, phase: Phase)
    requires Config(joints, group) && group != [] && epoch > 0 && c.nextChunk > 0 && c.nextMove > 0
    ensures var m := MakeMove(joints, group, epoch, c, phase);
            && Asks(joints, m, group, phase) && SameHeader(m, Blank(epoch, c, phase)) && ValidMove(m)
  {
    var blank := Blank(epoch, c, phase);
    var m := MakeMove(joints, group, epoch, c, phase);
    AddJointsBuilds(joints, blank, group, phase);
    LimitsArePositive(joints, m, group, phase);
    if Triggered(phase) {
      assert HasTriggers(joints, m.triggers, group, false);
    }
    hide MakeMove, Asks, HasTriggers, Find;
    AskedIsValid(joints, m, group, phase);
  }

  lemma AskedIsValid(joints: seq<Joint>, m: Move, group: seq<nat>, phase: Phase)
    requires Config(joints, group) && group != [] && ValidHeader(m) && m.envelope.joints == {}
    requires m.checkTriggersAtStart ==> m.triggerRequired
    requires if m.triggerRequired then exists released :: HasTriggers(joints, m.triggers, group, released)
             else m.triggers == []
    requires Asks(joints, m, group, phase)
    ensures ValidMove(m)
  {
    LimitsArePositive(joints, m, group, phase);
    BuiltIsValid(joints, m, group);
  }

  // ----- new targets and release triggers

  lemma RetargetAddsOne(m: Move, before: Move, members: set<nat>, id: nat, targets: JointVector)
    requires id < MAX_JOINTS && before == m.(target := before.target)
    requires forall k | 0 <= k < MAX_JOINTS :: before.target[k] == if k in members then targets[k] else m.target[k]
    ensures var r := before.(target := before.target[id := targets[id]]);
            && r == m.(target := r.target)
            && (forall k | 0 <= k < MAX_JOINTS ::
                  r.target[k] == if k in members + {id} then targets[k] else m.target[k])
  {}

  /** Retargeting changes only the group's targets, to the ones given. */
  lemma {:induction false} RetargetSets(joints: seq<Joint>, m: Move, group: seq<nat>, targets: JointVector)
    requires Config(joints, group)
    ensures var r := Retarget(joints, m, group, targets);
            && r == m.(target := r.target)
            && (forall id | 0 <= id < MAX_JOINTS ::
                  r.target[id] == if id in Members(group) then targets[id] else m.target[id])
    decreases |group|
  {
    GroupFits(joints, group);
    if group == [] {
      assert Members(group) == {};
    } else {
      var n := |group| - 1;
      ConfigPrefix(joints, group);
      RetargetSets(joints, m, group[..n], targets);
      assert group == group[..n] + [group[n]];
      MembersSnoc(group[..n], group[n]);
      assert Find(joints, group[n]).Some? && Find(joints, group[n]).value.id == group[n];
      hide Members, Config, Find;
      RetargetAddsOne(m, Retarget(joints, m, group[..n], targets), Members(group[..n]), group[n], targets);
    }
  }

  lemma {:induction false} ReleaseTriggersAdd(joints: seq<Joint>, m: Move, group: seq<nat>)
    requires Config(joints, group) && m.triggers == []
    ensures var r := AddReleaseTriggers(joints, m, group);
            r == m.(triggers := r.triggers) && HasTriggers(joints, r.triggers, group, true)
    decreases |group|
  {
    GroupFits(joints, group);
    if group != [] {
      var n := |group| - 1;
      ConfigPrefix(joints, group);
      ReleaseTriggersAdd(joints, m, group[..n]);
    }
  }

  /** The backoff actually sent: absolute, behind each joint's fast trigger. */
  lemma BackoffIsWellFormed(
    joints: seq<Joint>, group: seq<nat>, epoch: nat, c: Counters, targets: JointVector)
    requires Config(joints, group) && group != [] && epoch > 0 && c.nextChunk > 0 && c.nextMove > 0
    ensures var m := MakeMove(joints, group, epoch, c, Backoff).(targetMode := Absolute);
            var r := Retarget(joints, m, group, targets);
            && ValidMove(r) && SameHeader(r, Blank(epoch, c, Backoff).(targetMode := Absolute))
            && forall id | 0 <= id < MAX_JOINTS && id in Members(group) :: r.target[id] == targets[id]
  {
    MoveIsWellFormed(joints, group, epoch, c, Backoff);
    RetargetSets(joints, MakeMove(joints, group, epoch, c, Backoff).(targetMode := Absolute), group, targets);
    hide MakeMove, Retarget, Asks, Members;
  }

  /** The release check is valid, stays where the backoff stopped, and waits for
      the released condition of every joint from its start. */
  lemma ReleaseCheckIsWellFormed(
    joints: seq<Joint>, group: seq<nat>, epoch: nat, c: Counters, position: JointVector)
    requires Config(joints, group) && group != [] && epoch > 0 && c.nextChunk > 0 && c.nextMove > 0
    ensures var m := ReleaseCheck(joints, group, epoch, c, position);
            && ValidMove(m) && HasTriggers(joints, m.triggers, group, true)
            && SameHeader(m, Blank(epoch, c, Backoff)
                               .(targetMode := Absolute, triggerRequired := true, checkTriggersAtStart := true))
            && m.joints == Members(group)
            && forall id | 0 <= id < MAX_JOINTS && id in m.joints :: m.target[id] == position[id]
  {
    AddJointsBuilds(joints, Blank(epoch, c, Backoff), group, Backoff);
    var made := MakeMove(joints, group, epoch, c, Backoff);
    LimitsArePositive(joints, made, group, Backoff);
    var base := made.(targetMode := Absolute, triggerRequired := true, checkTriggersAtStart := true);
    RetargetSets(joints, base, group, position);
    ReleaseTriggersAdd(joints, Retarget(joints, base, group, position), group);
    var m := ReleaseCheck(joints, group, epoch, c, position);
    assert HasTriggers(joints, m.triggers, group, true);
    GroupFits(joints, group);
    hide MakeMove, Retarget, AddReleaseTriggers, HasTriggers, Find;
    BuiltIsValid(joints, m, group);
  }

  /** Attaching the envelope keeps a move valid, and puts both the start and the
      end of every joint inside it. */
  lemma EnvelopeKeepsValid(m: Move, start: JointVector)
    requires ValidMove(m)
    ensures ValidMove(AssignEnvelope(m, start))
    ensures forall j | 0 <= j < MAX_JOINTS && j in m.joints ::
              var e := AssignEnvelope(m, start).envelope;
              e.minimum[j] <= start[j] <= e.maximum[j] && e.minimum[j] <= EndOf(m, start, j) <= e.maximum[j]
  {
    var n := AssignEnvelope(m, start);
    forall j | 0 <= j < MAX_JOINTS && j in m.joints ensures DrivenJoint(n, j) {
      assert DrivenJoint(m, j);
    }
  }

  // ----- distances

  lemma DirectionSquares(j: Joint, travel: real)
    ensures Product(Direction(j), Product(Direction(j), travel)) == travel
  {}

  /** The slow search from the backoff target reaches at least one backoff
      distance past the fast trigger, in the search direction. */
  lemma SlowSearchPassesTrigger(j: Joint, trigger: real)
    requires ConfiguredJoint(j)
    ensures var start := trigger - Product(Direction(j), BackoffTravel(j));
            var reached := start + Target(j, SlowSearch);
            Product(Direction(j), reached - trigger) >= BackoffTravel(j) > 0.0
  {
    var b, s := j.backoffDistance, Abs(j.scale);
    ProductGrows(2.0 * b, Max(2.0 * b, 0.01), s);
    ProductIsPositive(b, s);
    assert Product(2.0 * b, s) == 2.0 * Product(b, s);
    var start := trigger - Product(Direction(j), BackoffTravel(j));
    var reached := start + Target(j, SlowSearch);
    assert reached - trigger == Product(Direction(j), SlowTravel(j)) - Product(Direction(j), BackoffTravel(j));
    if Direction(j) < 0.0 {
      assert Product(-1.0, SlowTravel(j)) == -SlowTravel(j) && Product(-1.0, BackoffTravel(j)) == -BackoffTravel(j);
      assert Product(-1.0, reached - trigger) == trigger - reached;
    } else {
      assert Product(1.0, SlowTravel(j)) == SlowTravel(j) && Product(1.0, BackoffTravel(j)) == BackoffTravel(j);
      assert Product(1.0, reached - trigger) == reached - trigger;
    }
  }

  /** The backoff lies strictly behind the fast trigger, so the check that
      follows it can only fail if the joint did not get there. */
  lemma BackoffIsBehindTrigger(j: Joint, trigger: real)
    requires ConfiguredJoint(j)
    ensures var target := trigger - Product(Direction(j), BackoffTravel(j));
            Product(Direction(j), target - trigger) == -BackoffTravel(j) < 0.0
  {
    ProductIsPositive(j.backoffDistance, Abs(j.scale));
    var d, travel := Direction(j), BackoffTravel(j);
    DirectionSquares(j, travel);
    assert Product(d, -Product(d, travel)) == -Product(d, Product(d, travel));
  }

  /** From anywhere in the joint's coordinate range the fast search passes every
      point of the range. */
  lemma FastSearchCoversRange(j: Joint, start: real, point: real)
    requires ConfiguredJoint(j)
    requires Min(Product(j.minimum, j.scale), Product(j.maximum, j.scale)) <= start
    requires start <= Max(Product(j.minimum, j.scale), Product(j.maximum, j.scale))
    requires Min(Product(j.minimum, j.scale), Product(j.maximum, j.scale)) <= point
    requires point <= Max(Product(j.minimum, j.scale), Product(j.maximum, j.scale))
    ensures Product(Direction(j), start + Target(j, FastSearch) - point) >= 2.0 * BackoffTravel(j) > 0.0
  {
    ProductIsPositive(j.backoffDistance, Abs(j.scale));
    var travel := Range(j) + 2.0 * BackoffTravel(j);
    if Direction(j) < 0.0 {
      assert Product(-1.0, travel) == -travel;
      assert Product(-1.0, start - travel - point) == travel - start + point;
    } else {
      assert Product(1.0, travel) == travel;
      assert Product(1.0, start + travel - point) == start + travel - point;
    }
  }
}
