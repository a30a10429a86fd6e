/** Homing moves and the validator every execution item passes: how each phase's
    move is built from the configuration, over reals (src/HomingController.cpp
    11-24 and 217-300, src/ExecutionItemOperations.cpp 152-209,
    src/include/machine/MotionBackend.h 277-302). */
module HomingMoves {

  import opened Text
  import opened Arithmetic
  import opened Joints

  type JointVector = v: seq<real> | |v| == 12 witness [0.0, 0.0, 0.0, 0.0, 0.0, 0.0, 0.0, 0.0, 0.0, 0.0, 0.0, 0.0]

  function Zeros(): JointVector { [0.0, 0.0, 0.0, 0.0, 0.0, 0.0, 0.0, 0.0, 0.0, 0.0, 0.0, 0.0] }

  datatype Condition = Active | Inactive | RisingEdge | FallingEdge

  function ReleasedCondition(c: Condition): Condition {
    if c == Active || c == RisingEdge then Inactive else Active
  }

  // ----- configuration

  datatype Joint = Joint(
    id: nat, axis: nat, scale: real, minimum: real, maximum: real,
    maxVelocity: real, maxAcceleration: real, maxJerk: real,
    input: nat, condition: Condition, homePosition: real, switchPosition: real,
    searchVelocity: real, latchVelocity: real, backoffDistance: real, finalVelocity: real)

  /** What MachineConfiguration guarantees of a joint. */
  ghost predicate ConfiguredJoint(j: Joint) {
    && j.id < MAX_JOINTS && j.scale != 0.0 && j.minimum < j.maximum
    && j.maxVelocity > 0.0 && j.maxAcceleration > 0.0 && j.maxJerk > 0.0
    && j.searchVelocity != 0.0 && j.latchVelocity != 0.0 && j.backoffDistance > 0.0
  }

  ghost predicate DistinctIds(joints: seq<Joint>) {
    forall i, k | 0 <= i < k < |joints| :: joints[i].id != joints[k].id
  }

  function Find(joints: seq<Joint>, id: nat): (r: Option<Joint>)
    ensures r.Some? ==> r.value in joints && r.value.id == id
    decreases |joints|
  {
    if joints == [] then None else if joints[0].id == id then Some(joints[0]) else Find(joints[1..], id)
  }

  ghost predicate DistinctGroup(group: seq<nat>) {
    forall i, k | 0 <= i < k < |group| :: group[i] != group[k]
  }

  ghost predicate IdsFit(joints: seq<Joint>) { forall i | 0 <= i < |joints| :: joints[i].id < MAX_JOINTS }

  /** Configured joints, none twice. */
  ghost predicate Listed(joints: seq<Joint>, group: seq<nat>) {
    DistinctGroup(group) && forall i | 0 <= i < |group| :: Find(joints, group[i]).Some?
  }

  /** A homing group: some configured joints. */
  ghost predicate ConfiguredGroup(joints: seq<Joint>, group: seq<nat>) { group != [] && Listed(joints, group) }

  ghost predicate ConfiguredJoints(joints: seq<Joint>) {
    DistinctIds(joints) && forall i | 0 <= i < |joints| :: ConfiguredJoint(joints[i])
  }

  // ----- moves

  datatype TargetMode = Absolute | Relative

  datatype Trigger = Trigger(joint: nat, input: nat, condition: Condition)

  datatype Envelope = Envelope(joints: set<nat>, minimum: JointVector, maximum: JointVector)

  datatype Move = Move(
    epoch: nat, id: nat, predecessorBranch: nat, branch: nat, moveId: nat,
    joints: set<nat>, targetMode: TargetMode, target: JointVector,
    velocity: JointVector, acceleration: JointVector, jerk: JointVector,
    envelope: Envelope, triggers: seq<Trigger>, triggerRequired: bool, checkTriggersAtStart: bool)

  function TriggeredJoints(triggers: seq<Trigger>): set<nat> {
    set i | 0 <= i < |triggers| :: triggers[i].joint
  }

  ghost predicate DrivenJoint(m: Move, joint: nat)
    requires joint < MAX_JOINTS
  {
    m.velocity[joint] > 0.0 && m.acceleration[joint] > 0.0 && m.jerk[joint] > 0.0
    && (joint in m.envelope.joints ==> m.envelope.minimum[joint] <= m.envelope.maximum[joint])
  }

  /** validTriggeredJointMove. */
  ghost predicate ValidMove(m: Move) {
    && m.epoch != 0 && m.id != 0 && m.branch != 0 && m.moveId != 0 && m.joints != {}
    && |m.triggers| <= MAX_JOINTS
    && (forall j | j in m.joints :: j < MAX_JOINTS)
    && m.envelope.joints <= m.joints
    && (m.checkTriggersAtStart ==> m.triggerRequired)
    && (forall j | 0 <= j < MAX_JOINTS && j in m.joints :: DrivenJoint(m, j))
    && (forall i | 0 <= i < |m.triggers| :: m.triggers[i].joint in m.joints)
    && (forall i, k | 0 <= i < k < |m.triggers| :: m.triggers[i].joint != m.triggers[k].joint)
    && (m.triggerRequired ==> TriggeredJoints(m.triggers) == m.joints)
  }

  /** The validator's two loops. */
  method ValidTriggeredJointMove(m: Move) returns (valid: bool)
    ensures valid <==> ValidMove(m)
  {
    if m.epoch == 0 || m.id == 0 || m.branch == 0 || m.moveId == 0 || m.joints == {}
       || |m.triggers| > MAX_JOINTS || !(forall j | j in m.joints :: j < MAX_JOINTS)
       || !(m.envelope.joints <= m.joints) || (m.checkTriggersAtStart && !m.triggerRequired) {
      return false;
    }
    for joint := 0 to MAX_JOINTS
      invariant forall j | 0 <= j < joint && j in m.joints :: DrivenJoint(m, j)
    {
      if joint in m.joints {
        if m.velocity[joint] <= 0.0 || m.acceleration[joint] <= 0.0 || m.jerk[joint] <= 0.0
           || (joint in m.envelope.joints && m.envelope.minimum[joint] > m.envelope.maximum[joint]) {
          assert !DrivenJoint(m, joint);
          return false;
        }
      }
    }
    var triggeredJoints: set<nat> := {};
    for i := 0 to |m.triggers|
      invariant triggeredJoints == TriggeredJoints(m.triggers[..i])
      invariant forall k | 0 <= k < i :: m.triggers[k].joint in m.joints
      invariant forall k, l | 0 <= k < l < i :: m.triggers[k].joint != m.triggers[l].joint
    {
      var trigger := m.triggers[i];
      if trigger.joint !in m.joints {
        return false;
      }
      if trigger.joint in triggeredJoints {
        var k :| 0 <= k < i && m.triggers[..i][k].joint == trigger.joint;
        assert m.triggers[k].joint == m.triggers[i].joint;
        return false;
      }
      TriggeredSnoc(m.triggers[..i], trigger);
      assert m.triggers[..i + 1] == m.triggers[..i] + [trigger];
      triggeredJoints := triggeredJoints + {trigger.joint};
    }
    assert m.triggers[..|m.triggers|] == m.triggers;
    return !m.triggerRequired || triggeredJoints == m.joints;
  }

  lemma TriggeredSnoc(triggers: seq<Trigger>, t: Trigger)
    ensures TriggeredJoints(triggers + [t]) == TriggeredJoints(triggers) + {t.joint}
  {
    var all := triggers + [t];
    forall j ensures j in TriggeredJoints(all) <==> j in TriggeredJoints(triggers) + {t.joint} {
      if j in TriggeredJoints(triggers) {
        var i :| 0 <= i < |triggers| && triggers[i].joint == j;
        assert all[i].joint == j;
      }
      if j == t.joint { assert all[|triggers|].joint == j; }
    }
  }

  // ----- building

  datatype Counters = Counters(nextChunk: nat, branch: nat, nextMove: nat, nextRequest: nat)

  const FIRST := Counters(1, 0, 1, 1)

  datatype Phase = FastSearch | Backoff | SlowSearch | FinalMove

  /** std::copysign of 1. */
  function Sign(a: real): real { if a < 0.0 then -1.0 else 1.0 }

  function Direction(j: Joint): real { Sign(Product(j.searchVelocity, j.scale)) }

  /** The joint travel the configured coordinates span. */
  function Range(j: Joint): real {
    var first, second := Product(j.minimum, j.scale), Product(j.maximum, j.scale);
    Max(first, second) - Min(first, second)
  }

  function BackoffTravel(j: Joint): real { Product(j.backoffDistance, Abs(j.scale)) }

  function SlowTravel(j: Joint): real { Product(Max(2.0 * j.backoffDistance, 0.01), Abs(j.scale)) }

  function Target(j: Joint, phase: Phase): real {
    match phase
    case Backoff => -Product(Direction(j), BackoffTravel(j))
    case SlowSearch => Product(Direction(j), SlowTravel(j))
    case FastSearch => Product(Direction(j), Range(j) + 2.0 * BackoffTravel(j))
    case FinalMove => Product(j.homePosition, j.scale)
  }

  function PhaseVelocity(j: Joint, phase: Phase): real {
    match phase
    case Backoff => Abs(Product(j.searchVelocity, j.scale))
    case FastSearch => Abs(Product(j.searchVelocity, j.scale))
    case SlowSearch => Abs(Product(j.latchVelocity, j.scale))
    case FinalMove => if j.finalVelocity == 0.0 then j.maxVelocity else Abs(Product(j.finalVelocity, j.scale))
  }

  predicate Triggered(phase: Phase) { phase == FastSearch || phase == SlowSearch }

  /** FixedArray::push: a full array keeps what it holds. */
  function Push(triggers: seq<Trigger>, t: Trigger): seq<Trigger> {
    if |triggers| >= MAX_JOINTS then triggers else triggers + [t]
  }

  function AddJoint(m: Move, j: Joint, phase: Phase): Move
    requires j.id < MAX_JOINTS
  {
    m.(joints := m.joints + {j.id},
       target := m.target[j.id := Target(j, phase)],
       velocity := m.velocity[j.id := Min(j.maxVelocity, PhaseVelocity(j, phase))],
       acceleration := m.acceleration[j.id := j.maxAcceleration],
       jerk := m.jerk[j.id := j.maxJerk],
       triggers := if Triggered(phase) then Push(m.triggers, Trigger(j.id, j.input, j.condition)) else m.triggers)
  }

  function AddJoints(joints: seq<Joint>, m: Move, group: seq<nat>, phase: Phase): Move
    requires IdsFit(joints)
    decreases |group|
  {
    if group == [] then m
    else
      var before := AddJoints(joints, m, group[..|group| - 1], phase);
      var joint := Find(joints, group[|group| - 1]);
      if joint.None? then before else AddJoint(before, joint.value, phase)
  }

  function Blank(epoch: nat, c: Counters, phase: Phase): Move {
    Move(epoch, c.nextChunk, c.branch, c.branch + 1, c.nextMove,
         {}, if phase == FinalMove then Absolute else Relative, Zeros(), Zeros(), Zeros(), Zeros(),
         Envelope({}, Zeros(), Zeros()), [], Triggered(phase), false)
  }

  function Advance(c: Counters): Counters {
    c.(nextChunk := c.nextChunk + 1, branch := c.branch + 1, nextMove := c.nextMove + 1)
  }

  function MakeMove(joints: seq<Joint>, group: seq<nat>, epoch: nat, c: Counters, phase: Phase): Move
    requires IdsFit(joints)
  {
    AddJoints(joints, Blank(epoch, c, phase), group, phase)
  }

  /** New targets for a group's joints; the rest of the move stays. */
  function Retarget(joints: seq<Joint>, m: Move, group: seq<nat>, targets: JointVector): Move
    requires IdsFit(joints)
    decreases |group|
  {
    if group == [] then m
    else
      var before := Retarget(joints, m, group[..|group| - 1], targets);
      var joint := Find(joints, group[|group| - 1]);
      if joint.None? then before
      else before.(target := before.target[joint.value.id := targets[joint.value.id]])
  }

  function AddReleaseTriggers(joints: seq<Joint>, m: Move, group: seq<nat>): Move
    decreases |group|
  {
    if group == [] then m
    else
      var before := AddReleaseTriggers(joints, m, group[..|group| - 1]);
      var joint := Find(joints, group[|group| - 1]);
      if joint.None? then before
      else
        before.(triggers := Push(before.triggers,
          Trigger(joint.value.id, joint.value.input, ReleasedCondition(joint.value.condition))))
  }

  /** makeReleaseCheck: stay put until every switch is released. */
  function ReleaseCheck(joints: seq<Joint>, group: seq<nat>, epoch: nat, c: Counters, position: JointVector): Move
    requires IdsFit(joints)
  {
    var m := MakeMove(joints, group, epoch, c, Backoff)
      .(targetMode := Absolute, triggerRequired := true, checkTriggersAtStart := true);
    AddReleaseTriggers(joints, Retarget(joints, m, group, position), group)
  }

  /** assignJointPositionEnvelope: each joint between its start and its target. */
  function AssignEnvelope(m: Move, start: JointVector): Move {
    m.(envelope := Envelope(m.joints, Corners(m, start, Min), Corners(m, start, Max)))
  }

  function EndOf(m: Move, start: JointVector, joint: nat): real
    requires joint < MAX_JOINTS
  {
    if m.targetMode == Relative then start[joint] + m.target[joint] else m.target[joint]
  }

  function Corners(m: Move, start: JointVector, corner: (real, real) -> real): (r: JointVector)
    ensures forall j | 0 <= j < MAX_JOINTS ::
              r[j] == if j in m.joints then corner(start[j], EndOf(m, start, j)) else 0.0
  {
    seq(MAX_JOINTS, j requires 0 <= j < MAX_JOINTS =>
      if j in m.joints then corner(start[j], EndOf(m, start, j)) else 0.0)
  }
}
