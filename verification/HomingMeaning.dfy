/** What a homing run asks of the machine, move by move and joint by joint, said
    of the configuration and the answers alone (src/HomingController.cpp 11-24,
    37-215 and 223-300). */
module HomingMeaning {

  import opened Text
  import opened Arithmetic
  import opened Joints
  import opened HomingMoves
  import opened HomingValidity
  import opened HomingRun

  // ----- the five moves of a group: fast search, backoff, release check, slow search, final move

  /** The search runs towards higher joint positions. */
  predicate Rising(j: Joint) { (j.searchVelocity > 0.0) == (j.scale > 0.0) }

  /** `d` along the search. */
  function Along(j: Joint, d: real): real { if Rising(j) then d else -d }

  /** A distance in the joint's own units. */
  function Travel(j: Joint, d: real): real { Product(d, Abs(j.scale)) }

  function Twice(d: real): real { 2.0 * d }

  function TriggerOf(a: MoveAnswer): JointVector { if a.Completed? then a.trigger else Zeros() }

  function StopOf(a: MoveAnswer): JointVector { if a.Completed? then a.stopped else Zeros() }

  /** Whether a move's targets are distances from where it starts. */
  predicate IsRelative(k: nat) { k == 0 || k == 3 }

  /** Where a joint is sent: across its whole range and two backoffs; one backoff
      behind the fast trigger; nowhere; two backoffs, or a hundredth, along the
      search; home. */
  function GoalOf(j: Joint, a: GroupAnswers, k: nat): real
    requires j.id < MAX_JOINTS
  {
    if k == 0 then Along(j, Travel(j, j.maximum - j.minimum + Twice(j.backoffDistance)))
    else if k == 1 then TriggerOf(a.fast)[j.id] - Along(j, Travel(j, j.backoffDistance))
    else if k == 2 then StopOf(a.backoff)[j.id]
    else if k == 3 then
      Along(j, Travel(j, if Twice(j.backoffDistance) < 0.01 then 0.01 else Twice(j.backoffDistance)))
    else Product(j.homePosition, j.scale)
  }

  /** At which velocity, before the joint's limit. */
  function SpeedOf(j: Joint, k: nat): real {
    if k <= 2 then Travel(j, Abs(j.searchVelocity))
    else if k == 3 then Travel(j, Abs(j.latchVelocity))
    else if j.finalVelocity == 0.0 then j.maxVelocity
    else Travel(j, Abs(j.finalVelocity))
  }

  function AtMost(limit: real, v: real): real { if v > limit then limit else v }

  /** The condition a search waits for, and the one that says the switch is released. */
  function ConditionOf(j: Joint, k: nat): Condition {
    if k != 2 then j.condition
    else
      match j.condition
      case Active => Inactive
      case RisingEdge => Inactive
      case Inactive => Active
      case FallingEdge => Active
  }

  /** Where the joints are when the move starts. */
  function StartOf(a: GroupAnswers, k: nat): JointVector {
    if k == 0 then a.fastStart
    else if k == 1 then StopOf(a.fast)
    else if k == 2 then StopOf(a.backoff)
    else if k == 3 then StopOf(a.release)
    else a.finalStart
  }

  /** The searches and the release check end at a trigger; only the latter looks before it moves. */
  predicate EndsAtTrigger(k: nat) { k == 0 || k == 2 || k == 3 }

  /** What the k-th move of a group asks of one of its joints. */
  ghost predicate JointAsked(j: Joint, a: GroupAnswers, k: nat, m: Move)
    requires j.id < MAX_JOINTS
  {
    && m.target[j.id] == GoalOf(j, a, k)
    && m.velocity[j.id] == AtMost(j.maxVelocity, SpeedOf(j, k))
    && m.acceleration[j.id] == j.maxAcceleration && m.jerk[j.id] == j.maxJerk
    && var start := StartOf(a, k)[j.id];
       var end := if IsRelative(k) then start + GoalOf(j, a, k) else GoalOf(j, a, k);
       && m.envelope.minimum[j.id] == (if end < start then end else start)
       && m.envelope.maximum[j.id] == (if end < start then start else end)
  }

  /** The k-th move of a group: its joints and no others, its triggers, one per
      joint or none, and how it is to be carried out. */
  ghost predicate Asked(joints: seq<Joint>, group: seq<nat>, a: GroupAnswers, k: nat, m: Move) {
    && m.joints == Members(group) && m.envelope.joints == m.joints
    && m.targetMode == (if IsRelative(k) then Relative else Absolute)
    && m.triggerRequired == EndsAtTrigger(k) && m.checkTriggersAtStart == (k == 2)
    && |m.triggers| == (if EndsAtTrigger(k) then |group| else 0)
    && (forall i | 0 <= i < |group| ::
          match Find(joints, group[i])
          case None => false
          case Some(j) =>
            && j.id < MAX_JOINTS && JointAsked(j, a, k, m)
            && (EndsAtTrigger(k) ==> m.triggers[i] == Trigger(group[i], j.input, ConditionOf(j, k))))
  }

  // ----- the configuration's numbers

  lemma DirectionIsAlong(j: Joint, d: real)
    requires j.searchVelocity != 0.0 && j.scale != 0.0
    ensures Product(Direction(j), d) == Along(j, d) && Direction(j) == Along(j, 1.0)
  {
    var v, s := j.searchVelocity, j.scale;
    SignOfProduct(v, s);
    hide Product;
    UnitProduct(d);
  }

  lemma UnitProduct(d: real)
    ensures Product(1.0, d) == d && Product(-1.0, d) == -d
  {}

  lemma SignOfProduct(v: real, s: real)
    requires v != 0.0 && s != 0.0
    ensures Product(v, s) < 0.0 <==> (v > 0.0) != (s > 0.0)
    ensures Abs(Product(v, s)) == Product(Abs(v), Abs(s))
  {
    ProductIsPositive(Abs(v), Abs(s));
    assert Product(v, s) == if (v > 0.0) == (s > 0.0) then Product(Abs(v), Abs(s)) else -Product(Abs(v), Abs(s));
  }

  lemma SpeedIsScaled(v: real, s: real)
    ensures Abs(Product(v, s)) == Product(Abs(v), Abs(s))
  {
    if v != 0.0 && s != 0.0 { SignOfProduct(v, s); }
  }

  lemma RangeIsTravel(j: Joint)
    requires j.minimum < j.maximum && j.scale != 0.0
    ensures Range(j) == Travel(j, j.maximum - j.minimum)
  {
    var d := j.maximum - j.minimum;
    ProductIsPositive(d, Abs(j.scale));
    assert Product(j.maximum, j.scale) - Product(j.minimum, j.scale) == Product(d, j.scale);
    assert Product(d, j.scale) == if j.scale < 0.0 then -Product(d, Abs(j.scale)) else Product(d, Abs(j.scale));
  }

  function PhaseOf(k: nat): Phase {
    if k == 0 then FastSearch else if k == 3 then SlowSearch else if k == 4 then FinalMove else Backoff
  }

  lemma SpeedIs(j: Joint, k: nat)
    requires k <= 4
    ensures Min(j.maxVelocity, PhaseVelocity(j, PhaseOf(k))) == AtMost(j.maxVelocity, SpeedOf(j, k))
  {
    SpeedIsScaled(j.searchVelocity, j.scale);
    SpeedIsScaled(j.latchVelocity, j.scale);
    SpeedIsScaled(j.finalVelocity, j.scale);
    hide Product;
  }

  lemma GoalIs(j: Joint, a: GroupAnswers, k: nat)
    requires ConfiguredJoint(j) && (k == 0 || k == 3 || k == 4)
    ensures Target(j, PhaseOf(k)) == GoalOf(j, a, k)
  {
    if k == 0 {
      RangeIsTravel(j);
      DirectionIsAlong(j, Range(j) + 2.0 * BackoffTravel(j));
      ProductAdds(j.maximum - j.minimum, Twice(j.backoffDistance), Abs(j.scale));
      TwiceTravels(j);
    } else if k == 3 {
      DirectionIsAlong(j, SlowTravel(j));
    }
    hide Product;
  }

  lemma TwiceTravels(j: Joint)
    ensures Travel(j, Twice(j.backoffDistance)) == 2.0 * BackoffTravel(j)
  {}

  lemma BehindIs(joints: seq<Joint>, j: Joint, a: GroupAnswers)
    requires ConfiguredJoint(j) && Find(joints, j.id) == Some(j) && a.fast.Completed?
    ensures Behind(joints, a.fast.trigger)[j.id] == GoalOf(j, a, 1)
  {
    DirectionIsAlong(j, BackoffTravel(j));
    assert Behind(joints, a.fast.trigger)[j.id] == BehindAt(joints, a.fast.trigger, j.id);
    hide Product;
  }

  /** Behind the trigger: on the side the search came from. */
  lemma BehindMeans(joints: seq<Joint>, j: Joint, trigger: JointVector, stopped: JointVector)
    requires ConfiguredJoint(j) && Find(joints, j.id) == Some(j)
    ensures IsBehind(joints, j.id, trigger, stopped) <==>
            if Rising(j) then stopped[j.id] < trigger[j.id] else stopped[j.id] > trigger[j.id]
  {
    DirectionIsAlong(j, stopped[j.id] - trigger[j.id]);
    hide Product;
  }

  // ----- each built move asks what it should

  lemma GroupJoint(joints: seq<Joint>, group: seq<nat>, i: nat)
    requires Config(joints, group) && i < |group|
    ensures Find(joints, group[i]).Some?
    ensures var j := Find(joints, group[i]).value; j.id == group[i] < MAX_JOINTS && ConfiguredJoint(j)
  {
    var j := Find(joints, group[i]).value;
    var n :| 0 <= n < |joints| && joints[n] == j;
    assert ConfiguredJoint(joints[n]);
  }

  lemma EnvelopeIs(m: Move, start: JointVector, id: nat)
    requires id < MAX_JOINTS && id in m.joints
    ensures var n := AssignEnvelope(m, start);
            var end := if m.targetMode == Relative then start[id] + m.target[id] else m.target[id];
            && n.envelope.joints == m.joints
            && n.envelope.minimum[id] == (if end < start[id] then end else start[id])
            && n.envelope.maximum[id] == (if end < start[id] then start[id] else end)
  {}

  /** A move that asks for the targets and speeds, its envelope still to come. */
  ghost predicate Prepared(joints: seq<Joint>, group: seq<nat>, a: GroupAnswers, k: nat, m: Move) {
    && m.joints == Members(group)
    && m.targetMode == (if IsRelative(k) then Relative else Absolute)
    && m.triggerRequired == EndsAtTrigger(k) && m.checkTriggersAtStart == (k == 2)
    && (if EndsAtTrigger(k) then HasTriggers(joints, m.triggers, group, k == 2) else m.triggers == [])
    && forall i | 0 <= i < |group| ::
         match Find(joints, group[i])
         case None => false
         case Some(j) => j.id < MAX_JOINTS && JointPrepared(j, a, k, m)
  }

  ghost predicate JointPrepared(j: Joint, a: GroupAnswers, k: nat, m: Move)
    requires j.id < MAX_JOINTS
  {
    && m.target[j.id] == GoalOf(j, a, k) && m.velocity[j.id] == AtMost(j.maxVelocity, SpeedOf(j, k))
    && m.acceleration[j.id] == j.maxAcceleration && m.jerk[j.id] == j.maxJerk
  }

  lemma PreparedAsks(joints: seq<Joint>, group: seq<nat>, a: GroupAnswers, k: nat, m: Move)
    requires Config(joints, group) && Prepared(joints, group, a, k, m)
    ensures Asked(joints, group, a, k, AssignEnvelope(m, StartOf(a, k)))
  {
    hide GoalOf, SpeedOf, StartOf, Config, Find;
    var n := AssignEnvelope(m, StartOf(a, k));
    forall i | 0 <= i < |group|
      ensures Find(joints, group[i]).Some?
      ensures var j := Find(joints, group[i]).value;
              && j.id < MAX_JOINTS && JointAsked(j, a, k, n)
              && (EndsAtTrigger(k) ==> m.triggers[i] == Trigger(group[i], j.input, ConditionOf(j, k)))
    {
      GroupJoint(joints, group, i);
      var j := Find(joints, group[i]).value;
      assert JointPrepared(j, a, k, m);
      assert group[i] in Members(group);
      EnvelopeIs(m, StartOf(a, k), j.id);
      assert ReleasedCondition(j.condition) == ConditionOf(j, 2);
    }
  }

  lemma BuiltIsPrepared(joints: seq<Joint>, group: seq<nat>, epoch: nat, c: Counters, a: GroupAnswers, k: nat)
    requires Config(joints, group) && group != [] && (k == 0 || k == 3 || k == 4)
    ensures IdsFit(joints) && Prepared(joints, group, a, k, MakeMove(joints, group, epoch, c, PhaseOf(k)))
  {
    ConfigFits(joints, group);
    AddJointsBuilds(joints, Blank(epoch, c, PhaseOf(k)), group, PhaseOf(k));
    var m := MakeMove(joints, group, epoch, c, PhaseOf(k));
    hide MakeMove, HasTriggers, Target, PhaseVelocity, GoalOf, SpeedOf, Config;
    forall i | 0 <= i < |group|
      ensures Find(joints, group[i]).Some?
      ensures var j := Find(joints, group[i]).value; j.id < MAX_JOINTS && JointPrepared(j, a, k, m)
    {
      GroupJoint(joints, group, i);
      var j := Find(joints, group[i]).value;
      GoalIs(j, a, k);
      SpeedIs(j, k);
    }
  }

  lemma BackoffIsPrepared(joints: seq<Joint>, group: seq<nat>, epoch: nat, c: Counters, a: GroupAnswers)
    requires Config(joints, group) && group != [] && a.fast.Completed?
    ensures IdsFit(joints)
    ensures var m := MakeMove(joints, group, epoch, c, Backoff).(targetMode := Absolute);
            Prepared(joints, group, a, 1, Retarget(joints, m, group, Behind(joints, a.fast.trigger)))
  {
    ConfigFits(joints, group);
    AddJointsBuilds(joints, Blank(epoch, c, Backoff), group, Backoff);
    var made := MakeMove(joints, group, epoch, c, Backoff);
    var m := made.(targetMode := Absolute);
    var targets := Behind(joints, a.fast.trigger);
    RetargetSets(joints, m, group, targets);
    var r := Retarget(joints, m, group, targets);
    hide MakeMove, Retarget, HasTriggers, Target, PhaseVelocity, GoalOf, SpeedOf, Config, Behind;
    forall i | 0 <= i < |group|
      ensures Find(joints, group[i]).Some?
      ensures var j := Find(joints, group[i]).value; j.id < MAX_JOINTS && JointPrepared(j, a, 1, r)
    {
      GroupJoint(joints, group, i);
      var j := Find(joints, group[i]).value;
      assert group[i] in Members(group);
      BehindIs(joints, j, a);
      SpeedIs(j, 1);
    }
  }

  lemma ReleaseIsPrepared(joints: seq<Joint>, group: seq<nat>, epoch: nat, c: Counters, a: GroupAnswers)
    requires Config(joints, group) && group != [] && a.backoff.Completed?
    ensures IdsFit(joints) && Prepared(joints, group, a, 2, ReleaseCheck(joints, group, epoch, c, a.backoff.stopped))
  {
    ConfigFits(joints, group);
    AddJointsBuilds(joints, Blank(epoch, c, Backoff), group, Backoff);
    var made := MakeMove(joints, group, epoch, c, Backoff);
    var base := made.(targetMode := Absolute, triggerRequired := true, checkTriggersAtStart := true);
    RetargetSets(joints, base, group, a.backoff.stopped);
    var placed := Retarget(joints, base, group, a.backoff.stopped);
    ReleaseTriggersAdd(joints, placed, group);
    var r := ReleaseCheck(joints, group, epoch, c, a.backoff.stopped);
    assert r == placed.(triggers := r.triggers);
    hide MakeMove, Retarget, ReleaseCheck, HasTriggers, Target, PhaseVelocity, SpeedOf, Config;
    forall i | 0 <= i < |group|
      ensures Find(joints, group[i]).Some?
      ensures var j := Find(joints, group[i]).value; j.id < MAX_JOINTS && JointPrepared(j, a, 2, r)
    {
      GroupJoint(joints, group, i);
      var j := Find(joints, group[i]).value;
      assert group[i] in Members(group);
      SpeedIs(j, 2);
    }
  }

  // ----- a group, and the run

  function AnswerOf(a: GroupAnswers, k: nat): MoveAnswer {
    if k == 0 then a.fast else if k == 1 then a.backoff else if k == 2 then a.release else if k == 3 then a.slow else a.final
  }

  /** The first moves of a group, in order. */
  ghost predicate MovesAsked(joints: seq<Joint>, group: seq<nat>, a: GroupAnswers, moves: seq<Move>) {
    |moves| <= 5 && forall k | 0 <= k < |moves| :: Asked(joints, group, a, k, moves[k])
  }

  /** What a group has added to a run so far: its first moves, in order; and the
      run is stopped exactly when the last of them was aborted. */
  ghost predicate SoFar(
    joints: seq<Joint>, group: seq<nat>, a: GroupAnswers, r: Issued, added: seq<Move>, n: Issued)
  {
    && MovesAsked(joints, group, a, added) && n.moves == r.moves + added
    && (n.progress == HomingRun.Stopped <==> added != [] && AnswerOf(a, |added| - 1).WasAborted())
  }

  /** What a whole group adds: at least one move, and all five if it lets the run proceed. */
  ghost predicate GroupAsks(
    joints: seq<Joint>, group: seq<nat>, a: GroupAnswers, r: Issued, added: seq<Move>, n: Issued)
  {
    SoFar(joints, group, a, r, added, n) && added != [] && (n.progress == Proceed ==> |added| == 5)
  }

  lemma SentAsks(
    joints: seq<Joint>, group: seq<nat>, a: GroupAnswers, r: Issued, added: seq<Move>, n: Issued, m: Move, p: Progress)
    requires SoFar(joints, group, a, r, added, n) && |added| < 5 && Asked(joints, group, a, |added|, m)
    requires p == HomingRun.Stopped <==> AnswerOf(a, |added|).WasAborted()
    ensures SoFar(joints, group, a, r, added + [m], Sent(n, m, p))
  {
    hide Asked, AnswerOf;
    assert n.moves + [m] == r.moves + (added + [m]);
  }

  lemma GroupEnds(joints: seq<Joint>, group: seq<nat>, a: GroupAnswers, r: Issued, added: seq<Move>, n: Issued)
    requires SoFar(joints, group, a, r, added, n) && added != [] && n.progress != Proceed
    ensures GroupAsks(joints, group, a, r, added, n)
  {
    hide SoFar;
  }

  lemma ProgressIs(joints: seq<Joint>, group: seq<nat>, a: GroupAnswers)
    ensures SearchProgress(a.fast) == HomingRun.Stopped <==> AnswerOf(a, 0).WasAborted()
    ensures a.fast.Completed? ==> (BackoffProgress(joints, group, a) == HomingRun.Stopped <==> AnswerOf(a, 1).WasAborted())
    ensures SearchProgress(a.release) == HomingRun.Stopped <==> AnswerOf(a, 2).WasAborted()
    ensures SearchProgress(a.slow) == HomingRun.Stopped <==> AnswerOf(a, 3).WasAborted()
    ensures ArrivalProgress(a.final) == HomingRun.Stopped <==> AnswerOf(a, 4).WasAborted()
    ensures SearchProgress(a.fast) == Proceed ==> a.fast.Completed?
    ensures SearchProgress(a.release) == Proceed ==> a.release.Completed?
    ensures SearchProgress(a.slow) == Proceed ==> a.slow.Completed? && !AnswerOf(a, 3).WasAborted()
    ensures a.fast.Completed? && BackoffProgress(joints, group, a) == Proceed ==> a.backoff.Completed?
  {
    hide AllBehind;
  }

  lemma FirstMovesAsk(joints: seq<Joint>, group: seq<nat>, epoch: nat, c: Counters, a: GroupAnswers)
    requires Config(joints, group) && group != []
    ensures IdsFit(joints) && Asked(joints, group, a, 0, FastMove(joints, group, epoch, c, a))
    ensures a.fast.Completed? ==> Asked(joints, group, a, 1, BackoffMove(joints, group, epoch, c, a.fast))
    ensures a.backoff.Completed? ==> Asked(joints, group, a, 2, ReleaseMove(joints, group, epoch, c, a.backoff))
  {
    BuiltIsPrepared(joints, group, epoch, c, a, 0);
    PreparedAsks(joints, group, a, 0, MakeMove(joints, group, epoch, c, FastSearch));
    hide Prepared, Asked, AssignEnvelope, MakeMove, Retarget, ReleaseCheck, Behind, Config;
    if a.fast.Completed? {
      BackoffIsPrepared(joints, group, epoch, c, a);
      var m := MakeMove(joints, group, epoch, c, Backoff).(targetMode := Absolute);
      PreparedAsks(joints, group, a, 1, Retarget(joints, m, group, Behind(joints, a.fast.trigger)));
    }
    if a.backoff.Completed? {
      ReleaseIsPrepared(joints, group, epoch, c, a);
      PreparedAsks(joints, group, a, 2, ReleaseCheck(joints, group, epoch, c, a.backoff.stopped));
    }
  }

  lemma LastMovesAsk(joints: seq<Joint>, group: seq<nat>, epoch: nat, c: Counters, a: GroupAnswers)
    requires Config(joints, group) && group != []
    ensures IdsFit(joints) && Asked(joints, group, a, 4, HomeMove(joints, group, epoch, c, a))
    ensures a.release.Completed? ==> Asked(joints, group, a, 3, SlowMove(joints, group, epoch, c, a.release))
  {
    BuiltIsPrepared(joints, group, epoch, c, a, 3);
    BuiltIsPrepared(joints, group, epoch, c, a, 4);
    hide Prepared, Asked, AssignEnvelope, MakeMove, Config;
    PreparedAsks(joints, group, a, 3, MakeMove(joints, group, epoch, c, SlowSearch));
    PreparedAsks(joints, group, a, 4, MakeMove(joints, group, epoch, c, FinalMove));
  }

  lemma CalibrationAsks(
    joints: seq<Joint>, group: seq<nat>, a: GroupAnswers, r: Issued, added: seq<Move>, n: Issued, slow: Move)
    requires SoFar(joints, group, a, r, added, n) && |added| == 4 && a.slow.Completed? && n.progress == Proceed
    requires !AnswerOf(a, 3).WasAborted()
    ensures SoFar(joints, group, a, r, added, Calibrate(joints, group, n, slow, a))
  {
    hide Asked, Calibrated;
  }

  lemma AfterReleaseAsks(
    joints: seq<Joint>, group: seq<nat>, epoch: nat, r: Issued, n: Issued, a: GroupAnswers, done: seq<Move>)
    returns (added: seq<Move>)
    requires Config(joints, group) && group != [] && a.release.Completed? && n.progress == Proceed
    requires |done| == 3 && SoFar(joints, group, a, r, done, n)
    ensures IdsFit(joints) && GroupAsks(joints, group, a, r, added, HomeAfterRelease(joints, group, epoch, n, a))
  {
    ConfigFits(joints, group);
    hide Asked, SoFar, SlowMove, HomeMove, Calibrate, Config, IdsFit, SearchProgress, ArrivalProgress, AnswerOf, AllBehind;
    ProgressIs(joints, group, a);
    LastMovesAsk(joints, group, epoch, n.counters, a);
    var move := SlowMove(joints, group, epoch, n.counters, a.release);
    var slow := Sent(n, move, SearchProgress(a.slow));
    SentAsks(joints, group, a, r, done, n, move, SearchProgress(a.slow));
    added := done + [move];
    if slow.progress == Proceed {
      var next := Calibrate(joints, group, slow, move, a);
      CalibrationAsks(joints, group, a, r, added, slow, move);
      if next.progress == Proceed {
        LastMovesAsk(joints, group, epoch, next.counters, a);
        var last := HomeMove(joints, group, epoch, next.counters, a);
        SentAsks(joints, group, a, r, added, next, last, ArrivalProgress(a.final));
        added := added + [last];
      }
    }
  }

  lemma AfterBackoffAsks(
    joints: seq<Joint>, group: seq<nat>, epoch: nat, r: Issued, n: Issued, a: GroupAnswers, done: seq<Move>)
    returns (added: seq<Move>)
    requires Config(joints, group) && group != [] && a.backoff.Completed? && n.progress == Proceed
    requires |done| == 2 && SoFar(joints, group, a, r, done, n)
    ensures IdsFit(joints)
    ensures var release := Sent(n, ReleaseMove(joints, group, epoch, n.counters, a.backoff), SearchProgress(a.release));
            GroupAsks(joints, group, a, r, added,
                      if release.progress != Proceed then release else HomeAfterRelease(joints, group, epoch, release, a))
  {
    ConfigFits(joints, group);
    hide Asked, SoFar, ReleaseMove, Config, IdsFit, HomeAfterRelease, SearchProgress, AnswerOf;
    ProgressIs(joints, group, a);
    FirstMovesAsk(joints, group, epoch, n.counters, a);
    var third := ReleaseMove(joints, group, epoch, n.counters, a.backoff);
    var release := Sent(n, third, SearchProgress(a.release));
    SentAsks(joints, group, a, r, done, n, third, SearchProgress(a.release));
    added := done + [third];
    if release.progress == Proceed {
      added := AfterReleaseAsks(joints, group, epoch, r, release, a, added);
    }
  }

  lemma AfterFastAsks(
    joints: seq<Joint>, group: seq<nat>, epoch: nat, r: Issued, n: Issued, a: GroupAnswers, done: seq<Move>)
    returns (added: seq<Move>)
    requires Config(joints, group) && group != [] && a.fast.Completed? && n.progress == Proceed
    requires |done| == 1 && SoFar(joints, group, a, r, done, n)
    ensures IdsFit(joints)
    ensures var backoff := Sent(n, BackoffMove(joints, group, epoch, n.counters, a.fast), BackoffProgress(joints, group, a));
            GroupAsks(joints, group, a, r, added,
                      if backoff.progress != Proceed then backoff
                      else assert a.backoff.Completed? by { ProgressIs(joints, group, a); }
                           var release := Sent(backoff, ReleaseMove(joints, group, epoch, backoff.counters, a.backoff),
                                               SearchProgress(a.release));
                           if release.progress != Proceed then release
                           else HomeAfterRelease(joints, group, epoch, release, a))
  {
    ConfigFits(joints, group);
    hide Asked, SoFar, GroupAsks, BackoffMove, ReleaseMove, Config, IdsFit, HomeAfterRelease, AllBehind, SearchProgress,
      BackoffProgress, AnswerOf;
    ProgressIs(joints, group, a);
    FirstMovesAsk(joints, group, epoch, n.counters, a);
    var second := BackoffMove(joints, group, epoch, n.counters, a.fast);
    var backoff := Sent(n, second, BackoffProgress(joints, group, a));
    SentAsks(joints, group, a, r, done, n, second, BackoffProgress(joints, group, a));
    added := done + [second];
    if backoff.progress == Proceed {
      added := AfterBackoffAsks(joints, group, epoch, r, backoff, a, added);
    } else {
      GroupEnds(joints, group, a, r, added, backoff);
    }
  }

  /** Every group does what it is asked. */
  lemma GroupDoes(joints: seq<Joint>, group: seq<nat>, epoch: nat, r: Issued, a: GroupAnswers) returns (added: seq<Move>)
    requires Config(joints, group) && group != [] && r.progress == Proceed
    ensures IdsFit(joints) && GroupAsks(joints, group, a, r, added, HomeGroup(joints, group, epoch, r, a))
  {
    ConfigFits(joints, group);
    assert SoFar(joints, group, a, r, [], r);
    hide Asked, SoFar, GroupAsks, FastMove, BackoffMove, ReleaseMove, Config, IdsFit, HomeAfterRelease, AllBehind,
      SearchProgress, BackoffProgress, AnswerOf;
    ProgressIs(joints, group, a);
    var first := FastMove(joints, group, epoch, r.counters, a);
    var fast := Sent(r, first, SearchProgress(a.fast));
    FirstMovesAsk(joints, group, epoch, r.counters, a);
    SentAsks(joints, group, a, r, [], r, first, SearchProgress(a.fast));
    added := [] + [first];
    if fast.progress == Proceed {
      added := AfterFastAsks(joints, group, epoch, r, fast, a, added);
    } else {
      GroupEnds(joints, group, a, r, added, fast);
    }
  }

  /** The number of the k-th move of group `g`. */
  function Number(g: nat, k: nat): nat { 5 * g + k }

  /** Everything a run has moved so far. */
  ghost predicate AllAsked(joints: seq<Joint>, groups: seq<seq<nat>>, answers: seq<GroupAnswers>, n: Issued)
    requires |answers| == |groups|
  {
    && |n.moves| <= 5 * |groups|
    && (n.progress == Proceed ==> |n.moves| == 5 * |groups|)
    && (n.progress == HomingRun.Stopped ==>
          n.moves != [] && AnswerOf(answers[(|n.moves| - 1) / 5], (|n.moves| - 1) % 5).WasAborted())
    && (n.progress == HomingRun.Failed && n.moves != [] ==>
          !AnswerOf(answers[(|n.moves| - 1) / 5], (|n.moves| - 1) % 5).WasAborted())
    && (forall g, k: nat | 0 <= g < |groups| && k < 5 && Number(g, k) < |n.moves| ::
          Asked(joints, groups[g], answers[g], k, n.moves[Number(g, k)]))
  }

  lemma GroupExtendsAsked(
    joints: seq<Joint>, groups: seq<seq<nat>>, answers: seq<GroupAnswers>, before: Issued, added: seq<Move>, n: Issued)
    requires |answers| == |groups| > 0 && before.progress == Proceed
    requires AllAsked(joints, groups[..|groups| - 1], answers[..|groups| - 1], before)
    requires GroupAsks(joints, groups[|groups| - 1], answers[|groups| - 1], before, added, n)
    ensures AllAsked(joints, groups, answers, n)
  {
    hide Asked;
    var last := |groups| - 1;
    assert |before.moves| == 5 * last;
    forall g, k: nat | 0 <= g < |groups| && k < 5 && Number(g, k) < |n.moves|
      ensures Asked(joints, groups[g], answers[g], k, n.moves[Number(g, k)])
    {
      if g < last {
        assert Asked(joints, groups[..last][g], answers[..last][g], k, before.moves[Number(g, k)]);
        assert n.moves[Number(g, k)] == before.moves[Number(g, k)];
      } else {
        assert Number(g, k) == |before.moves| + k;
        assert n.moves[Number(g, k)] == added[k];
      }
    }
    assert (|n.moves| - 1) / 5 == last && (|n.moves| - 1) % 5 == |n.moves| - |before.moves| - 1;
  }

  lemma StoppedStaysAsked(joints: seq<Joint>, groups: seq<seq<nat>>, answers: seq<GroupAnswers>, n: Issued)
    requires |answers| == |groups| > 0 && n.progress != Proceed
    requires AllAsked(joints, groups[..|groups| - 1], answers[..|groups| - 1], n)
    ensures AllAsked(joints, groups, answers, n)
  {
    hide Asked;
    var last := |groups| - 1;
    forall g, k: nat | 0 <= g < |groups| && k < 5 && Number(g, k) < |n.moves|
      ensures Asked(joints, groups[g], answers[g], k, n.moves[Number(g, k)])
    {
      assert g < last;
      assert Asked(joints, groups[..last][g], answers[..last][g], k, n.moves[Number(g, k)]);
    }
  }

  lemma {:induction false} GroupsDo(
    joints: seq<Joint>, groups: seq<seq<nat>>, epoch: nat, r: Issued, answers: seq<GroupAnswers>)
    requires Configuration(joints, groups) && |answers| == |groups| && r.moves == [] && r.progress == Proceed
    ensures IdsFit(joints) && AllAsked(joints, groups, answers, HomeGroups(joints, groups, epoch, r, answers))
    decreases |groups|
  {
    hide HomeGroup, ConfiguredGroup, ConfiguredJoints, IdsFit, Config, Asked;
    ConfigurationFits(joints, groups);
    if groups != [] {
      hide AllAsked;
      var k := |groups| - 1;
      GroupsDo(joints, groups[..k], epoch, r, answers[..k]);
      var before := HomeGroups(joints, groups[..k], epoch, r, answers[..k]);
      if before.progress == Proceed {
        GroupIsConfig(joints, groups, k);
        var added := GroupDoes(joints, groups[k], epoch, before, answers[k]);
        GroupExtendsAsked(joints, groups, answers, before, added, HomeGroup(joints, groups[k], epoch, before, answers[k]));
      } else {
        StoppedStaysAsked(joints, groups, answers, before);
      }
    }
  }

  /** For every valid configuration and all answers: the k-th move of every group
      a run gets to asks of each of its joints exactly what that phase of homing
      is for, and of no other joint anything. A run that gets to move and does not
      proceed ends as stopped when its last move was aborted and as failed
      otherwise, and so does its result once the backend is at rest. */
  lemma RunAsks(
    joints: seq<Joint>, groups: seq<seq<nat>>, epoch: nat, initial: JointVector, startup: Startup,
    answers: seq<GroupAnswers>, quiesced: bool)
    requires Configuration(joints, groups) && |answers| == |groups|
    ensures IdsFit(joints)
    ensures var n := RunHoming(joints, groups, epoch, initial, startup, answers);
            && |n.moves| <= 5 * |groups|
            && (forall g, k: nat | 0 <= g < |groups| && k < 5 && Number(g, k) < |n.moves| ::
                  Asked(joints, groups[g], answers[g], k, n.moves[Number(g, k)]))
            && (HomingRun.Result(joints, n.progress, quiesced) == HomingStopped <==>
                  && quiesced && n.progress != Proceed && n.moves != []
                  && AnswerOf(answers[(|n.moves| - 1) / 5], (|n.moves| - 1) % 5).WasAborted())
            && (HomingRun.Result(joints, n.progress, quiesced).HomingCompleted? <==> quiesced && n.progress == Proceed)
  {
    ConfigurationFits(joints, groups);
    hide Asked, HomeGroups, Configuration, IdsFit;
    GroupsDo(joints, groups, epoch, AtStart(joints, initial), answers);
  }
}
