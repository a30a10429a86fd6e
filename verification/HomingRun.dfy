/** A whole homing run against arbitrary backend answers: the moves and
    coordinate settings it issues, in order, and what its result means
    (src/HomingController.cpp 37-215 and 302-377). */
module HomingRun {

  import opened Text
  import opened Arithmetic
  import opened Joints
  import opened HomingMoves
  import opened HomingValidity

  // ----- answers and commands

  datatype Status = HitTrigger | ReachedTarget | Aborted | Fault

  /** What comes of a move: refused, lost or timed out; or completed with the
      positions where each joint met its trigger and where it stopped. */
  datatype MoveAnswer = Refused | Completed(status: Status, trigger: JointVector, stopped: JointVector) {
    predicate Failed() { Refused? || status == Fault }
    predicate WasAborted() { Completed? && status == Aborted }
    predicate Arrived() { Completed? && status == ReachedTarget }
    predicate Ended() { Completed? && status != Fault && status != Aborted }
  }

  /** The answers to one group's phases, with the joint positions last observed
      where the code starts an envelope from an observation. */
  datatype GroupAnswers = GroupAnswers(
    fastStart: JointVector, fast: MoveAnswer, backoff: MoveAnswer, release: MoveAnswer, slow: MoveAnswer,
    established: bool, finalStart: JointVector, final: MoveAnswer)

  /** A coordinate setting, and how many moves had been sent before it. */
  datatype Setting = Setting(request: nat, joints: set<nat>, positions: JointVector, after: nat)

  datatype Progress = Proceed | Stopped | Failed

  datatype Issued = Issued(progress: Progress, moves: seq<Move>, settings: seq<Setting>, counters: Counters)

  // ----- targets and checks between the moves

  function BehindAt(joints: seq<Joint>, trigger: JointVector, id: nat): real
    requires id < MAX_JOINTS
  {
    match Find(joints, id)
    case None => trigger[id]
    case Some(j) => trigger[id] - Product(Direction(j), BackoffTravel(j))
  }

  /** The backoff targets: each joint one backoff behind its fast trigger. */
  function Behind(joints: seq<Joint>, trigger: JointVector): (r: JointVector)
    ensures forall id | 0 <= id < MAX_JOINTS :: r[id] == BehindAt(joints, trigger, id)
  {
    seq(MAX_JOINTS, id requires 0 <= id < MAX_JOINTS => BehindAt(joints, trigger, id))
  }

  predicate IsBehind(joints: seq<Joint>, id: nat, trigger: JointVector, stopped: JointVector) {
    id < MAX_JOINTS ==>
      match Find(joints, id)
      case None => true
      case Some(j) => Product(Direction(j), stopped[id] - trigger[id]) < 0.0
  }

  predicate AllBehind(joints: seq<Joint>, group: seq<nat>, trigger: JointVector, stopped: JointVector) {
    forall i | 0 <= i < |group| :: IsBehind(joints, group[i], trigger, stopped)
  }

  function CalibratedAt(joints: seq<Joint>, group: seq<nat>, trigger: JointVector, stopped: JointVector, id: nat): real
    requires id < MAX_JOINTS
  {
    match Find(joints, id)
    case None => stopped[id]
    case Some(j) => if id in group then stopped[id] + (Product(j.switchPosition, j.scale) - trigger[id]) else stopped[id]
  }

  /** The coordinates set after the slow search. */
  function Calibrated(joints: seq<Joint>, group: seq<nat>, trigger: JointVector, stopped: JointVector): (r: JointVector)
    ensures forall id | 0 <= id < MAX_JOINTS :: r[id] == CalibratedAt(joints, group, trigger, stopped, id)
  {
    seq(MAX_JOINTS, id requires 0 <= id < MAX_JOINTS => CalibratedAt(joints, group, trigger, stopped, id))
  }

  /** Calibration maps each trigger point to the configured switch coordinate and
      keeps every distance on the joint, so the overshoot past the trigger too. */
  lemma CalibrationMapsTrigger(joints: seq<Joint>, group: seq<nat>, trigger: JointVector, stopped: JointVector, id: nat)
    requires ConfiguredJoints(joints) && id in group && Find(joints, id).Some?
    ensures id < MAX_JOINTS
    ensures var j := Find(joints, id).value;
            var set' := Calibrated(joints, group, trigger, stopped)[id];
            && set' - Product(j.switchPosition, j.scale) == stopped[id] - trigger[id]
            && (stopped[id] == trigger[id] ==> set' == Product(j.switchPosition, j.scale))
  {
    var j := Find(joints, id).value;
    assert j in joints;
  }

  /** Joints outside the group keep the coordinates they stopped at. */
  lemma CalibrationKeepsOthers(joints: seq<Joint>, group: seq<nat>, trigger: JointVector, stopped: JointVector, id: nat)
    requires id < MAX_JOINTS && id !in group
    ensures Calibrated(joints, group, trigger, stopped)[id] == stopped[id]
  {
    assert Calibrated(joints, group, trigger, stopped)[id] == CalibratedAt(joints, group, trigger, stopped, id);
  }

  // ----- the phases of one group

  function FastMove(joints: seq<Joint>, group: seq<nat>, epoch: nat, c: Counters, a: GroupAnswers): Move
    requires IdsFit(joints)
  {
    AssignEnvelope(MakeMove(joints, group, epoch, c, FastSearch), a.fastStart)
  }

  function BackoffMove(joints: seq<Joint>, group: seq<nat>, epoch: nat, c: Counters, fast: MoveAnswer): Move
    requires IdsFit(joints) && fast.Completed?
  {
    var m := MakeMove(joints, group, epoch, c, Backoff).(targetMode := Absolute);
    AssignEnvelope(Retarget(joints, m, group, Behind(joints, fast.trigger)), fast.stopped)
  }

  function ReleaseMove(joints: seq<Joint>, group: seq<nat>, epoch: nat, c: Counters, backoff: MoveAnswer): Move
    requires IdsFit(joints) && backoff.Completed?
  {
    AssignEnvelope(ReleaseCheck(joints, group, epoch, c, backoff.stopped), backoff.stopped)
  }

  function SlowMove(joints: seq<Joint>, group: seq<nat>, epoch: nat, c: Counters, release: MoveAnswer): Move
    requires IdsFit(joints) && release.Completed?
  {
    AssignEnvelope(MakeMove(joints, group, epoch, c, SlowSearch), release.stopped)
  }

  function HomeMove(joints: seq<Joint>, group: seq<nat>, epoch: nat, c: Counters, a: GroupAnswers): Move
    requires IdsFit(joints)
  {
    AssignEnvelope(MakeMove(joints, group, epoch, c, FinalMove), a.finalStart)
  }

  function Sent(r: Issued, m: Move, progress: Progress): Issued {
    r.(progress := progress, moves := r.moves + [m], counters := Advance(r.counters))
  }

  /** How a search phase goes on: any end but failure or an abort. */
  function SearchProgress(a: MoveAnswer): Progress {
    if a.Failed() then Failed else if a.WasAborted() then Stopped else Proceed
  }

  /** How a positioning phase goes on: it must have arrived. */
  function ArrivalProgress(a: MoveAnswer): Progress {
    if a.Failed() then Failed else if a.WasAborted() then Stopped else if a.Arrived() then Proceed else Failed
  }

  function BackoffProgress(joints: seq<Joint>, group: seq<nat>, a: GroupAnswers): Progress
    requires a.fast.Completed?
  {
    if ArrivalProgress(a.backoff) != Proceed then ArrivalProgress(a.backoff)
    else if AllBehind(joints, group, a.fast.trigger, a.backoff.stopped) then Proceed else Failed
  }

  function Calibrate(joints: seq<Joint>, group: seq<nat>, r: Issued, slow: Move, a: GroupAnswers): Issued
    requires a.slow.Completed?
  {
    var request := Setting(r.counters.nextRequest, if slow.triggerRequired then slow.joints else {},
                           Calibrated(joints, group, a.slow.trigger, a.slow.stopped), |r.moves|);
    r.(progress := if a.established then Proceed else Failed, settings := r.settings + [request],
       counters := r.counters.(nextRequest := r.counters.nextRequest + 1))
  }

  /** The five moves and the setting of one group, as far as the answers let it. */
  function HomeGroup(joints: seq<Joint>, group: seq<nat>, epoch: nat, r: Issued, a: GroupAnswers): Issued
    requires IdsFit(joints)
  {
    var fast := Sent(r, FastMove(joints, group, epoch, r.counters, a), SearchProgress(a.fast));
    if fast.progress != Proceed then fast
    else
      var backoff := Sent(fast, BackoffMove(joints, group, epoch, fast.counters, a.fast),
                          BackoffProgress(joints, group, a));
      if backoff.progress != Proceed then backoff
      else
        var release := Sent(backoff, ReleaseMove(joints, group, epoch, backoff.counters, a.backoff),
                            SearchProgress(a.release));
        if release.progress != Proceed then release
        else HomeAfterRelease(joints, group, epoch, release, a)
  }

  function HomeAfterRelease(joints: seq<Joint>, group: seq<nat>, epoch: nat, r: Issued, a: GroupAnswers): Issued
    requires IdsFit(joints) && a.release.Completed?
  {
    var move := SlowMove(joints, group, epoch, r.counters, a.release);
    var slow := Sent(r, move, SearchProgress(a.slow));
    if slow.progress != Proceed then slow
    else
      var set' := Calibrate(joints, group, slow, move, a);
      if set'.progress != Proceed then set'
      else Sent(set', HomeMove(joints, group, epoch, set'.counters, a), ArrivalProgress(a.final))
  }

  // ----- what every prefix of a run keeps

  /** Every move is valid, of this epoch, and follows the one before without a
      gap; settings are numbered on; the counters stand right after them. */
  ghost predicate WellIssued(epoch: nat, r: Issued) {
    && (forall k | 0 <= k < |r.moves| :: ValidMove(r.moves[k]) && InChain(epoch, r.moves[k], k))
    && (forall k | 0 <= k < |r.settings| :: r.settings[k].request == k + 1 && r.settings[k].after <= |r.moves|)
    && r.counters == Counters(|r.moves| + 1, |r.moves|, |r.moves| + 1, |r.settings| + 1)
  }

  /** The k-th move of a run: its predecessor is the branch of the move before. */
  ghost predicate InChain(epoch: nat, m: Move, k: nat) {
    m.epoch == epoch && m.id == k + 1 && m.predecessorBranch == k && m.branch == k + 1 && m.moveId == k + 1
  }

  ghost predicate CountersAt(c: Counters, k: nat) {
    c.nextChunk == k + 1 && c.branch == k && c.nextMove == k + 1
  }

  lemma SendingKeeps(epoch: nat, r: Issued, m: Move, progress: Progress)
    requires WellIssued(epoch, r) && ValidMove(m) && InChain(epoch, m, |r.moves|)
    ensures WellIssued(epoch, Sent(r, m, progress))
  {
    hide ValidMove;
  }

  lemma FastIsSound(joints: seq<Joint>, group: seq<nat>, epoch: nat, c: Counters, a: GroupAnswers, k: nat)
    requires Config(joints, group) && group != [] && epoch > 0 && CountersAt(c, k)
    ensures ValidMove(FastMove(joints, group, epoch, c, a)) && InChain(epoch, FastMove(joints, group, epoch, c, a), k)
  {
    MoveIsWellFormed(joints, group, epoch, c, FastSearch);
    EnvelopeKeepsValid(MakeMove(joints, group, epoch, c, FastSearch), a.fastStart);
    hide ValidMove, MakeMove, Asks;
  }

  lemma BackoffIsSound(joints: seq<Joint>, group: seq<nat>, epoch: nat, c: Counters, fast: MoveAnswer, k: nat)
    requires Config(joints, group) && group != [] && epoch > 0 && CountersAt(c, k) && fast.Completed?
    ensures ValidMove(BackoffMove(joints, group, epoch, c, fast))
    ensures InChain(epoch, BackoffMove(joints, group, epoch, c, fast), k)
  {
    BackoffIsWellFormed(joints, group, epoch, c, Behind(joints, fast.trigger));
    var m := MakeMove(joints, group, epoch, c, Backoff).(targetMode := Absolute);
    EnvelopeKeepsValid(Retarget(joints, m, group, Behind(joints, fast.trigger)), fast.stopped);
    hide ValidMove, MakeMove, Retarget;
  }

  lemma ReleaseIsSound(joints: seq<Joint>, group: seq<nat>, epoch: nat, c: Counters, backoff: MoveAnswer, k: nat)
    requires Config(joints, group) && group != [] && epoch > 0 && CountersAt(c, k) && backoff.Completed?
    ensures ValidMove(ReleaseMove(joints, group, epoch, c, backoff))
    ensures InChain(epoch, ReleaseMove(joints, group, epoch, c, backoff), k)
  {
    ReleaseCheckIsWellFormed(joints, group, epoch, c, backoff.stopped);
    EnvelopeKeepsValid(ReleaseCheck(joints, group, epoch, c, backoff.stopped), backoff.stopped);
    hide ValidMove, ReleaseCheck, HasTriggers;
  }

  lemma SlowIsSound(joints: seq<Joint>, group: seq<nat>, epoch: nat, c: Counters, release: MoveAnswer, k: nat)
    requires Config(joints, group) && group != [] && epoch > 0 && CountersAt(c, k) && release.Completed?
    ensures var m := SlowMove(joints, group, epoch, c, release);
            ValidMove(m) && InChain(epoch, m, k) && m.triggerRequired && m.joints == Members(group)
  {
    MoveIsWellFormed(joints, group, epoch, c, SlowSearch);
    EnvelopeKeepsValid(MakeMove(joints, group, epoch, c, SlowSearch), release.stopped);
    hide ValidMove, MakeMove;
  }

  lemma HomeIsSound(joints: seq<Joint>, group: seq<nat>, epoch: nat, c: Counters, a: GroupAnswers, k: nat)
    requires Config(joints, group) && group != [] && epoch > 0 && CountersAt(c, k)
    ensures ValidMove(HomeMove(joints, group, epoch, c, a)) && InChain(epoch, HomeMove(joints, group, epoch, c, a), k)
  {
    MoveIsWellFormed(joints, group, epoch, c, FinalMove);
    EnvelopeKeepsValid(MakeMove(joints, group, epoch, c, FinalMove), a.finalStart);
    hide ValidMove, MakeMove, Asks;
  }

  /** Every phase of the group succeeded, and the backoff got behind the fast
      trigger on every joint. */
  ghost predicate GroupSucceeded(joints: seq<Joint>, group: seq<nat>, a: GroupAnswers) {
    && a.fast.Ended() && a.backoff.Arrived() && AllBehind(joints, group, a.fast.trigger, a.backoff.stopped)
    && a.release.Ended() && a.slow.Ended() && a.established && a.final.Arrived()
  }

  lemma AfterReleaseKeeps(joints: seq<Joint>, group: seq<nat>, epoch: nat, r: Issued, a: GroupAnswers)
    requires Config(joints, group) && group != [] && epoch > 0 && WellIssued(epoch, r)
    requires a.release.Completed?
    ensures var n := HomeAfterRelease(joints, group, epoch, r, a);
            && WellIssued(epoch, n)
            && (n.progress == Proceed <==> a.slow.Ended() && a.established && a.final.Arrived())
            && (n.progress == Proceed ==>
                  && |n.moves| == |r.moves| + 2
                  && n.settings == r.settings
                       + [Setting(|r.settings| + 1, Members(group),
                                  Calibrated(joints, group, a.slow.trigger, a.slow.stopped), |r.moves| + 1)])
  {
    hide ValidMove, SlowMove, HomeMove, Calibrated, Config, IdsFit;
    ConfigFits(joints, group);
    var move := SlowMove(joints, group, epoch, r.counters, a.release);
    SlowIsSound(joints, group, epoch, r.counters, a.release, |r.moves|);
    SendingKeeps(epoch, r, move, SearchProgress(a.slow));
    var slow := Sent(r, move, SearchProgress(a.slow));
    if slow.progress == Proceed {
      var next := Calibrate(joints, group, slow, move, a);
      assert WellIssued(epoch, next);
      if next.progress == Proceed {
        HomeIsSound(joints, group, epoch, next.counters, a, |next.moves|);
        SendingKeeps(epoch, next, HomeMove(joints, group, epoch, next.counters, a), ArrivalProgress(a.final));
      }
    }
  }

  /** One group keeps the run well issued, and lets it proceed exactly when every
      phase of the group succeeded. */
  lemma GroupKeeps(joints: seq<Joint>, group: seq<nat>, epoch: nat, r: Issued, a: GroupAnswers)
    requires Config(joints, group) && group != [] && epoch > 0 && WellIssued(epoch, r)
    ensures var n := HomeGroup(joints, group, epoch, r, a);
            && WellIssued(epoch, n)
            && (n.progress == Proceed <==> GroupSucceeded(joints, group, a))
            && (n.progress == Proceed ==>
                  && |n.moves| == |r.moves| + 5
                  && n.settings == r.settings
                       + [Setting(|r.settings| + 1, Members(group),
                                  Calibrated(joints, group, a.slow.trigger, a.slow.stopped), |r.moves| + 4)])
  {
    hide ValidMove, FastMove, BackoffMove, ReleaseMove, Calibrated, Config, IdsFit, HomeAfterRelease, AllBehind;
    ConfigFits(joints, group);
    FastIsSound(joints, group, epoch, r.counters, a, |r.moves|);
    SendingKeeps(epoch, r, FastMove(joints, group, epoch, r.counters, a), SearchProgress(a.fast));
    var fast := Sent(r, FastMove(joints, group, epoch, r.counters, a), SearchProgress(a.fast));
    if fast.progress == Proceed {
      BackoffIsSound(joints, group, epoch, fast.counters, a.fast, |fast.moves|);
      var m := BackoffMove(joints, group, epoch, fast.counters, a.fast);
      SendingKeeps(epoch, fast, m, BackoffProgress(joints, group, a));
      var backoff := Sent(fast, m, BackoffProgress(joints, group, a));
      if backoff.progress == Proceed {
        ReleaseIsSound(joints, group, epoch, backoff.counters, a.backoff, |backoff.moves|);
        var check := ReleaseMove(joints, group, epoch, backoff.counters, a.backoff);
        SendingKeeps(epoch, backoff, check, SearchProgress(a.release));
        var release := Sent(backoff, check, SearchProgress(a.release));
        if release.progress == Proceed {
          AfterReleaseKeeps(joints, group, epoch, release, a);
        }
      }
    }
  }

  // ----- the run

  /** The groups in order, until one does not proceed. */
  function HomeGroups(joints: seq<Joint>, groups: seq<seq<nat>>, epoch: nat, r: Issued, answers: seq<GroupAnswers>): Issued
    requires IdsFit(joints) && |answers| == |groups|
    decreases |groups|
  {
    if groups == [] then r
    else
      var before := HomeGroups(joints, groups[..|groups| - 1], epoch, r, answers[..|groups| - 1]);
      if before.progress != Proceed then before
      else HomeGroup(joints, groups[|groups| - 1], epoch, before, answers[|groups| - 1])
  }

  datatype Outcome = HomingCompleted(homed: set<nat>) | HomingStopped | HomingFailed

  function AllJoints(joints: seq<Joint>): set<nat> { set i | 0 <= i < |joints| :: joints[i].id }

  /** What the joints are told they stand at before the first search. */
  function InitialSetting(joints: seq<Joint>, positions: JointVector): Setting {
    Setting(1, AllJoints(joints), positions, 0)
  }

  function AtStart(joints: seq<Joint>, initial: JointVector): Issued {
    Issued(Proceed, [], [InitialSetting(joints, initial)], Counters(1, 0, 1, 2))
  }

  /** Whether the backend could be brought into the epoch, told where the joints
      stand, and started. */
  datatype Startup = Startup(begun: bool, initialized: bool, running: bool) {
    predicate Succeeded() { begun && initialized && running }
  }

  /** How far a run gets before its first move. */
  function StartedUp(joints: seq<Joint>, groups: seq<seq<nat>>, initial: JointVector, startup: Startup): Issued {
    if joints == [] || groups == [] || !startup.begun then Issued(Failed, [], [], FIRST)
    else AtStart(joints, initial).(progress := if startup.Succeeded() then Proceed else Failed)
  }

  /** Everything one run hands to the backend. */
  function RunHoming(
    joints: seq<Joint>, groups: seq<seq<nat>>, epoch: nat, initial: JointVector, startup: Startup,
    answers: seq<GroupAnswers>): Issued
    requires IdsFit(joints) && |answers| == |groups|
  {
    var begun := StartedUp(joints, groups, initial, startup);
    if begun.progress != Proceed then begun else HomeGroups(joints, groups, epoch, begun, answers)
  }

  /** How a run ends; `quiesced` is whether the backend could be brought to rest. */
  function Result(joints: seq<Joint>, progress: Progress, quiesced: bool): Outcome {
    if !quiesced || progress == Failed then HomingFailed
    else if progress == Stopped then HomingStopped
    else HomingCompleted(AllJoints(joints))
  }

  ghost predicate Configuration(joints: seq<Joint>, groups: seq<seq<nat>>) {
    && ConfiguredJoints(joints)
    && forall g | 0 <= g < |groups| :: ConfiguredGroup(joints, groups[g])
  }

  lemma ConfigurationFits(joints: seq<Joint>, groups: seq<seq<nat>>)
    requires Configuration(joints, groups)
    ensures IdsFit(joints)
  {}

  /** What the groups leave: well issued, proceeding exactly when all succeeded,
      and then five moves and one setting further per group. */
  ghost predicate Ran(
    joints: seq<Joint>, groups: seq<seq<nat>>, epoch: nat, r: Issued, answers: seq<GroupAnswers>, n: Issued)
    requires |answers| == |groups|
  {
    && WellIssued(epoch, n)
    && (n.progress == Proceed <==> forall g | 0 <= g < |groups| :: GroupSucceeded(joints, groups[g], answers[g]))
    && (n.progress == Proceed ==>
          && |n.moves| == |r.moves| + 5 * |groups|
          && |n.settings| == |r.settings| + |groups| && r.settings <= n.settings
          && forall g | 0 <= g < |groups| ::
               n.settings[|r.settings| + g] == GroupSetting(joints, groups, answers, g, r))
  }

  lemma StoppedStays(
    joints: seq<Joint>, groups: seq<seq<nat>>, epoch: nat, r: Issued, answers: seq<GroupAnswers>, n: Issued)
    requires |answers| == |groups| > 0 && n.progress != Proceed
    requires Ran(joints, groups[..|groups| - 1], epoch, r, answers[..|groups| - 1], n)
    ensures Ran(joints, groups, epoch, r, answers, n)
  {
    hide WellIssued, GroupSucceeded;
    var k := |groups| - 1;
    var g :| 0 <= g < k && !GroupSucceeded(joints, groups[..k][g], answers[..k][g]);
    assert !GroupSucceeded(joints, groups[g], answers[g]);
  }

  lemma OneGroupMore(
    joints: seq<Joint>, groups: seq<seq<nat>>, epoch: nat, r: Issued, answers: seq<GroupAnswers>,
    before: Issued, n: Issued)
    requires |answers| == |groups| > 0 && before.progress == Proceed && WellIssued(epoch, n)
    requires var k := |groups| - 1;
             && Ran(joints, groups[..k], epoch, r, answers[..k], before)
             && (n.progress == Proceed <==> GroupSucceeded(joints, groups[k], answers[k]))
             && (n.progress == Proceed ==>
                   && |n.moves| == |before.moves| + 5 && |n.settings| == |before.settings| + 1
                   && before.settings <= n.settings
                   && n.settings[|before.settings|] == GroupSetting(joints, groups, answers, k, r))
    ensures Ran(joints, groups, epoch, r, answers, n)
  {
    hide WellIssued, GroupSucceeded;
    var k := |groups| - 1;
    assert forall g | 0 <= g < k :: groups[..k][g] == groups[g] && answers[..k][g] == answers[g];
    if n.progress == Proceed {
      forall g | 0 <= g < |groups|
        ensures n.settings[|r.settings| + g] == GroupSetting(joints, groups, answers, g, r)
        ensures GroupSucceeded(joints, groups[g], answers[g])
      {
        if g < k {
          assert GroupSucceeded(joints, groups[..k][g], answers[..k][g]);
          assert before.settings[|r.settings| + g] == GroupSetting(joints, groups[..k], answers[..k], g, r);
        }
      }
    }
  }

  lemma {:induction false} GroupsKeep(
    joints: seq<Joint>, groups: seq<seq<nat>>, epoch: nat, r: Issued, answers: seq<GroupAnswers>)
    requires Configuration(joints, groups) && epoch > 0 && |answers| == |groups|
    requires WellIssued(epoch, r) && r.progress == Proceed
    ensures IdsFit(joints) && Ran(joints, groups, epoch, r, answers, HomeGroups(joints, groups, epoch, r, answers))
    decreases |groups|
  {
    hide ValidMove, HomeGroup, GroupSucceeded, ConfiguredGroup, ConfiguredJoints, IdsFit, Config, WellIssued;
    ConfigurationFits(joints, groups);
    if groups != [] {
      hide Ran;
      var k := |groups| - 1;
      GroupsKeep(joints, groups[..k], epoch, r, answers[..k]);
      var before := HomeGroups(joints, groups[..k], epoch, r, answers[..k]);
      if before.progress == Proceed {
        RanIsWell(joints, groups[..k], epoch, r, answers[..k], before);
        GroupIsConfig(joints, groups, k);
        GroupKeeps(joints, groups[k], epoch, before, answers[k]);
        var n := HomeGroup(joints, groups[k], epoch, before, answers[k]);
        if n.progress == Proceed { SlowCompleted(joints, groups[k], answers[k]); }
        OneGroupMore(joints, groups, epoch, r, answers, before, n);
      } else {
        StoppedStays(joints, groups, epoch, r, answers, before);
      }
    }
  }

  lemma RanIsWell(
    joints: seq<Joint>, groups: seq<seq<nat>>, epoch: nat, r: Issued, answers: seq<GroupAnswers>, n: Issued)
    requires |answers| == |groups| && Ran(joints, groups, epoch, r, answers, n)
    ensures WellIssued(epoch, n)
    ensures n.progress == Proceed ==> |n.moves| == |r.moves| + 5 * |groups| && |n.settings| == |r.settings| + |groups|
  {}

  lemma SlowCompleted(joints: seq<Joint>, group: seq<nat>, a: GroupAnswers)
    requires GroupSucceeded(joints, group, a)
    ensures a.slow.Completed?
  {}

  lemma GroupIsConfig(joints: seq<Joint>, groups: seq<seq<nat>>, g: nat)
    requires Configuration(joints, groups) && g < |groups|
    ensures Config(joints, groups[g]) && groups[g] != []
  {
    assert ConfiguredGroup(joints, groups[g]);
  }

  /** Group g's calibration: numbered on, of all its joints, right after its slow search. */
  function GroupSetting(
    joints: seq<Joint>, groups: seq<seq<nat>>, answers: seq<GroupAnswers>, g: nat, r: Issued): Setting
    requires g < |groups| == |answers|
  {
    var slow := answers[g].slow;
    Setting(|r.settings| + g + 1, Members(groups[g]),
            if slow.Completed? then Calibrated(joints, groups[g], slow.trigger, slow.stopped) else Zeros(),
            |r.moves| + 5 * g + 4)
  }

  /** For every valid configuration, epoch and answers: all moves issued are
      valid, form one gap-free predecessor chain, and the run completes exactly
      when homing is configured, the backend started and every phase of every
      group succeeded, each group's joints calibrated once, between its slow
      search and its final move. Before the start-up succeeds nothing moves. */
  lemma HomingIsSound(
    joints: seq<Joint>, groups: seq<seq<nat>>, epoch: nat, initial: JointVector, startup: Startup,
    answers: seq<GroupAnswers>, quiesced: bool)
    requires Configuration(joints, groups) && epoch > 0 && |answers| == |groups|
    ensures var n := RunHoming(joints, groups, epoch, initial, startup, answers);
            && (forall k | 0 <= k < |n.moves| :: ValidMove(n.moves[k]) && InChain(epoch, n.moves[k], k))
            && (forall k | 0 <= k < |n.settings| :: n.settings[k].request == k + 1)
            && (n.settings != [] ==> n.settings[0] == InitialSetting(joints, initial))
            && (!startup.Succeeded() ==> n.moves == [])
            && (Result(joints, n.progress, quiesced).HomingCompleted? <==>
                  && joints != [] && groups != [] && startup.Succeeded() && quiesced
                  && forall g | 0 <= g < |groups| :: GroupSucceeded(joints, groups[g], answers[g]))
            && (n.progress == Proceed ==>
                  && |n.moves| == 5 * |groups| && |n.settings| == 1 + |groups|
                  && forall g | 0 <= g < |groups| ::
                       n.settings[1 + g] == GroupSetting(joints, groups, answers, g, AtStart(joints, initial)))
  {
    hide ValidMove, HomeGroups, GroupSucceeded, GroupSetting;
    GroupsKeep(joints, groups, epoch, AtStart(joints, initial), answers);
    GroupsExtend(joints, groups, epoch, AtStart(joints, initial), answers);
  }

  /** A run only adds settings. */
  lemma {:induction false} GroupsExtend(
    joints: seq<Joint>, groups: seq<seq<nat>>, epoch: nat, r: Issued, answers: seq<GroupAnswers>)
    requires IdsFit(joints) && |answers| == |groups|
    ensures r.settings <= HomeGroups(joints, groups, epoch, r, answers).settings
    decreases |groups|
  {
    if groups != [] {
      var n := |groups| - 1;
      GroupsExtend(joints, groups[..n], epoch, r, answers[..n]);
      var before := HomeGroups(joints, groups[..n], epoch, r, answers[..n]);
      GroupExtends(joints, groups[n], epoch, before, answers[n]);
    }
  }

  lemma GroupExtends(joints: seq<Joint>, group: seq<nat>, epoch: nat, r: Issued, a: GroupAnswers)
    requires IdsFit(joints)
    ensures r.settings <= HomeGroup(joints, group, epoch, r, a).settings
  {
    hide FastMove, BackoffMove, ReleaseMove, SlowMove, HomeMove, Calibrated, AllBehind;
  }
}
