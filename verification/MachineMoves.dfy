/** What moves do, block after block: incremental moves, machine coordinates, arcs. */
module MachineMoves {
  import opened Text
  import opened MachineState
  import opened MachineBlock
  import opened MachineMeaning
  import opened MachineOperations
  import opened MachineRefinement

  /** G91 with G0, or with G1 when a feed rate is given. */
  function IncrementalRequest(axes: AxisWords, feed: Option<real>): Request {
    NO_REQUEST.(motion := Some(if feed.Some? then G1 else G0), distance := Some(G91), f := feed,
                words := NO_WORDS.(axes := axes))
  }

  /** `to` is as far from `pos` as the words say, on the axes they give. */
  ghost predicate MovedBy(m: Machine, axes: AxisWords, pos: Vec6, reached: Vec6) {
    forall axis :: Coordinate(reached, axis) == Coordinate(pos, axis) +
      match Word(axes, axis)
      case None => 0.0
      case Some(v) => if Linear(axis) then v * UnitScale(m) else v
  }

  /** Machine units in a program unit, in the units that are active. */
  function UnitScale(m: Machine): real {
    if m.unit == Inch then (if m.modal.units == G20 then 1.0 else 1.0 / 25.4)
    else (if m.modal.units == G20 then 25.4 else 1.0)
  }

  lemma LengthIsScaled(m: Machine, req: Request, v: real)
    requires req.units.None?
    ensures Length(m, req, v) == v * UnitScale(m)
  {
    assert Factor(m, req) == UnitScale(m);
    hide Factor, UnitScale;
  }

  lemma GoalCoordinate(m: Machine, req: Request, axis: Axis)
    requires Wired(m)
    ensures Coordinate(Goal(m, req), axis) == GoalOn(m, req, axis)
  {
    hide GoalOn;
  }

  lemma GoalOnIsMoved(m: Machine, req: Request, axis: Axis)
    requires Wired(m) && req.units.None? && Chosen(req.distance, m.modal.distance) == G91
    ensures GoalOn(m, req, axis) == Coordinate(m.pos, axis) +
            match Word(req.words.axes, axis)
            case None => 0.0
            case Some(v) => if Linear(axis) then v * UnitScale(m) else v
  {
    if Word(req.words.axes, axis).Some? { LengthIsScaled(m, req, Word(req.words.axes, axis).value); }
    hide Length, UnitScale, Coordinate, Word, OffsetOn;
  }

  lemma GoalIsMoved(m: Machine, req: Request)
    requires Wired(m) && req.units.None? && Chosen(req.distance, m.modal.distance) == G91
    ensures MovedBy(m, req.words.axes, m.pos, Goal(m, req))
  {
    hide Goal, GoalOn, UnitScale, Coordinate, Word;
    forall axis
      ensures Coordinate(Goal(m, req), axis) == Coordinate(m.pos, axis) +
              match Word(req.words.axes, axis)
              case None => 0.0
              case Some(v) => if Linear(axis) then v * UnitScale(m) else v
    {
      GoalCoordinate(m, req, axis);
      GoalOnIsMoved(m, req, axis);
    }
  }

  /** A permitted block that is a move and nothing else. */
  lemma OnlyMoves(hypot: Hypot, m: Machine, req: Request)
    requires Wired(m) && Permitted(hypot, m, req) && Moving(req) && MotionAfter(m, req) != G38_3
    requires req.spindle.None? && !req.words.toolChange
    ensures MotionAfter(m, req) != G0 ==> Feeds(m, req)
    ensures var r := ExecuteBlock(hypot, m, Block(Some(req), false));
            && r.Executed? && Wired(r.m) && r.commands == [MotionIssued(m, req)]
            && r.m.pos == Goal(m, req) && r.m.unit == m.unit && r.m.modal.units == Chosen(req.units, m.modal.units)
  {
    BlockMeans(hypot, m, req);
    hide Goal, ToolsAfter, StoredAfter, Point, ExecuteBlock, Moving, MotionIssued, IsArc, FeedAfter, ToleranceAfter, CoordAfter;
  }

  /** In G91 a rapid or a feed move of any machine, whatever its offsets, ends as
      far from the start as the words say on the axes they give, and where it
      was on all others. */
  lemma IncrementalMove(hypot: Hypot, m: Machine, axes: AxisWords, feed: Option<real>)
    requires Wired(m) && axes != NO_AXES && (feed.Some? ==> feed.value > 0.0)
    ensures var r := ExecuteBlock(hypot, m, Block(Some(IncrementalRequest(axes, feed)), false));
            && r.Executed? && Wired(r.m) && |r.commands| == 1
            && r.commands[0]
               == MoveLine(m.pos, r.m.pos, if feed.Some? then feed.value * UnitScale(m) else -1.0, false)
            && MovedBy(m, axes, m.pos, r.m.pos)
            && r.m.unit == m.unit && r.m.modal.units == m.modal.units
  {
    var req := IncrementalRequest(axes, feed);
    IncrementalPermitted(hypot, m, axes, feed);
    GoalIsMoved(m, req);
    OnlyMoves(hypot, m, req);
    hide Goal, MovedBy, UnitScale, FeedAfter, Permitted, ExecuteBlock, Wired;
  }

  lemma IncrementalPermitted(hypot: Hypot, m: Machine, axes: AxisWords, feed: Option<real>)
    requires Wired(m) && axes != NO_AXES && (feed.Some? ==> feed.value > 0.0)
    ensures var req := IncrementalRequest(axes, feed);
            && Permitted(hypot, m, req) && Moving(req) && MotionAfter(m, req) == (if feed.Some? then G1 else G0)
            && (feed.Some? ==> FeedAfter(m, req) == Some(feed.value * UnitScale(m)))
  {
    if feed.Some? {
      LengthIsScaled(m, IncrementalRequest(axes, feed), feed.value);
      FeedIsPositive(m, feed.value);
    }
    hide UnitScale, Length;
  }

  lemma FeedIsPositive(m: Machine, feed: real)
    requires feed > 0.0
    ensures feed * UnitScale(m) > 0.0
  {}

  function Reversed(axes: AxisWords): AxisWords {
    AxisWords(Negated(axes.x), Negated(axes.y), Negated(axes.z), Negated(axes.a), Negated(axes.b), Negated(axes.c))
  }

  function Negated(word: Option<real>): Option<real> {
    match word
    case Some(v) => Some(-v)
    case None => None
  }

  /** Moving by some words in G91 and back by the same words ends where it began. */
  lemma ThereAndBack(hypot: Hypot, m: Machine, axes: AxisWords, feed: Option<real>)
    requires Wired(m) && axes != NO_AXES && (feed.Some? ==> feed.value > 0.0)
    ensures var there := ExecuteBlock(hypot, m, Block(Some(IncrementalRequest(axes, feed)), false));
            there.Executed? && Wired(there.m)
            && var back := ExecuteBlock(hypot, there.m, Block(Some(IncrementalRequest(Reversed(axes), feed)), false));
               back.Executed? && back.m.pos == m.pos
  {
    IncrementalMove(hypot, m, axes, feed);
    var there := ExecuteBlock(hypot, m, Block(Some(IncrementalRequest(axes, feed)), false)).m;
    assert Reversed(axes) != NO_AXES;
    IncrementalMove(hypot, there, Reversed(axes), feed);
    var back := ExecuteBlock(hypot, there, Block(Some(IncrementalRequest(Reversed(axes), feed)), false)).m;
    hide ExecuteBlock;
    BackAgain(m, there, axes, m.pos, there.pos, back.pos);
  }

  lemma BackAgain(m: Machine, there: Machine, axes: AxisWords, a: Vec6, b: Vec6, c: Vec6)
    requires there.unit == m.unit && there.modal.units == m.modal.units
    requires MovedBy(m, axes, a, b) && MovedBy(there, Reversed(axes), b, c)
    ensures c == a
  {
    assert UnitScale(there) == UnitScale(m);
    hide UnitScale;
    forall axis ensures Coordinate(c, axis) == Coordinate(a, axis) {
      assert Word(Reversed(axes), axis) == Negated(Word(axes, axis));
      if Word(axes, axis).Some? {
        var v := Word(axes, axis).value;
        assert (-v) * UnitScale(m) == -(v * UnitScale(m));
      }
    }
    SamePoint(c, a);
  }

  // ----- machine coordinates

  function MachineRequest(axes: AxisWords): Request {
    NO_REQUEST.(motion := Some(G0), distance := Some(G90), words := NO_WORDS.(axes := axes, nonModal := Some(G53)))
  }

  /** A G53 move goes to the words themselves, shifted by the tool offset alone:
      the work offset, stored or active, plays no part. */
  lemma MachineCoordinatesMove(hypot: Hypot, m: Machine, axes: AxisWords)
    requires Wired(m) && axes != NO_AXES
    ensures var r := ExecuteBlock(hypot, m, Block(Some(MachineRequest(axes)), false));
            && r.Executed? && r.commands == [MoveLine(m.pos, r.m.pos, -1.0, true)]
            && forall axis :: Coordinate(r.m.pos, axis) ==
                 match Word(axes, axis)
                 case None => Coordinate(m.pos, axis)
                 case Some(v) => (if Linear(axis) then v * UnitScale(m) else v) + Coordinate(m.toolOffset, axis)
  {
    var req := MachineRequest(axes);
    BlockMeans(hypot, m, req);
    var goal := Goal(m, req);
    forall axis ensures Coordinate(goal, axis) == GoalOn(m, req, axis) { PointOn((a: Axis) => GoalOn(m, req, a), axis); }
    forall axis
      ensures GoalOn(m, req, axis) ==
              match Word(axes, axis)
              case None => Coordinate(m.pos, axis)
              case Some(v) => (if Linear(axis) then v * UnitScale(m) else v) + Coordinate(m.toolOffset, axis)
    {
      if Word(axes, axis).Some? { LengthIsScaled(m, req, Word(axes, axis).value); }
      hide Length, UnitScale, Coordinate, Word, Goal, Permitted, Issued, Ends, ExecuteBlock;
    }
    hide Goal, GoalOn, ToolsAfter, StoredAfter, Length, UnitScale, Factor, Point, Coordinate, Word;
    assert Permitted(hypot, m, req);
  }

  // ----- arcs

  /** An arc in some plane, its centre given relative to the start. */
  function ArcRequest(clockwise: bool, plane: Plane, axes: AxisWords, i: Option<real>, j: Option<real>, k: Option<real>)
    : Request
  {
    NO_REQUEST.(motion := Some(if clockwise then G2 else G3), plane := Some(plane), arcDistance := Some(G91_1),
                words := NO_WORDS.(axes := axes, i := i, j := j, k := k))
  }

  /** A word of an arc in machine units, 0 when it is missing. */
  function Arm(m: Machine, word: Option<real>): real {
    match word
    case Some(v) => v * UnitScale(m)
    case None => 0.0
  }

  /** In G17 the centre is I and J from the start at the start's Z, and the arc
      turns about Z; in G18 it is I and K at the start's Y, about Y; in G19 J and
      K at the start's X, about X. G3 turns about the positive axis, G2 about the
      negative one. Both go to the same place about the same centre. */
  lemma ArcsTurn(hypot: Hypot, m: Machine, clockwise: bool, plane: Plane, axes: AxisWords,
                 i: Option<real>, j: Option<real>, k: Option<real>)
    requires Wired(m)
    requires ExecuteBlock(hypot, m, Block(Some(ArcRequest(clockwise, plane, axes, i, j, k)), false)).Executed?
    requires axes != NO_AXES || i.Some? || j.Some? || k.Some?
    ensures var r := ExecuteBlock(hypot, m, Block(Some(ArcRequest(clockwise, plane, axes, i, j, k)), false));
            var other := ExecuteBlock(hypot, m, Block(Some(ArcRequest(!clockwise, plane, axes, i, j, k)), false));
            var sign := if clockwise then -1.0 else 1.0;
            && |r.commands| == 1 && r.commands[0].MoveArc? && r.commands[0].from == m.pos && r.commands[0].to == r.m.pos
            && m.modal.f == Some(r.commands[0].speed)
            && r.commands[0].center ==
                 (match plane
                  case G17 => Vec3(m.pos.x + Arm(m, i), m.pos.y + Arm(m, j), m.pos.z)
                  case G18 => Vec3(m.pos.x + Arm(m, i), m.pos.y, m.pos.z + Arm(m, k))
                  case G19 => Vec3(m.pos.x, m.pos.y + Arm(m, j), m.pos.z + Arm(m, k)))
            && r.commands[0].axis ==
                 (match plane
                  case G17 => Vec3(0.0, 0.0, sign)
                  case G18 => Vec3(0.0, sign, 0.0)
                  case G19 => Vec3(sign, 0.0, 0.0))
            && (m.modal.distance == G91 ==> MovedBy(m, axes, m.pos, r.m.pos))
            && other.Executed? && other.m.pos == r.m.pos
            && |other.commands| == 1 && other.commands[0].MoveArc? && other.commands[0].center == r.commands[0].center
  {
    var req, back := ArcRequest(clockwise, plane, axes, i, j, k), ArcRequest(!clockwise, plane, axes, i, j, k);
    assert Permitted(hypot, m, req) by { BlockMeans(hypot, m, req); }
    ArcGeometry(hypot, m, clockwise, plane, axes, i, j, k);
    assert Permitted(hypot, m, back) by {
      hide IsArc, ExecuteBlock;
      BothPermitted(hypot, m, req, back);
    }
    if m.modal.distance == G91 { GoalIsMoved(m, req); }
    ArcIssued(hypot, m, clockwise, plane, axes, i, j, k);
    ArcIssued(hypot, m, !clockwise, plane, axes, i, j, k);
    hide Permitted, Goal, Center, MovedBy, ExecuteBlock, Arm, ArcRequest;
  }

  lemma ArcIssued(hypot: Hypot, m: Machine, clockwise: bool, plane: Plane, axes: AxisWords,
                  i: Option<real>, j: Option<real>, k: Option<real>)
    requires Wired(m) && Permitted(hypot, m, ArcRequest(clockwise, plane, axes, i, j, k))
    requires axes != NO_AXES || i.Some? || j.Some? || k.Some?
    ensures var req := ArcRequest(clockwise, plane, axes, i, j, k);
            var r := ExecuteBlock(hypot, m, Block(Some(req), false));
            var sign := if clockwise then -1.0 else 1.0;
            && r.Executed? && r.m.pos == Goal(m, req) && m.modal.f.Some?
            && r.commands == [MoveArc(m.pos, Goal(m, req), Center(m, req),
                                      match plane
                                      case G17 => Vec3(0.0, 0.0, sign)
                                      case G18 => Vec3(0.0, sign, 0.0)
                                      case G19 => Vec3(sign, 0.0, 0.0), m.modal.f.value)]
  {
    OnlyMoves(hypot, m, ArcRequest(clockwise, plane, axes, i, j, k));
    hide Permitted, Goal, Center, ExecuteBlock;
  }

  /** The motion code has no part in where a motion ends and about what centre. */
  lemma SameGeometry(hypot: Hypot, m: Machine, req: Request, other: Request)
    requires Wired(m) && other == req.(motion := other.motion)
    ensures Goal(m, req) == Goal(m, other) && Center(m, req) == Center(m, other)
    ensures IsArc(hypot, m, req) == IsArc(hypot, m, other)
  {
    forall axis ensures GoalOn(m, req, axis) == GoalOn(m, other, axis) && CenterOn(m, req, axis) == CenterOn(m, other, axis) {
      SameOn(m, req, other, axis);
    }
    hide GoalOn, CenterOn;
    assert Goal(m, req) == Goal(m, other);
    assert Center(m, req) == Center(m, other);
    hide Goal, Center;
  }

  lemma SameOn(m: Machine, req: Request, other: Request, axis: Axis)
    requires Wired(m) && other == req.(motion := other.motion)
    ensures GoalOn(m, req, axis) == GoalOn(m, other, axis) && CenterOn(m, req, axis) == CenterOn(m, other, axis)
  {
    assert forall v :: Length(m, req, v) == Length(m, other, v);
    assert SelectedTool(m, req) == SelectedTool(m, other);
    assert forall system, a :: StoredOn(m, req, system, a) == StoredOn(m, other, system, a);
    hide Length, SelectedTool, StoredOn, Word, Coordinate;
  }

  lemma BothPermitted(hypot: Hypot, m: Machine, req: Request, other: Request)
    requires Wired(m) && other == req.(motion := other.motion) && req.motion in {Some(G2), Some(G3)}
    requires other.motion in {Some(G2), Some(G3)} && req.words.nonModal.None?
    requires Permitted(hypot, m, req) && Moving(req) && IsArc(hypot, m, req) == IsArc(hypot, m, other)
    ensures Permitted(hypot, m, other)
  {
    hide IsArc;
  }

  lemma CenterOnAxis(m: Machine, req: Request, axis: Axis)
    requires Wired(m) && req.units.None? && req.arcDistance == Some(G91_1)
    ensures CenterOn(m, req, axis) == Coordinate(m.pos, axis) +
            if axis == Normal(Chosen(req.plane, m.modal.plane)) then 0.0 else Arm(m, ArcWord(req.words, axis))
  {
    if ArcWord(req.words, axis).Some? { LengthIsScaled(m, req, ArcWord(req.words, axis).value); }
    hide Length, UnitScale, Coordinate, OffsetOn, ArcWord, Normal;
  }

  lemma ArcGeometry(hypot: Hypot, m: Machine, clockwise: bool, plane: Plane, axes: AxisWords,
                    i: Option<real>, j: Option<real>, k: Option<real>)
    requires Wired(m)
    ensures var req := ArcRequest(clockwise, plane, axes, i, j, k);
            var back := ArcRequest(!clockwise, plane, axes, i, j, k);
            && Goal(m, req) == Goal(m, back) && Center(m, req) == Center(m, back)
            && IsArc(hypot, m, req) == IsArc(hypot, m, back)
            && Center(m, req) ==
                 (match plane
                  case G17 => Vec3(m.pos.x + Arm(m, i), m.pos.y + Arm(m, j), m.pos.z)
                  case G18 => Vec3(m.pos.x + Arm(m, i), m.pos.y, m.pos.z + Arm(m, k))
                  case G19 => Vec3(m.pos.x, m.pos.y + Arm(m, j), m.pos.z + Arm(m, k)))
  {
    var req := ArcRequest(clockwise, plane, axes, i, j, k);
    SameGeometry(hypot, m, req, ArcRequest(!clockwise, plane, axes, i, j, k));
    CenterOnAxis(m, req, X);
    CenterOnAxis(m, req, Y);
    CenterOnAxis(m, req, Z);
    assert Center(m, req) == Vec3(CenterOn(m, req, X), CenterOn(m, req, Y), CenterOn(m, req, Z));
    hide Goal, Center, CenterOn, Arm, IsArc;
  }

  // ----- the other operations

  /** What each operation but a block does, said field by field. */
  ghost predicate Does(m: Machine, op: Operation, r: MachineOperations.Outcome)
    requires Wired(m)
  {
    match op
    case BeginProgramRun =>
      // at the origin with default modes, in the system COORDSYS names; stored parameters stay
      && r.Done? && Wired(r.m)
      && r.m == m.(pos := ORIGIN, toolOffset := ORIGIN, physicalTool := 0, pending := None, words := NO_WORDS,
                   memory := m.memory.(program := []), modal := r.m.modal, workOffset := r.m.workOffset)
      && r.commands == [] && r.m.modal.coord == Truncate(m.memory.coordsys)
      && r.m.modal == Modal(G0, G17, G90, G91_1, G94, G20, G49, r.m.modal.coord, G61_1, None, M5, None, None, None)
      && r.m.workOffset == m.memory.offsets[r.m.modal.coord - 1]
    case SynchronizePosition(position) => r == Done(m.(pos := position), [])
    case SetActiveWorkOffset(axis, value) =>
      // that axis of the active system, stored and cached
      r.Done? && Wired(r.m)
      && r.m == m.(memory := m.memory.(offsets := r.m.memory.offsets), workOffset := r.m.workOffset) && r.commands == []
      && r.m.workOffset == r.m.memory.offsets[m.modal.coord - 1]
      && (forall system: Coord, a ::
            Coordinate(StoredOffset(r.m, system), a) ==
            if system == m.modal.coord && a == axis then value else Coordinate(StoredOffset(m, system), a))
    case PrepareToolChange(tool) =>
      if tool in m.tools then r == Done(m.(physicalTool := tool), []) else r == Refused(m)
    case RestoreModal(modes) =>
      // the modes with the spindle stopped and COORDSYS to match
      && r.Done? && r.commands == []
      && r.m == m.(modal := modes.modal.(spindle := M5), toolOffset := modes.toolOffset, words := NO_WORDS,
                   workOffset := m.memory.offsets[modes.modal.coord - 1],
                   memory := m.memory.(coordsys := modes.modal.coord as real))
    case AcceptProbeResult(result) =>
      // where the probe stopped, with whether it triggered
      && r.Done? && r.commands == []
      && r.m == m.(pos := result.stopped, pending := None,
                   memory := m.memory.(probe := r.m.memory.probe, probeSuccess := if result.triggered then 1.0 else 0.0))
    case RestoreCheckpoint(c) =>
      // everything a checkpoint holds; program storage and a pending probe go
      && r.Done? && r.commands == [] && c.coordsys == c.modal.coord as real && Wired(m) && |c.offsets| == 9
      && r.m == m.(pos := c.pos, toolOffset := c.toolOffset, modal := c.modal, physicalTool := c.physicalTool,
                   tools := c.tools, words := NO_WORDS, pending := None,
                   workOffset := c.offsets[c.modal.coord - 1],
                   memory := m.memory.(coordsys := c.coordsys, offsets := c.offsets, parameters := c.parameters, program := []))
    case RunBlock(_) => true
  }

  /** Which operations end normally: a run begins when COORDSYS names a system,
      and a probe result is accepted when it is of the pending probe. */
  lemma OperationsSucceed(hypot: Hypot, m: Machine, op: Operation)
    requires Wired(m)
    ensures op.BeginProgramRun? ==> (Apply(hypot, m, op).Done? <==> 1 <= Truncate(m.memory.coordsys) <= 9)
    ensures op.AcceptProbeResult? ==>
              (Apply(hypot, m, op).Done? <==> m.pending.Some? && m.pending.value.id == op.result.id)
              && (!Apply(hypot, m, op).Done? ==> Apply(hypot, m, op).Panicked?)
    ensures op.SetActiveWorkOffset? || op.RestoreModal? || op.SynchronizePosition? ==> Apply(hypot, m, op).Done?
  {
    hide ExecuteBlock;
  }

  /** The operations do what they are for, whenever they end normally. */
  lemma OperationsDo(hypot: Hypot, m: Machine, op: Operation)
    requires Wired(m)
    requires Apply(hypot, m, op).Done? || op.PrepareToolChange?
    ensures Does(m, op, Apply(hypot, m, op))
  {
    hide ExecuteBlock;
    if op.SetActiveWorkOffset? {
      OffsetIsSetOn(m, op.axis, op.value);
    }
  }

  lemma OffsetIsSetOn(m: Machine, axis: Axis, value: real)
    requires Wired(m)
    ensures var n := SetOffset(m, axis, value);
            Wired(n)
            && forall system: Coord, a ::
                 Coordinate(StoredOffset(n, system), a) ==
                 if system == m.modal.coord && a == axis then value else Coordinate(StoredOffset(m, system), a)
  {}
}
