/** What a block means, axis by axis and mode by mode, in one closed form: an
    independent reference for the stages of `executeBlock`. */
module MachineMeaning {
  import opened Text
  import opened MachineState
  import opened MachineBlock

  // ----- axes and units

  function Coordinate(v: Vec6, axis: Axis): real {
    match axis
    case X => v.x case Y => v.y case Z => v.z case A => v.a case B => v.b case C => v.c
  }

  function Word(axes: AxisWords, axis: Axis): Option<real> {
    match axis
    case X => axes.x case Y => axes.y case Z => axes.z case A => axes.a case B => axes.b case C => axes.c
  }

  function Point(on: Axis -> real): Vec6 { Vec6(on(X), on(Y), on(Z), on(A), on(B), on(C)) }

  function Point3(on: Axis -> real): Vec3 { Vec3(on(X), on(Y), on(Z)) }

  predicate Linear(axis: Axis) { axis == X || axis == Y || axis == Z }

  function Chosen<T>(word: Option<T>, otherwise: T): T {
    match word
    case Some(v) => v
    case None => otherwise
  }

  function Millimetres(inch: bool): real { if inch then 25.4 else 1.0 }

  /** The length of a program unit of the block in machine units. */
  function Factor(m: Machine, req: Request): real {
    Millimetres(Chosen(req.units, m.modal.units) == G20) / Millimetres(m.unit == Inch)
  }

  function Length(m: Machine, req: Request, v: real): real { v * Factor(m, req) }

  /** A coordinate word in machine units; rotary axes are in degrees anyway. */
  function Measure(m: Machine, req: Request, axis: Axis, v: real): real {
    if Linear(axis) then Length(m, req, v) else v
  }

  // ----- offsets

  predicate IsG10(req: Request) { req.words.nonModal == Some(G10) }

  predicate SetsOffset(req: Request) { IsG10(req) && req.words.l == Some(2.0) }

  predicate SetsTool(req: Request) { IsG10(req) && req.words.l == Some(11.0) }

  function CoordAfter(m: Machine, req: Request): Coord { Chosen(req.coord, m.modal.coord) }

  /** A stored work offset after the block: G10 L2 writes the axes it gives of the one it names. */
  function StoredOn(m: Machine, req: Request, system: Coord, axis: Axis): real
    requires Wired(m)
  {
    if SetsOffset(req) && req.words.p == Some(system as real) && Word(req.words.axes, axis).Some?
    then Measure(m, req, axis, Word(req.words.axes, axis).value)
    else Coordinate(m.memory.offsets[system - 1], axis)
  }

  function StoredAfter(m: Machine, req: Request, system: Coord): Vec6
    requires Wired(m)
  {
    Point((axis: Axis) => StoredOn(m, req, system, axis))
  }

  /** A tool's offset after the block: G10 L11 makes the position read as the
      given coordinates in G59.3 with that tool. */
  function ToolOn(m: Machine, req: Request, number: int, axis: Axis): real
    requires Wired(m) && number in m.tools
  {
    if SetsTool(req) && req.words.p == Some(number as real) && Word(req.words.axes, axis).Some?
    then Coordinate(m.pos, axis) - Coordinate(m.memory.offsets[8], axis)
         - Measure(m, req, axis, Word(req.words.axes, axis).value)
    else Coordinate(m.tools[number].offset, axis)
  }

  function ToolOffsetAfter(m: Machine, req: Request, number: int): Vec6
    requires Wired(m) && number in m.tools
  {
    Point((axis: Axis) => ToolOn(m, req, number, axis))
  }

  function DiameterAfter(m: Machine, req: Request, number: int): real
    requires number in m.tools
  {
    if SetsTool(req) && req.words.p == Some(number as real) && req.words.r.Some?
    then 2.0 * req.words.r.value * Factor(m, req) else m.tools[number].diameter
  }

  function ToolsAfter(m: Machine, req: Request): map<int, Tool>
    requires Wired(m)
  {
    map number | number in m.tools ::
      Tool(m.tools[number].number, ToolOffsetAfter(m, req, number), DiameterAfter(m, req, number), m.tools[number].comment)
  }

  /** The tool G43 refers to: a nonzero H, else the programmed one. */
  function SelectedTool(m: Machine, req: Request): int {
    if req.words.h.Some? && Truncate(req.words.h.value) != 0 then Truncate(req.words.h.value)
    else match Chosen2(req.t, m.modal.t)
      case Some(t) => Truncate(t)
      case None => 0
  }

  /** A sticky word: the block's if it has one. */
  function Chosen2(word: Option<real>, before: Option<real>): Option<real> { if word.Some? then word else before }

  function ToolOffsetOn(m: Machine, req: Request, axis: Axis): real
    requires Wired(m)
  {
    match req.toolLength
    case None => Coordinate(m.toolOffset, axis)
    case Some(mode) =>
      if mode == G43 && SelectedTool(m, req) in m.tools then ToolOn(m, req, SelectedTool(m, req), axis) else 0.0
  }

  /** From program to machine coordinates; G53 leaves the work offset out. */
  function OffsetOn(m: Machine, req: Request, axis: Axis): real
    requires Wired(m)
  {
    (if req.words.nonModal == Some(G53) then 0.0 else StoredOn(m, req, CoordAfter(m, req), axis))
    + ToolOffsetOn(m, req, axis)
  }

  // ----- geometry

  /** Where a move ends: on a given axis that far from the current position in
      G91, at that coordinate in G90; on every other axis where it is. */
  function GoalOn(m: Machine, req: Request, axis: Axis): real
    requires Wired(m)
  {
    match Word(req.words.axes, axis)
    case None => Coordinate(m.pos, axis)
    case Some(v) =>
      Measure(m, req, axis, v)
      + if Chosen(req.distance, m.modal.distance) == G91 then Coordinate(m.pos, axis) else OffsetOn(m, req, axis)
  }

  function Goal(m: Machine, req: Request): Vec6
    requires Wired(m)
  {
    Point((axis: Axis) => GoalOn(m, req, axis))
  }

  function Normal(plane: Plane): Axis {
    match plane
    case G17 => Z
    case G18 => Y
    case G19 => X
  }

  function ArcWord(words: Words, axis: Axis): Option<real> {
    match axis
    case X => words.i
    case Y => words.j
    case _ => words.k
  }

  /** The centre: in the plane that far from the start in G91.1, at that
      coordinate in G90.1, a missing word counting as 0; off it where the start is. */
  function CenterOn(m: Machine, req: Request, axis: Axis): real
    requires Wired(m)
  {
    if axis == Normal(Chosen(req.plane, m.modal.plane)) then Coordinate(m.pos, axis)
    else
      (match ArcWord(req.words, axis) case Some(v) => Length(m, req, v) case None => 0.0)
      + if Chosen(req.arcDistance, m.modal.arcDistance) == G91_1 then Coordinate(m.pos, axis) else OffsetOn(m, req, axis)
  }

  function Center(m: Machine, req: Request): Vec3
    requires Wired(m)
  {
    Point3((axis: Axis) => CenterOn(m, req, axis))
  }

  /** The direction an arc turns about: the plane's normal for G3, counter-clockwise
      seen from its tip, and against it for G2. */
  function TurnOn(plane: Plane, motion: Motion, axis: Axis): real {
    if axis != Normal(plane) then 0.0 else if motion == G3 then 1.0 else -1.0
  }

  function Distance2(hypot: Hypot, plane: Plane, p: Vec6, center: Vec3): real {
    if Normal(plane) == Z then hypot(p.x - center.x, p.y - center.y)
    else if Normal(plane) == Y then hypot(p.x - center.x, p.z - center.z)
    else hypot(p.y - center.y, p.z - center.z)
  }

  /** Half a thousandth of an inch in machine units. */
  function HalfMil(m: Machine): real { 0.0005 * Millimetres(true) / Millimetres(m.unit == Inch) }

  /** An arc has a word in its plane and two equal radii, neither 0, up to the tolerance. */
  predicate IsArc(hypot: Hypot, m: Machine, req: Request)
    requires Wired(m)
  {
    var plane := Chosen(req.plane, m.modal.plane);
    var r0 := Distance2(hypot, plane, m.pos, Center(m, req));
    var r1 := Distance2(hypot, plane, Goal(m, req), Center(m, req));
    && (exists axis | axis in {X, Y, Z} :: axis != Normal(plane) && ArcWord(req.words, axis).Some?)
    && r0 != 0.0 && r1 != 0.0
    && r0 - r1 <= HalfMil(m) && r1 - r0 <= HalfMil(m)
  }

  // ----- the block as a whole

  predicate Moving(req: Request) {
    || (!IsG10(req) && req.words.axes != NO_AXES)
    || req.words.i.Some? || req.words.j.Some? || req.words.k.Some?
  }

  function MotionAfter(m: Machine, req: Request): Motion { Chosen(req.motion, m.modal.motion) }

  function FeedAfter(m: Machine, req: Request): Option<real> {
    match req.f
    case Some(v) => Some(Length(m, req, v))
    case None => m.modal.f
  }

  predicate Feeds(m: Machine, req: Request) { FeedAfter(m, req).Some? && FeedAfter(m, req).value > 0.0 }

  /** `p` names a whole number between the limits. */
  predicate Names(p: Option<real>, low: int, high: int) {
    p.Some? && p.value == p.value.Floor as real && low <= p.value.Floor <= high
  }

  /** What a G10 block has to say. */
  predicate G10Permitted(m: Machine, req: Request) {
    || (SetsOffset(req) && Names(req.words.p, 1, 9))
    || (SetsTool(req) && Names(req.words.p, 1, INT_MAX) && req.words.p.value.Floor in m.tools
        && (req.words.r.Some? ==> req.words.r.value >= 0.0))
  }

  /** Each word but axes, I, J and K has a code in the block it belongs to. */
  predicate WordsPermitted(req: Request) {
    && req.words.d.None? && req.words.q.None?
    && (req.words.h.Some? ==> req.toolLength == Some(G43))
    && (req.words.l.Some? ==> IsG10(req))
    && (req.words.r.Some? ==> SetsTool(req))
    && (req.words.p.Some? ==> IsG10(req) || (req.path == Some(G64) && req.words.p.value >= 0.0))
  }

  predicate MotionPermitted(hypot: Hypot, m: Machine, req: Request)
    requires Wired(m)
  {
    match MotionAfter(m, req)
    case G0 => true
    case G1 => Feeds(m, req)
    case G2 => Feeds(m, req) && IsArc(hypot, m, req)
    case G3 => Feeds(m, req) && IsArc(hypot, m, req)
    case G38_3 => Feeds(m, req)
  }

  /** The blocks the machine executes. */
  predicate Permitted(hypot: Hypot, m: Machine, req: Request)
    requires Wired(m)
  {
    && (IsG10(req) ==> G10Permitted(m, req))
    && (req.words.nonModal == Some(G53) ==> MotionAfter(m, req) == G0 || MotionAfter(m, req) == G1)
    && req.feedMode != Some(G93)
    && (req.toolLength == Some(G43) ==> SelectedTool(m, req) != 0 && SelectedTool(m, req) in m.tools)
    && WordsPermitted(req)
    && (Moving(req) ==> MotionPermitted(hypot, m, req))
  }

  function ToleranceAfter(m: Machine, req: Request): Option<real> {
    if req.path.None? then m.modal.pathTolerance
    else if req.path != Some(G64) then None
    else if IsG10(req) || req.words.p.None? then m.modal.pathTolerance
    else Some(Length(m, req, req.words.p.value))
  }

  /** The modes after the block: what it says, else what was. */
  function ModalAfter(m: Machine, req: Request): Modal {
    Modal(
      MotionAfter(m, req), Chosen(req.plane, m.modal.plane), Chosen(req.distance, m.modal.distance),
      Chosen(req.arcDistance, m.modal.arcDistance), Chosen(req.feedMode, m.modal.feedMode),
      Chosen(req.units, m.modal.units), Chosen(req.toolLength, m.modal.toolLength), CoordAfter(m, req),
      Chosen(req.path, m.modal.path), ToleranceAfter(m, req),
      if req.words.toolChange then M5 else Chosen(req.spindle, m.modal.spindle),
      FeedAfter(m, req), Chosen2(req.s, m.modal.s), Chosen2(req.t, m.modal.t))
  }

  function MemoryAfter(m: Machine, req: Request): Memory
    requires Wired(m)
  {
    m.memory.(
      coordsys := match req.coord case Some(system) => system as real case None => m.memory.coordsys,
      offsets := seq(9, k requires 0 <= k < 9 => StoredAfter(m, req, k + 1)))
  }

  /** The machine after the block; its words are whatever the block left in them. */
  function Outcome(m: Machine, req: Request, words: Words): Machine
    requires Wired(m)
  {
    var probes := Moving(req) && MotionAfter(m, req) == G38_3;
    var work := StoredAfter(m, req, CoordAfter(m, req));
    var tool := Point((axis: Axis) => ToolOffsetOn(m, req, axis));
    Machine(
      m.unit, if Moving(req) && !probes then Goal(m, req) else m.pos, work, tool,
      MemoryAfter(m, req), ToolsAfter(m, req), ModalAfter(m, req), words, m.physicalTool,
      if probes then m.nextCommandId + 1 else m.nextCommandId,
      if probes then Some(PendingProbe(m.nextCommandId, work, tool, Chosen(req.units, m.modal.units))) else m.pending)
  }

  /** Spindle first, then the stop a tool change asks for, then one motion. */
  function Issued(m: Machine, req: Request): seq<Command>
    requires Wired(m) && (Moving(req) && MotionAfter(m, req) != G0 ==> Feeds(m, req))
  {
    SpindleIssued(m, req)
    + (if req.words.toolChange then [SpindleStop] else [])
    + (if Moving(req) then [MotionIssued(m, req)] else [])
  }

  function SpindleIssued(m: Machine, req: Request): seq<Command> {
    var speed := Chosen2(req.s, m.modal.s);
    match req.spindle
    case None => []
    case Some(M5) => [SpindleStop]
    case Some(turning) =>
      if speed.None? || speed.value <= 0.0 then [] else [SpindleStart(if turning == M3 then CW else CCW, speed.value)]
  }

  function MotionIssued(m: Machine, req: Request): Command
    requires Wired(m)
    requires MotionAfter(m, req) != G0 ==> Feeds(m, req)
  {
    var inMachine := req.words.nonModal == Some(G53);
    match MotionAfter(m, req)
    case G0 => MoveLine(m.pos, Goal(m, req), -1.0, inMachine)
    case G1 => MoveLine(m.pos, Goal(m, req), FeedAfter(m, req).value, inMachine)
    case G38_3 => ProbeMove(m.nextCommandId, m.pos, Goal(m, req), FeedAfter(m, req).value)
    case turning =>
      MoveArc(m.pos, Goal(m, req), Center(m, req),
              Point3((axis: Axis) => TurnOn(Chosen(req.plane, m.modal.plane), turning, axis)), FeedAfter(m, req).value)
  }
}
