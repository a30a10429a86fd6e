/** Execution of one block (src/Machine.cpp, `executeBlock`, `executeBlockImpl`,
    `handleG10`, `handleMotion`), as a sequence of stages on the machine and the
    words not yet consumed. */
module MachineBlock {
  import opened Text
  import opened Arithmetic
  import opened MachineState

  /** Geometry of doubles that is not modelled: std::hypot. */
  type Hypot = (real, real) -> real

  /** Where execution stands: still going, or stopped by an exception with the
      machine as the stages before left it. */
  datatype Stage =
    | Going(m: Machine, req: Request, commands: seq<Command>, moving: bool)
    | Thrown(m: Machine)

  // ----- target coordinates

  /** Offset between program and machine coordinates; G53 drops the work offset. */
  function ActiveOffset(m: Machine): Vec6 {
    (if m.words.nonModal == Some(G53) then ORIGIN else m.workOffset).Plus(m.toolOffset)
  }

  function AxisTarget(distance: Distance, word: Option<real>, current: real, offset: real): real {
    match word
    case None => current
    case Some(v) => if distance == G91 then v + current else v + offset
  }

  function Target(m: Machine): Vec6 {
    var o := ActiveOffset(m);
    var w := m.words.axes;
    var d := m.modal.distance;
    Vec6(AxisTarget(d, w.x, m.pos.x, o.x), AxisTarget(d, w.y, m.pos.y, o.y), AxisTarget(d, w.z, m.pos.z, o.z),
         AxisTarget(d, w.a, m.pos.a, o.a), AxisTarget(d, w.b, m.pos.b, o.b), AxisTarget(d, w.c, m.pos.c, o.c))
  }

  // ----- stages

  function SelectCoordinates(m: Machine, req: Request): Stage
    requires Wired(m)
  {
    var m1 :=
      match req.coord
      case Some(coord) =>
        m.(modal := m.modal.(coord := coord),
           memory := m.memory.(coordsys := coord as real),
           workOffset := StoredOffset(m, coord))
      case None => m;
    var m2 :=
      match req.units
      case Some(units) => m1.(modal := m1.modal.(units := units))
      case None => m1;
    Going(m2, req.(coord := None, units := None), [], false)
  }

  /** G10 L2: writes the given axes of one stored work offset. */
  function SetWorkOffset(m: Machine, req: Request): Stage
    requires Wired(m) && m.words.p.Some?
  {
    var m1 := m.(words := m.words.(nonModal := req.words.nonModal));
    var system := Truncate(m.words.p.value);
    if m.words.p.value != system as real || system < 1 || system > 9 then Thrown(m1)
    else
      var axes := ScaledAxes(req.words.axes, Scale(m));
      var offsets := m.memory.offsets[system - 1 := Replace(m.memory.offsets[system - 1], axes)];
      Going(m1.(words := m1.words.(axes := Overlay(m1.words.axes, axes)),
                memory := m.memory.(offsets := offsets),
                workOffset := offsets[m.modal.coord - 1]),
            req.(words := req.words.(nonModal := None, axes := NO_AXES)), [], false)
  }

  const INT_MAX := 0x7FFF_FFFF

  /** `base` less the given coordinates on the given axes, `offset` on the others. */
  function TouchOff(base: Vec6, given: AxisWords, offset: Vec6): Vec6 {
    Vec6(if given.x.Some? then base.x - given.x.value else offset.x,
         if given.y.Some? then base.y - given.y.value else offset.y,
         if given.z.Some? then base.z - given.z.value else offset.z,
         if given.a.Some? then base.a - given.a.value else offset.a,
         if given.b.Some? then base.b - given.b.value else offset.b,
         if given.c.Some? then base.c - given.c.value else offset.c)
  }

  /** G10 L11: sets the given axes of a tool so that the current position reads
      as the given coordinates in G59.3. */
  function SetToolOffset(m: Machine, req: Request): Stage
    requires Wired(m) && m.words.p.Some?
  {
    var m1 := m.(words := m.words.(nonModal := req.words.nonModal));
    var p := m.words.p.value;
    if p < 1.0 || p > INT_MAX as real || Truncate(p) as real != p then Thrown(m1)
    else if Truncate(p) !in m.tools then Thrown(m1)
    else
      var tool := m.tools[Truncate(p)];
      var axes := ScaledAxes(req.words.axes, Scale(m));
      var offset := TouchOff(m.pos.Minus(StoredOffset(m, G59_3)), axes, tool.offset);
      var m2 := m1.(words := m1.words.(axes := Overlay(m1.words.axes, axes)));
      var req2 := req.(words := req.words.(nonModal := None, axes := NO_AXES, r := None));
      match req.words.r
      case None => Going(m2.(tools := m.tools[Truncate(p) := tool.(offset := offset)]), req2, [], false)
      case Some(r) =>
        var m3 := m2.(words := m2.words.(r := Some(r)));
        if r < 0.0 then Thrown(m3)
        else Going(m3.(tools := m.tools[Truncate(p) := tool.(offset := offset, diameter := 2.0 * r * Scale(m))]),
                   req2, [], false)
  }

  function HandleG10(m: Machine, req: Request): Stage
    requires Wired(m)
  {
    if req.words.l.None? || req.words.p.None? then Thrown(m)
    else
      var m1 := m.(words := m.words.(l := req.words.l, p := req.words.p));
      var req1 := req.(words := req.words.(l := None, p := None));
      if m1.words.l == Some(2.0) then SetWorkOffset(m1, req1)
      else if m1.words.l == Some(11.0) then SetToolOffset(m1, req1)
      else Thrown(m1)
  }

  function NonModalCodes(m: Machine, req: Request): Stage
    requires Wired(m)
  {
    match req.words.nonModal
    case None => Going(m, req, [], false)
    case Some(code) =>
      if m.words.nonModal.Some? then Thrown(m)
      else if code == G53 then
        Going(m.(words := m.words.(nonModal := Some(G53))), req.(words := req.words.(nonModal := None)), [], false)
      else HandleG10(m, req)
  }

  function PathAndMotion(m: Machine, req: Request): Stage {
    var req1 := req.(path := None);
    var s: Stage :=
      match req.path
      case None => Going(m, req, [], false)
      case Some(path) =>
        var m1 := m.(modal := m.modal.(path := path));
        if path != G64 then Going(m1.(modal := m1.modal.(pathTolerance := None)), req1, [], false)
        else if req.words.p.None? then Going(m1, req1, [], false)
        else if req.words.p.value < 0.0 then Thrown(m1)
        else Going(m1.(modal := m1.modal.(pathTolerance := Scaled(req.words.p, Scale(m)))),
                   req1.(words := req1.words.(p := None)), [], false);
    if s.Thrown? then s
    else
      var m2 := if req.motion.Some? then s.m.(modal := s.m.modal.(motion := req.motion.value)) else s.m;
      if m2.words.nonModal == Some(G53) && m2.modal.motion != G0 && m2.modal.motion != G1 then Thrown(m2)
      else Going(m2, s.req.(motion := None), [], false)
  }

  function ModesAndRates(m: Machine, req: Request): Stage {
    var d := if req.distance.Some? then req.distance.value else m.modal.distance;
    var ad := if req.arcDistance.Some? then req.arcDistance.value else m.modal.arcDistance;
    var m1 := m.(modal := m.modal.(distance := d, arcDistance := ad));
    if req.feedMode == Some(G93) then Thrown(m1)
    else
      var fm := if req.feedMode.Some? then req.feedMode.value else m.modal.feedMode;
      var f := if req.f.Some? then Scaled(req.f, Scale(m)) else m.modal.f;
      var s := if req.s.Some? then req.s else m.modal.s;
      var t := if req.t.Some? then req.t else m.modal.t;
      Going(m1.(modal := m1.modal.(feedMode := fm, f := f, s := s, t := t)),
            req.(distance := None, arcDistance := None, feedMode := None, f := None, s := None, t := None), [], false)
  }

  function SpindleCommands(m: Machine, spindle: Option<Spindle>): seq<Command> {
    if spindle.None? then []
    else if spindle == Some(M5) then [SpindleStop]
    else if m.modal.s.Some? && m.modal.s.value > 0.0 then
      [SpindleStart(if spindle == Some(M3) then CW else CCW, m.modal.s.value)]
    else []
  }

  function ToolAndSpindle(m: Machine, req: Request): Stage {
    var started := SpindleCommands(m, req.spindle);
    var m1 := if req.spindle.Some? then m.(modal := m.modal.(spindle := req.spindle.value)) else m;
    var req1 := req.(spindle := None, words := req.words.(toolChange := false));
    if req.words.toolChange then
      Going(m1.(modal := m1.modal.(spindle := M5), words := m1.words.(toolChange := true)), req1,
            started + [SpindleStop], false)
    else Going(m1, req1, started, false)
  }

  /** The tool whose offset G43 applies: H, or the programmed tool when H is absent or zero. */
  function OffsetTool(m: Machine, h: Option<real>): Option<int> {
    var number := if h.Some? then Truncate(h.value) else 0;
    if number != 0 then Some(number)
    else if m.modal.t.None? || Truncate(m.modal.t.value) == 0 then None
    else Some(Truncate(m.modal.t.value))
  }

  function ToolLengthOffset(m: Machine, req: Request, commands: seq<Command>): Stage {
    match req.toolLength
    case None => Going(m, req, commands, false)
    case Some(mode) =>
      var m1 := m.(modal := m.modal.(toolLength := mode));
      var req1 := req.(toolLength := None);
      if mode == G49 then Going(m1.(toolOffset := ORIGIN), req1, commands, false)
      else
        var m2 := if req.words.h.Some? then m1.(words := m1.words.(h := req.words.h)) else m1;
        var number := OffsetTool(m1, req.words.h);
        if number.None? || number.value !in m.tools then Thrown(m2)
        else Going(m2.(toolOffset := m.tools[number.value].offset),
                   req1.(words := req1.words.(h := None)), commands, false)
  }

  function PlaneAndAxes(m: Machine, req: Request, commands: seq<Command>): Stage {
    var plane := if req.plane.Some? then req.plane.value else m.modal.plane;
    var w := req.words;
    var scale := Scale(m);
    var words := m.words.(
      stop := if w.stop.Some? then w.stop else m.words.stop,
      axes := Overlay(m.words.axes, ScaledAxes(w.axes, scale)),
      i := if w.i.Some? then Scaled(w.i, scale) else m.words.i,
      j := if w.j.Some? then Scaled(w.j, scale) else m.words.j,
      k := if w.k.Some? then Scaled(w.k, scale) else m.words.k);
    Going(m.(modal := m.modal.(plane := plane), words := words),
          req.(plane := None, words := w.(stop := None, axes := NO_AXES, i := None, j := None, k := None)),
          commands,
          AnyAxis(w.axes) || w.i.Some? || w.j.Some? || w.k.Some?)
  }

  // ----- motion

  function CenterCoordinate(m: Machine, word: Option<real>, current: real, offset: real): real {
    if m.modal.arcDistance == G91_1 then current + Either(word, 0.0) else Either(word, 0.0) + offset
  }

  function ArcCenter(m: Machine): Option<Vec3> {
    var o := ActiveOffset(m);
    var w := m.words;
    var x := CenterCoordinate(m, w.i, m.pos.x, o.x);
    var y := CenterCoordinate(m, w.j, m.pos.y, o.y);
    var z := CenterCoordinate(m, w.k, m.pos.z, o.z);
    match m.modal.plane
    case G17 => if w.i.None? && w.j.None? then None else Some(Vec3(x, y, m.pos.z))
    case G18 => if w.i.None? && w.k.None? then None else Some(Vec3(x, m.pos.y, z))
    case G19 => if w.j.None? && w.k.None? then None else Some(Vec3(m.pos.x, y, z))
  }

  function ArcAxis(m: Machine): Vec3 {
    var flip := if m.modal.motion == G3 then 1.0 else -1.0;
    match m.modal.plane
    case G17 => Vec3(0.0, 0.0, flip)
    case G18 => Vec3(0.0, flip, 0.0)
    case G19 => Vec3(flip, 0.0, 0.0)
  }

  function ArcTolerance(unit: MachineUnit): real { if unit == Inch then 0.0005 else 0.0005 * 25.4 }

  function Radius(hypot: Hypot, plane: Plane, p: Vec6, center: Vec3): real {
    match plane
    case G17 => hypot(p.x - center.x, p.y - center.y)
    case G18 => hypot(p.x - center.x, p.z - center.z)
    case G19 => hypot(p.y - center.y, p.z - center.z)
  }

  predicate ValidArc(hypot: Hypot, m: Machine, to: Vec6, center: Vec3) {
    var r0 := Radius(hypot, m.modal.plane, m.pos, center);
    var r1 := Radius(hypot, m.modal.plane, to, center);
    r0 != 0.0 && r1 != 0.0 && Abs(r0 - r1) <= ArcTolerance(m.unit)
  }

  predicate HasFeed(m: Machine) { m.modal.f.Some? && m.modal.f.value > 0.0 }

  function MakeLine(m: Machine): Stage {
    if m.modal.motion == G1 && !HasFeed(m) then Thrown(m)
    else
      var to := Target(m);
      var speed := if m.modal.motion == G1 then m.modal.f.value else -1.0;
      Going(m.(pos := to), NO_REQUEST, [MoveLine(m.pos, to, speed, m.words.nonModal == Some(G53))], true)
  }

  function MakeArc(hypot: Hypot, m: Machine): Stage {
    if !HasFeed(m) then Thrown(m)
    else
      var to := Target(m);
      var center := ArcCenter(m);
      if center.None? || !ValidArc(hypot, m, to, center.value) then Thrown(m)
      else Going(m.(pos := to), NO_REQUEST, [MoveArc(m.pos, to, center.value, ArcAxis(m), m.modal.f.value)], true)
  }

  function MakeProbe(m: Machine): Stage {
    if !HasFeed(m) then Thrown(m)
    else
      var id := m.nextCommandId;
      Going(m.(nextCommandId := id + 1,
               pending := Some(PendingProbe(id, m.workOffset, m.toolOffset, m.modal.units))),
            NO_REQUEST, [ProbeMove(id, m.pos, Target(m), m.modal.f.value)], true)
  }

  function Move(hypot: Hypot, m: Machine): Stage {
    match m.modal.motion
    case G0 => MakeLine(m)
    case G1 => MakeLine(m)
    case G2 => MakeArc(hypot, m)
    case G3 => MakeArc(hypot, m)
    case G38_3 => MakeProbe(m)
  }

  function MotionStage(hypot: Hypot, m: Machine, req: Request, commands: seq<Command>, moving: bool): Stage {
    if !moving then Going(m, req, commands, moving)
    else
      var s := Move(hypot, m);
      if s.Thrown? then s else Going(s.m, req, commands + s.commands, moving)
  }

  /** Words no stage consumed are unsupported. */
  function NothingLeft(m: Machine, req: Request, commands: seq<Command>, moving: bool): Stage {
    if req == NO_REQUEST then Going(m, req, commands, moving) else Thrown(m)
  }

  // ----- the whole block

  const STAGES := 9

  function Next(hypot: Hypot, k: nat, s: Stage): Stage
    requires s.Going? && Wired(s.m)
  {
    match k
    case 0 => SelectCoordinates(s.m, s.req)
    case 1 => NonModalCodes(s.m, s.req)
    case 2 => PathAndMotion(s.m, s.req)
    case 3 => ModesAndRates(s.m, s.req)
    case 4 => ToolAndSpindle(s.m, s.req)
    case 5 => ToolLengthOffset(s.m, s.req, s.commands)
    case 6 => PlaneAndAxes(s.m, s.req, s.commands)
    case 7 => MotionStage(hypot, s.m, s.req, s.commands, s.moving)
    case _ => NothingLeft(s.m, s.req, s.commands, s.moving)
  }

  lemma NextStaysWired(hypot: Hypot, k: nat, s: Stage)
    requires s.Going? && Wired(s.m)
    ensures Wired(Next(hypot, k, s).m)
  {}

  function Run(hypot: Hypot, k: nat, s: Stage): Stage
    requires Wired(s.m) && k <= STAGES
    decreases STAGES - k
  {
    if k == STAGES || s.Thrown? then s
    else
      NextStaysWired(hypot, k, s);
      Run(hypot, k + 1, Next(hypot, k, s))
  }

  /** What executeBlockImpl does first: refresh the work offset, resetModal. */
  function Enter(m: Machine): Machine
    requires Wired(m)
  {
    m.(workOffset := StoredOffset(m, m.modal.coord), words := NO_WORDS)
  }

  function ExecuteImpl(hypot: Hypot, m: Machine, req: Request, deleted: bool): Stage
    requires Wired(m)
  {
    if deleted then Going(Enter(m), req, [], false)
    else Run(hypot, 0, Going(Enter(m), req, [], false))
  }

  // ----- the transaction

  /** When the memory, and when the tool table, is copied before execution. */
  predicate SnapshotsMemory(req: Request) { req.words.nonModal == Some(G10) || req.coord.Some? }

  predicate SnapshotsTools(req: Request) { req.words.nonModal == Some(G10) && req.words.l == Some(11.0) }

  /** The catch block: everything from the copies there are, the rest as it was left. */
  function Restore(before: Machine, after: Machine, req: Request): Machine {
    before.(unit := after.unit,
            memory := if SnapshotsMemory(req) then before.memory else after.memory,
            tools := if SnapshotsTools(req) then before.tools else after.tools)
  }

  datatype BlockResult = Executed(m: Machine, commands: seq<Command>) | Failed(m: Machine)

  function ExecuteBlock(hypot: Hypot, m: Machine, block: Block): BlockResult
    requires Wired(m)
  {
    match block.request
    case None => Failed(m)
    case Some(req) =>
      match ExecuteImpl(hypot, m, req, block.deleted)
      case Thrown(after) => Failed(Restore(m, after, req))
      case Going(after, _, commands, _) => Executed(after, commands)
  }
}
