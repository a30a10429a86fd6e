/** State of the G-code machine and the words of one block
    (src/Machine.cpp, src/include/gcode/GCode.h, src/include/machine/ToolTable.h). */
module MachineState {
  import opened Text

  // ----- positions

  datatype Axis = X | Y | Z | A | B | C

  datatype Vec6 = Vec6(x: real, y: real, z: real, a: real, b: real, c: real) {
    function Plus(v: Vec6): Vec6 { Vec6(x + v.x, y + v.y, z + v.z, a + v.a, b + v.b, c + v.c) }
    function Minus(v: Vec6): Vec6 { Vec6(x - v.x, y - v.y, z - v.z, a - v.a, b - v.b, c - v.c) }
  }

  datatype Vec3 = Vec3(x: real, y: real, z: real)

  const ORIGIN := Vec6(0.0, 0.0, 0.0, 0.0, 0.0, 0.0)

  /** The axis words of a block, each present or not. */
  datatype AxisWords = AxisWords(
    x: Option<real>, y: Option<real>, z: Option<real>, a: Option<real>, b: Option<real>, c: Option<real>)

  const NO_AXES := AxisWords(None, None, None, None, None, None)

  // ----- modes

  datatype MachineUnit = Inch | Millimetre
  datatype Motion = G0 | G1 | G2 | G3 | G38_3
  datatype Plane = G17 | G18 | G19
  datatype Distance = G90 | G91
  datatype ArcDistance = G90_1 | G91_1
  datatype FeedMode = G93 | G94
  datatype Units = G20 | G21
  datatype ToolLength = G43 | G49
  datatype PathMode = G61 | G61_1 | G64
  datatype Spindle = M3 | M4 | M5
  datatype NonModal = G53 | G10
  datatype Stop = M0 | M1 | M2 | M30

  /** G54 is 1, ..., G59.3 is 9, as COORDSYS stores it. */
  type Coord = n: int | 1 <= n <= 9 witness 1

  const G59_3: Coord := 9

  /** The modes of a valid GCodeState; `f`, `s` and `t` survive blocks as well. */
  datatype Modal = Modal(
    motion: Motion, plane: Plane, distance: Distance, arcDistance: ArcDistance, feedMode: FeedMode,
    units: Units, toolLength: ToolLength, coord: Coord, path: PathMode, pathTolerance: Option<real>,
    spindle: Spindle, f: Option<real>, s: Option<real>, t: Option<real>)

  const DEFAULT_MODAL :=
    Modal(G0, G17, G90, G91_1, G94, G20, G49, 1, G61_1, None, M5, None, None, None)

  /** The part of a GCodeState that resetModal clears. */
  datatype Words = Words(
    axes: AxisWords, i: Option<real>, j: Option<real>, k: Option<real>,
    d: Option<real>, h: Option<real>, l: Option<real>, p: Option<real>, q: Option<real>, r: Option<real>,
    nonModal: Option<NonModal>, stop: Option<Stop>, toolChange: bool)

  const NO_WORDS := Words(NO_AXES, None, None, None, None, None, None, None, None, None, None, None, false)

  /** All words of a block, after affectState has seen each of them. */
  datatype Request = Request(
    motion: Option<Motion>, plane: Option<Plane>, distance: Option<Distance>, arcDistance: Option<ArcDistance>,
    feedMode: Option<FeedMode>, units: Option<Units>, toolLength: Option<ToolLength>, coord: Option<Coord>,
    path: Option<PathMode>, spindle: Option<Spindle>,
    f: Option<real>, s: Option<real>, t: Option<real>, words: Words)

  const NO_REQUEST :=
    Request(None, None, None, None, None, None, None, None, None, None, None, None, None, NO_WORDS)

  /** A block: what its words ask for (None when affectState rejects one of
      them), and whether it carries a block-delete mark. */
  datatype Block = Block(request: Option<Request>, deleted: bool)

  // ----- the machine

  datatype Tool = Tool(number: int, offset: Vec6, diameter: real, comment: string)

  /** Memory cells: the active coordinate system, the nine work offsets, the
      other persistent parameters, the probe results, and program storage. */
  datatype Memory = Memory(
    coordsys: real, offsets: seq<Vec6>, parameters: seq<real>, probe: Vec6, probeSuccess: real, program: seq<real>)

  datatype PendingProbe = PendingProbe(id: nat, workOffset: Vec6, toolOffset: Vec6, units: Units)

  datatype Machine = Machine(
    unit: MachineUnit, pos: Vec6, workOffset: Vec6, toolOffset: Vec6, memory: Memory, tools: map<int, Tool>,
    modal: Modal, words: Words, physicalTool: int, nextCommandId: nat, pending: Option<PendingProbe>)

  /** There is a cell for every work offset. */
  predicate Wired(m: Machine) { |m.memory.offsets| == 9 }

  function StoredOffset(m: Machine, coord: Coord): Vec6
    requires Wired(m)
  {
    m.memory.offsets[coord - 1]
  }

  datatype Direction = CW | CCW

  datatype Command =
    | MoveLine(from: Vec6, to: Vec6, speed: real, machineCoordinates: bool)
    | MoveArc(from: Vec6, to: Vec6, center: Vec3, axis: Vec3, speed: real)
    | ProbeMove(id: nat, from: Vec6, to: Vec6, speed: real)
    | SpindleStop
    | SpindleStart(direction: Direction, rate: real)

  // ----- scales

  function LinearScale(unit: MachineUnit, units: Units): (scale: real)
    ensures scale > 0.0
  {
    if unit == Inch then (if units == G20 then 1.0 else 1.0 / 25.4)
    else (if units == G20 then 25.4 else 1.0)
  }

  function Scale(m: Machine): (scale: real)
    ensures scale > 0.0
  {
    LinearScale(m.unit, m.modal.units)
  }

  function Scaled(word: Option<real>, scale: real): Option<real> {
    match word
    case Some(v) => Some(v * scale)
    case None => None
  }

  /** Linear axes scale with the program units, rotary axes do not. */
  function ScaledAxes(axes: AxisWords, scale: real): AxisWords {
    AxisWords(Scaled(axes.x, scale), Scaled(axes.y, scale), Scaled(axes.z, scale), axes.a, axes.b, axes.c)
  }

  function Either(word: Option<real>, fallback: real): real {
    match word
    case Some(v) => v
    case None => fallback
  }

  /** `over` where present, else what was there. */
  function Overlay(axes: AxisWords, over: AxisWords): AxisWords {
    AxisWords(
      if over.x.Some? then over.x else axes.x, if over.y.Some? then over.y else axes.y,
      if over.z.Some? then over.z else axes.z, if over.a.Some? then over.a else axes.a,
      if over.b.Some? then over.b else axes.b, if over.c.Some? then over.c else axes.c)
  }

  /** A vector with the given axes replaced. */
  function Replace(v: Vec6, axes: AxisWords): Vec6 {
    Vec6(Either(axes.x, v.x), Either(axes.y, v.y), Either(axes.z, v.z),
         Either(axes.a, v.a), Either(axes.b, v.b), Either(axes.c, v.c))
  }

  predicate AnyAxis(axes: AxisWords) { axes != NO_AXES }

  /** static_cast<int>: towards zero. */
  function Truncate(r: real): int { if r >= 0.0 then r.Floor else -((-r).Floor) }
}
