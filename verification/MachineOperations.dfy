/** The other operations of the machine, checkpoints, and what holds over every
    sequence of operations (src/Machine.cpp). */
module MachineOperations {
  import opened Text
  import opened MachineState
  import opened MachineBlock
  import opened MachineProperties

  function OnAxis(axis: Axis, value: real): AxisWords {
    match axis
    case X => NO_AXES.(x := Some(value))
    case Y => NO_AXES.(y := Some(value))
    case Z => NO_AXES.(z := Some(value))
    case A => NO_AXES.(a := Some(value))
    case B => NO_AXES.(b := Some(value))
    case C => NO_AXES.(c := Some(value))
  }

  datatype ProbeResult = ProbeResult(id: nat, triggered: bool, trigger: Vec6, stopped: Vec6)

  datatype ModalCheckpoint = ModalCheckpoint(modal: Modal, toolOffset: Vec6)

  datatype Checkpoint = Checkpoint(
    pos: Vec6, toolOffset: Vec6, modal: Modal, physicalTool: int,
    coordsys: real, offsets: seq<Vec6>, parameters: seq<real>, tools: map<int, Tool>)

  datatype Operation =
    | BeginProgramRun
    | SynchronizePosition(position: Vec6)
    | SetActiveWorkOffset(axis: Axis, value: real)
    | PrepareToolChange(tool: int)
    | RestoreModal(modes: ModalCheckpoint)
    | RestoreCheckpoint(checkpoint: Checkpoint)
    | AcceptProbeResult(result: ProbeResult)
    | RunBlock(block: Block)

  /** How an operation ends: normally, with an exception or error value, or by
      aborting the process. */
  datatype Outcome =
    | Done(m: Machine, commands: seq<Command>)
    | Refused(m: Machine)
    | Panicked

  // ----- operations

  function Begin(m: Machine): Outcome
    requires Wired(m)
  {
    var number := Truncate(m.memory.coordsys);
    var reset := m.(memory := m.memory.(program := []), pos := ORIGIN, workOffset := ORIGIN, toolOffset := ORIGIN,
                    physicalTool := 0, pending := None, modal := DEFAULT_MODAL, words := NO_WORDS);
    if 1 <= number <= 9 then
      Done(reset.(modal := DEFAULT_MODAL.(coord := number), workOffset := StoredOffset(m, number)), [])
    else Refused(reset)
  }

  function SetOffset(m: Machine, axis: Axis, value: real): Machine
    requires Wired(m)
  {
    var k := m.modal.coord - 1;
    var offset := Replace(m.memory.offsets[k], OnAxis(axis, value));
    m.(memory := m.memory.(offsets := m.memory.offsets[k := offset]), workOffset := offset)
  }

  function CaptureModal(m: Machine): ModalCheckpoint { ModalCheckpoint(m.modal, m.toolOffset) }

  function RestoreModes(m: Machine, c: ModalCheckpoint): Machine
    requires Wired(m)
  {
    m.(words := NO_WORDS, modal := c.modal.(spindle := M5), toolOffset := c.toolOffset,
       workOffset := StoredOffset(m, c.modal.coord), memory := m.memory.(coordsys := c.modal.coord as real))
  }

  function Capture(m: Machine): Checkpoint {
    Checkpoint(m.pos, m.toolOffset, m.modal, m.physicalTool,
               m.memory.coordsys, m.memory.offsets, m.memory.parameters, m.tools)
  }

  /** validateCheckpoint; finiteness of the numbers is built into their type. */
  predicate CheckpointValid(m: Machine, c: Checkpoint) {
    && |c.offsets| == |m.memory.offsets| && |c.parameters| == |m.memory.parameters|
    && c.coordsys == c.modal.coord as real
    && (forall n | n in c.tools :: ValidTool(n, c.tools[n]))
    && c.physicalTool >= 0 && (c.physicalTool != 0 ==> c.physicalTool in c.tools)
  }

  function RestoreState(m: Machine, c: Checkpoint): Outcome
    requires Wired(m)
  {
    if !CheckpointValid(m, c) then Refused(m)
    else
      Done(m.(memory := m.memory.(coordsys := c.coordsys, offsets := c.offsets, parameters := c.parameters, program := []),
              pos := c.pos, toolOffset := c.toolOffset, modal := c.modal, words := NO_WORDS,
              physicalTool := c.physicalTool, tools := c.tools,
              workOffset := c.offsets[c.modal.coord - 1], pending := None), [])
  }

  function AcceptProbe(m: Machine, r: ProbeResult): Outcome {
    if m.pending.None? || m.pending.value.id != r.id then Panicked
    else
      var p := m.pending.value;
      var work := r.trigger.Minus(p.workOffset).Minus(p.toolOffset);
      var scale := LinearScale(m.unit, p.units);
      var cells := Vec6(work.x / scale, work.y / scale, work.z / scale, work.a, work.b, work.c);
      Done(m.(memory := m.memory.(probe := cells, probeSuccess := if r.triggered then 1.0 else 0.0),
              pos := r.stopped, pending := None), [])
  }

  function Apply(hypot: Hypot, m: Machine, op: Operation): Outcome
    requires Wired(m)
  {
    match op
    case BeginProgramRun => Begin(m)
    case SynchronizePosition(p) => Done(m.(pos := p), [])
    case SetActiveWorkOffset(axis, value) => Done(SetOffset(m, axis, value), [])
    case PrepareToolChange(n) => if n in m.tools then Done(m.(physicalTool := n), []) else Refused(m)
    case RestoreModal(c) => Done(RestoreModes(m, c), [])
    case RestoreCheckpoint(c) => RestoreState(m, c)
    case AcceptProbeResult(r) => AcceptProbe(m, r)
    case RunBlock(block) =>
      match ExecuteBlock(hypot, m, block)
      case Executed(m', commands) => Done(m', commands)
      case Failed(m') => Refused(m')
  }

  // ----- every sequence of operations

  ghost predicate Sound(m: Machine) { Coherent(m) && ValidTools(m) }

  /** The number of a coordinate system, as COORDSYS holds it. */
  ghost predicate NamesSystem(r: real) { 1.0 <= r <= 9.0 && r.Floor as real == r }

  ghost predicate ToolsValid(m: Machine) { forall n | n in m.tools :: ValidTool(n, m.tools[n]) }

  lemma BeginSound(m: Machine)
    requires Wired(m) && ToolsValid(m) && NamesSystem(m.memory.coordsys)
    ensures Begin(m).Done? && Sound(Begin(m).m)
  {}

  lemma OperationSound(hypot: Hypot, m: Machine, op: Operation)
    requires Sound(m)
    ensures var r := Apply(hypot, m, op); !r.Panicked? ==> Sound(r.m)
  {
    match op
    case BeginProgramRun => BeginSound(m);
    case RestoreCheckpoint(c) =>
      if CheckpointValid(m, c) {
        var r := RestoreState(m, c).m;
        assert forall n | n in r.tools :: ValidTool(n, r.tools[n]);
      }
    case RunBlock(block) =>
      BlockCoherent(hypot, m, block);
      BlockKeepsTools(hypot, m, block);
    case _ =>
  }

  /** The machine after a sequence of operations, exceptions included; None once it aborted. */
  ghost function After(hypot: Hypot, m: Machine, ops: seq<Operation>): (r: Option<Machine>)
    requires Sound(m)
    ensures r.Some? ==> Sound(r.value)
    decreases |ops|
  {
    if ops == [] then Some(m)
    else
      OperationSound(hypot, m, ops[0]);
      match Apply(hypot, m, ops[0])
      case Panicked => None
      case Done(m', _) => After(hypot, m', ops[1..])
      case Refused(m') => After(hypot, m', ops[1..])
  }

  /** Over every sequence of operations on a freshly begun machine, failed ones
      included, the cached work offset and the COORDSYS cell agree with the modes. */
  lemma OffsetsStayCoherent(hypot: Hypot, stored: Machine, ops: seq<Operation>)
    requires Wired(stored) && ToolsValid(stored) && NamesSystem(stored.memory.coordsys)
    ensures Begin(stored).Done? && Sound(Begin(stored).m)
    ensures var r := After(hypot, Begin(stored).m, ops); r.Some? ==> Coherent(r.value)
  {
    BeginSound(stored);
  }

  // ----- checkpoints

  /** A machine's own checkpoint passes validation exactly when COORDSYS names
      the active system and the tool table is valid. */
  lemma OwnCheckpointValid(m: Machine)
    requires Wired(m)
    ensures CheckpointValid(m, Capture(m)) <==> m.memory.coordsys == m.modal.coord as real && ValidTools(m)
  {
  }

  /** Whatever was done to a machine, its checkpoint can be restored into any
      machine with the same parameter bank, and reproduces position, modes,
      tool offset, tool table, stored offsets and work offset. */
  lemma CheckpointRoundTrip(hypot: Hypot, start: Machine, ops: seq<Operation>, into: Machine)
    requires Sound(start) && Wired(into)
    ensures var r := After(hypot, start, ops);
            r.Some? && |into.memory.parameters| == |r.value.memory.parameters| ==>
              var m := r.value;
              var restored := RestoreState(into, Capture(m));
              && restored.Done?
              && Capture(restored.m) == Capture(m)
              && restored.m.workOffset == m.workOffset
              && Coherent(restored.m)
  {
    var r := After(hypot, start, ops);
    if r.Some? {
      OwnCheckpointValid(r.value);
    }
  }

  /** A tool-change checkpoint brings back every mode but the spindle, which it
      stops, and the work offset of the system it was taken in. */
  lemma ModalRoundTrip(hypot: Hypot, m: Machine, ops: seq<Operation>)
    requires Sound(m)
    ensures var r := After(hypot, m, ops);
            r.Some? ==>
              var restored := RestoreModes(r.value, CaptureModal(m));
              && CaptureModal(restored) == CaptureModal(m).(modal := m.modal.(spindle := M5))
              && Coherent(restored)
              && (StoredOffset(r.value, m.modal.coord) == StoredOffset(m, m.modal.coord) ==>
                    restored.workOffset == m.workOffset)
  {}

  // ----- continuity over a program

  ghost function CommandsOf(hypot: Hypot, m: Machine, blocks: seq<Block>): (seq<Command>, Vec6)
    requires Sound(m)
    decreases |blocks|
  {
    if blocks == [] then ([], m.pos)
    else
      BlockCoherent(hypot, m, blocks[0]);
      BlockKeepsTools(hypot, m, blocks[0]);
      var r := ExecuteBlock(hypot, m, blocks[0]);
      var rest := CommandsOf(hypot, r.m, blocks[1..]);
      (if r.Executed? then r.commands + rest.0 else rest.0, rest.1)
  }

  /** The commands of a whole program, blocks that fail in between included,
      form one path without gaps from the first position to the last. */
  lemma {:induction false} ProgramContinuous(hypot: Hypot, m: Machine, blocks: seq<Block>)
    requires Sound(m)
    ensures var path := CommandsOf(hypot, m, blocks); Continuous(m.pos, path.0, path.1)
    decreases |blocks|
  {
    if blocks != [] {
      BlockCoherent(hypot, m, blocks[0]);
      BlockKeepsTools(hypot, m, blocks[0]);
      BlocksAreAllOrNothing(hypot, m, blocks[0]);
      BlockContinuous(hypot, m, blocks[0]);
      var r := ExecuteBlock(hypot, m, blocks[0]);
      ProgramContinuous(hypot, r.m, blocks[1..]);
      if r.Executed? {
        var rest := CommandsOf(hypot, r.m, blocks[1..]);
        ContinuousConcat(m.pos, r.commands, r.m.pos, rest.0, rest.1);
      }
    }
  }
}
