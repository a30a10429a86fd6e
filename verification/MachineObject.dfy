/** The machine as the object it is: fields updated stage by stage, and the
    checkpoint-and-restore of `executeBlock` (src/Machine.cpp). Every method is
    proved to do what MachineBlock and MachineOperations say. */
module MachineObject {
  import opened Text
  import opened MachineState
  import opened MachineBlock
  import opened MachineProperties
  import opened MachineOperations
  import opened MachineRoundTrips

  /** One stage of a run; a stage that throws ends it. */
  lemma RunStep(hypot: Hypot, k: nat, s: Stage)
    requires s.Going? && Wired(s.m) && k < STAGES
    ensures Wired(Next(hypot, k, s).m) && Run(hypot, k, s) == Run(hypot, k + 1, Next(hypot, k, s))
    ensures Next(hypot, k, s).Thrown? ==> Run(hypot, k, s) == Next(hypot, k, s)
  {
    NextStaysWired(hypot, k, s);
  }

  lemma FirstStages(hypot: Hypot, s: Stage)
    requires s.Going? && Wired(s.m)
    ensures Next(hypot, 0, s) == SelectCoordinates(s.m, s.req) && Next(hypot, 1, s) == NonModalCodes(s.m, s.req)
  {}

  lemma ModeStages(hypot: Hypot, s: Stage)
    requires s.Going? && Wired(s.m)
    ensures Next(hypot, 2, s) == PathAndMotion(s.m, s.req) && Next(hypot, 3, s) == ModesAndRates(s.m, s.req)
  {}

  lemma AxesStage(hypot: Hypot, s: Stage)
    requires s.Going? && Wired(s.m)
    ensures Next(hypot, 6, s) == PlaneAndAxes(s.m, s.req, s.commands)
  {}

  lemma MotionStageMoves(hypot: Hypot, s: Stage)
    requires s.Going? && Wired(s.m)
    ensures var moved := Move(hypot, s.m);
            Next(hypot, 7, s) ==
            (if !s.moving then s
             else if moved.Thrown? then moved
             else Going(moved.m, s.req, s.commands + moved.commands, s.moving))
  {}

  lemma LastStage(hypot: Hypot, s: Stage)
    requires s.Going? && Wired(s.m)
    ensures Run(hypot, 8, s) == if s.req == NO_REQUEST then s else Thrown(s.m)
  {
    NextStaysWired(hypot, 8, s);
  }

  class MachineImpl {
    const unit: MachineUnit
    const hypot: Hypot
    var pos: Vec6
    var workOffset: Vec6
    var toolOffset: Vec6
    var memory: Memory
    var tools: map<int, Tool>
    var modal: Modal
    var words: Words
    var physicalTool: int
    var nextCommandId: nat
    var pending: Option<PendingProbe>

    ghost function Now(): Machine
      reads this
    {
      Machine(unit, pos, workOffset, toolOffset, memory, tools, modal, words, physicalTool, nextCommandId, pending)
    }

    constructor (unit: MachineUnit, hypot: Hypot, memory: Memory, tools: map<int, Tool>)
      requires |memory.offsets| == 9 && NamesSystem(memory.coordsys)
      requires forall n | n in tools :: ValidTool(n, tools[n])
      ensures Sound(Now()) && this.unit == unit && this.hypot == hypot
    {
      this.unit, this.hypot := unit, hypot;
      this.memory := memory.(program := []);
      this.tools := tools;
      pos, toolOffset := ORIGIN, ORIGIN;
      physicalTool, nextCommandId, pending := 0, 1, None;
      var number: Coord := Truncate(memory.coordsys);
      modal, words := DEFAULT_MODAL.(coord := number), NO_WORDS;
      workOffset := memory.offsets[number - 1];
    }

    // ----- stages

    method SetWorkOffset(req: Request) returns (thrown: bool, left: Request)
      requires Wired(Now()) && words.p.Some?
      modifies this
      ensures MachineBlock.SetWorkOffset(old(Now()), req)
           == if thrown then Thrown(Now()) else Going(Now(), left, [], false)
    {
      left := req;
      words := words.(nonModal := req.words.nonModal);
      var system := Truncate(words.p.value);
      if words.p.value != system as real || system < 1 || system > 9 {
        return true, left;
      }
      var scale := LinearScale(unit, modal.units);
      var axes := ScaledAxes(req.words.axes, scale);
      words := words.(axes := Overlay(words.axes, axes));
      memory := memory.(offsets := memory.offsets[system - 1 := Replace(memory.offsets[system - 1], axes)]);
      workOffset := memory.offsets[modal.coord - 1];
      left := left.(words := left.words.(nonModal := None, axes := NO_AXES));
      thrown := false;
    }

    method TouchOffAxes(base: Vec6, given: AxisWords, current: Vec6) returns (offset: Vec6)
      ensures offset == TouchOff(base, given, current)
    {
      offset := current;
      if given.x.Some? { offset := offset.(x := base.x - given.x.value); }
      if given.y.Some? { offset := offset.(y := base.y - given.y.value); }
      if given.z.Some? { offset := offset.(z := base.z - given.z.value); }
      if given.a.Some? { offset := offset.(a := base.a - given.a.value); }
      if given.b.Some? { offset := offset.(b := base.b - given.b.value); }
      if given.c.Some? { offset := offset.(c := base.c - given.c.value); }
    }

    method SetToolOffset(req: Request) returns (thrown: bool, left: Request)
      requires Wired(Now()) && words.p.Some?
      modifies this
      ensures MachineBlock.SetToolOffset(old(Now()), req)
           == if thrown then Thrown(Now()) else Going(Now(), left, [], false)
    {
      left := req;
      words := words.(nonModal := req.words.nonModal);
      var p := words.p.value;
      if p < 1.0 || p > INT_MAX as real || Truncate(p) as real != p || Truncate(p) !in tools {
        return true, left;
      }
      var number := Truncate(p);
      var tool := tools[number];
      var scale := LinearScale(unit, modal.units);
      var axes := ScaledAxes(req.words.axes, scale);
      var base := pos.Minus(memory.offsets[G59_3 - 1]);
      var offset := TouchOffAxes(base, axes, tool.offset);
      tool := tool.(offset := offset);
      words := words.(axes := Overlay(words.axes, axes));
      left := left.(words := left.words.(nonModal := None, axes := NO_AXES, r := None));
      if req.words.r.Some? {
        words := words.(r := req.words.r);
        if req.words.r.value < 0.0 {
          return true, left;
        }
        tool := tool.(diameter := 2.0 * req.words.r.value * scale);
      }
      tools := tools[number := tool];
      thrown := false;
    }

    method HandleG10(req: Request) returns (thrown: bool, left: Request)
      requires Wired(Now())
      modifies this
      ensures MachineBlock.HandleG10(old(Now()), req)
           == if thrown then Thrown(Now()) else Going(Now(), left, [], false)
    {
      left := req;
      if req.words.l.None? || req.words.p.None? {
        return true, left;
      }
      words := words.(l := req.words.l, p := req.words.p);
      left := left.(words := left.words.(l := None, p := None));
      if words.l == Some(2.0) {
        thrown, left := SetWorkOffset(left);
      } else if words.l == Some(11.0) {
        thrown, left := SetToolOffset(left);
      } else {
        thrown := true;
      }
    }

    method HandleMotion() returns (thrown: bool, command: Command)
      modifies this`pos, this`nextCommandId, this`pending
      ensures match Move(hypot, old(Now()))
              case Thrown(m) => thrown && Now() == m
              case Going(m, _, commands, _) => !thrown && Now() == m && commands == [command]
    {
      ghost var before := Now();
      var o := (if words.nonModal == Some(G53) then ORIGIN else workOffset).Plus(toolOffset);
      var w, d := words.axes, modal.distance;
      var to := Vec6(
        AxisTarget(d, w.x, pos.x, o.x), AxisTarget(d, w.y, pos.y, o.y), AxisTarget(d, w.z, pos.z, o.z),
        AxisTarget(d, w.a, pos.a, o.a), AxisTarget(d, w.b, pos.b, o.b), AxisTarget(d, w.c, pos.c, o.c));
      command := SpindleStop;
      var feed := modal.f.Some? && modal.f.value > 0.0;
      if modal.motion != G0 && !feed {
        return true, command;
      }
      match modal.motion {
        case G0 =>
          command := MoveLine(pos, to, -1.0, words.nonModal == Some(G53));
          pos := to;
        case G1 =>
          command := MoveLine(pos, to, modal.f.value, words.nonModal == Some(G53));
          pos := to;
        case G38_3 =>
          var id := nextCommandId;
          nextCommandId := nextCommandId + 1;
          pending := Some(PendingProbe(id, workOffset, toolOffset, modal.units));
          command := ProbeMove(id, pos, to, modal.f.value);
        case _ =>
          var m := Machine(unit, pos, workOffset, toolOffset, memory, tools, modal, words, physicalTool, nextCommandId, pending);
          var center := ArcCenter(m);
          if center.None? || !ValidArc(hypot, m, to, center.value) {
            return true, command;
          }
          command := MoveArc(pos, to, center.value, ArcAxis(m), modal.f.value);
          pos := to;
      }
      thrown := false;
    }

    // ----- the block

    method ExecuteBlockImpl(req: Request, deleted: bool) returns (thrown: bool, commands: seq<Command>)
      requires Wired(Now())
      modifies this
      ensures match ExecuteImpl(hypot, old(Now()), req, deleted)
              case Thrown(m) => thrown && Now() == m
              case Going(m, _, issued, _) => !thrown && Now() == m && commands == issued
    {
      hide Run;
      workOffset := memory.offsets[modal.coord - 1];
      words := NO_WORDS;
      if deleted {
        return false, [];
      }
      var left;
      thrown, left := ExecuteCodes(req);
      if thrown {
        return thrown, [];
      }
      thrown, left := ExecuteModes(left);
      if thrown {
        return thrown, [];
      }
      thrown, commands := ExecuteMotion(left);
    }

    /** The beginning of executeBlockImpl: coordinate system, units and non-modal codes. */
    method ExecuteCodes(req: Request) returns (thrown: bool, left: Request)
      requires Wired(Now())
      modifies this
      ensures var s := Going(old(Now()), req, [], false);
              if thrown then Run(hypot, 0, s) == Thrown(Now())
              else Wired(Now()) && Run(hypot, 0, s) == Run(hypot, 2, Going(Now(), left, [], false))
    {
      hide Run, Next, MachineBlock.HandleG10;
      ghost var s := Going(Now(), req, [], false);
      left := req.(coord := None, units := None);
      if req.coord.Some? {
        modal := modal.(coord := req.coord.value);
        memory := memory.(coordsys := req.coord.value as real);
        workOffset := memory.offsets[modal.coord - 1];
      }
      if req.units.Some? {
        modal := modal.(units := req.units.value);
      }
      RunStep(hypot, 0, s);
      FirstStages(hypot, s);
      s := Next(hypot, 0, s);
      assert s == Going(Now(), left, [], false);
      RunStep(hypot, 1, s);
      FirstStages(hypot, s);
      if left.words.nonModal.Some? {
        if words.nonModal.Some? {
          return true, left;
        }
        if left.words.nonModal == Some(G53) {
          words := words.(nonModal := Some(G53));
          left := left.(words := left.words.(nonModal := None));
        } else {
          thrown, left := HandleG10(left);
          if thrown { return; }
        }
      }
      assert Next(hypot, 1, s) == Going(Now(), left, [], false);
      thrown := false;
    }

    /** Path and motion modes, distance modes and rates. */
    method ExecuteModes(req: Request) returns (thrown: bool, left: Request)
      requires Wired(Now())
      modifies this
      ensures var s := Going(old(Now()), req, [], false);
              if thrown then Run(hypot, 2, s) == Thrown(Now())
              else Wired(Now()) && Run(hypot, 2, s) == Run(hypot, 4, Going(Now(), left, [], false))
    {
      hide Run, Next, PathAndMotion, ModesAndRates;
      ghost var s := Going(Now(), req, [], false);
      RunStep(hypot, 2, s);
      ModeStages(hypot, s);
      thrown, left := ExecutePath(req);
      if thrown { return; }
      s := Next(hypot, 2, s);
      RunStep(hypot, 3, s);
      ModeStages(hypot, s);
      thrown, left := ExecuteRates(left);
    }

    method ExecutePath(req: Request) returns (thrown: bool, left: Request)
      modifies this
      ensures MachineBlock.PathAndMotion(old(Now()), req)
           == if thrown then Thrown(Now()) else Going(Now(), left, [], false)
    {
      left := req.(path := None);
      if req.path.Some? {
        modal := modal.(path := req.path.value);
        if modal.path != G64 {
          modal := modal.(pathTolerance := None);
        } else if req.words.p.Some? {
          if req.words.p.value < 0.0 {
            return true, left;
          }
          modal := modal.(pathTolerance := Scaled(req.words.p, LinearScale(unit, modal.units)));
          left := left.(words := left.words.(p := None));
        }
      }
      if req.motion.Some? {
        modal := modal.(motion := req.motion.value);
      }
      left := left.(motion := None);
      thrown := words.nonModal == Some(G53) && modal.motion != G0 && modal.motion != G1;
    }

    method ExecuteRates(req: Request) returns (thrown: bool, left: Request)
      modifies this
      ensures MachineBlock.ModesAndRates(old(Now()), req)
           == if thrown then Thrown(Now()) else Going(Now(), left, [], false)
    {
      left := req;
      if req.distance.Some? {
        modal := modal.(distance := req.distance.value);
      }
      if req.arcDistance.Some? {
        modal := modal.(arcDistance := req.arcDistance.value);
      }
      if req.feedMode.Some? {
        if req.feedMode.value != G94 {
          return true, left;
        }
        modal := modal.(feedMode := req.feedMode.value);
      }
      if req.f.Some? {
        modal := modal.(f := Scaled(req.f, LinearScale(unit, modal.units)));
      }
      if req.s.Some? {
        modal := modal.(s := req.s);
      }
      if req.t.Some? {
        modal := modal.(t := req.t);
      }
      left := left.(distance := None, arcDistance := None, feedMode := None, f := None, s := None, t := None);
      thrown := false;
    }

    method ExecuteSpindle(req: Request) returns (left: Request, commands: seq<Command>)
      modifies this
      ensures MachineBlock.ToolAndSpindle(old(Now()), req) == Going(Now(), left, commands, false)
    {
      commands := [];
      if req.words.toolChange {
        words := words.(toolChange := true);
      }
      if req.spindle.Some? {
        modal := modal.(spindle := req.spindle.value);
        if modal.spindle == M5 {
          commands := commands + [SpindleStop];
        } else if modal.s.Some? && modal.s.value > 0.0 {
          commands := commands + [SpindleStart(if modal.spindle == M3 then CW else CCW, modal.s.value)];
        }
      }
      if req.words.toolChange {
        modal := modal.(spindle := M5);
        commands := commands + [SpindleStop];
      }
      left := req.(spindle := None, words := req.words.(toolChange := false));
    }

    /** The rest: tool change and spindle, tool length, plane and axes,
        the motion, and the check that no word is left over. */
    method ExecuteMotion(req: Request) returns (thrown: bool, commands: seq<Command>)
      requires Wired(Now())
      modifies this
      ensures match Run(hypot, 4, Going(old(Now()), req, [], false))
              case Thrown(m) => thrown && Now() == m
              case Going(m, _, issued, _) => !thrown && Now() == m && commands == issued
    {
      hide Run, SelectCoordinates, NonModalCodes, PathAndMotion, ModesAndRates, ToolAndSpindle, PlaneAndAxes, MotionStage;
      ghost var s := Going(Now(), req, [], false);
      var left;
      left, commands := ExecuteSpindle(req);
      RunStep(hypot, 4, s);
      s := Next(hypot, 4, s);
      assert s == Going(Now(), left, commands, false);
      RunStep(hypot, 5, s);
      if left.toolLength.Some? {
        thrown, left := ApplyToolLength(left, commands);
        if thrown { return; }
      }
      s := Next(hypot, 5, s);
      assert s == Going(Now(), left, commands, false);
      thrown, commands := ExecuteAxes(left, commands);
    }

    method ApplyToolLength(req: Request, ghost commands: seq<Command>) returns (thrown: bool, left: Request)
      requires req.toolLength.Some?
      modifies this`modal, this`words, this`toolOffset
      ensures MachineBlock.ToolLengthOffset(old(Now()), req, commands)
           == if thrown then Thrown(Now()) else Going(Now(), left, commands, false)
    {
      modal := modal.(toolLength := req.toolLength.value);
      left := req.(toolLength := None);
      if modal.toolLength == G49 {
        toolOffset := ORIGIN;
        return false, left;
      }
      var number := 0;
      if req.words.h.Some? {
        words := words.(h := req.words.h);
        number := Truncate(req.words.h.value);
      }
      if number == 0 {
        if modal.t.None? || Truncate(modal.t.value) == 0 {
          return true, left;
        }
        number := Truncate(modal.t.value);
      }
      if number !in tools {
        return true, left;
      }
      toolOffset := tools[number].offset;
      left := left.(words := left.words.(h := None));
      thrown := false;
    }

    method ExecuteAxes(req: Request, issued: seq<Command>) returns (thrown: bool, commands: seq<Command>)
      requires Wired(Now())
      modifies this
      ensures match Run(hypot, 6, Going(old(Now()), req, issued, false))
              case Thrown(m) => thrown && Now() == m
              case Going(m, _, all, _) => !thrown && Now() == m && commands == all
    {
      hide Run, Next, Scaled, Overlay, ScaledAxes, LinearScale;
      ghost var s := Going(Now(), req, issued, false);
      if req.plane.Some? {
        modal := modal.(plane := req.plane.value);
      }
      var w := req.words;
      var scale := LinearScale(unit, modal.units);
      words := words.(
        stop := if w.stop.Some? then w.stop else words.stop,
        axes := Overlay(words.axes, ScaledAxes(w.axes, scale)),
        i := if w.i.Some? then Scaled(w.i, scale) else words.i,
        j := if w.j.Some? then Scaled(w.j, scale) else words.j,
        k := if w.k.Some? then Scaled(w.k, scale) else words.k);
      var moving := AnyAxis(w.axes) || w.i.Some? || w.j.Some? || w.k.Some?;
      var left := req.(plane := None, words := w.(stop := None, axes := NO_AXES, i := None, j := None, k := None));
      RunStep(hypot, 6, s);
      AxesStage(hypot, s);
      s := Next(hypot, 6, s);
      assert s == Going(Now(), left, issued, moving);
      thrown, commands := ExecuteLast(left, issued, moving);
    }

    /** The motion, if any, and the check that no word is left over. */
    method ExecuteLast(left: Request, issued: seq<Command>, moving: bool) returns (thrown: bool, commands: seq<Command>)
      requires Wired(Now())
      modifies this`pos, this`nextCommandId, this`pending
      ensures match Run(hypot, 7, Going(old(Now()), left, issued, moving))
              case Thrown(m) => thrown && Now() == m
              case Going(m, _, all, _) => !thrown && Now() == m && commands == all
    {
      hide Run, Next, Move;
      ghost var s := Going(Now(), left, issued, moving);
      commands := issued;
      RunStep(hypot, 7, s);
      MotionStageMoves(hypot, s);
      if moving {
        var command;
        thrown, command := HandleMotion();
        if thrown {
          return;
        }
        commands := commands + [command];
      }
      s := Next(hypot, 7, s);
      assert s == Going(Now(), left, commands, moving);
      thrown := left != NO_REQUEST;
      LastStage(hypot, s);
    }

    /** A block that throws leaves every field as it was; one that does not
        extends the path from the old position to the new one. */
    method ExecuteBlock(block: Block) returns (thrown: bool, commands: seq<Command>)
      requires Wired(Now())
      modifies this
      ensures MachineBlock.ExecuteBlock(hypot, old(Now()), block)
           == if thrown then Failed(Now()) else Executed(Now(), commands)
      ensures thrown ==> Now() == old(Now())
      ensures !thrown ==> Continuous(old(pos), commands, pos)
    {
      hide ExecuteImpl, Continuous;
      ghost var before := Now();
      BlocksAreAllOrNothing(hypot, before, block);
      BlockContinuous(hypot, before, block);
      commands := [];
      if block.request.None? {
        return true, commands;
      }
      var req := block.request.value;
      var posCheckpoint, workOffsetCheckpoint, toolOffsetCheckpoint := pos, workOffset, toolOffset;
      var modalCheckpoint, wordsCheckpoint := modal, words;
      var physicalToolCheckpoint, idCheckpoint, pendingCheckpoint := physicalTool, nextCommandId, pending;
      var memoryCheckpoint := if SnapshotsMemory(req) then Some(memory) else None;
      var toolsCheckpoint := if SnapshotsTools(req) then Some(tools) else None;
      thrown, commands := ExecuteBlockImpl(req, block.deleted);
      if thrown {
        pos, workOffset, toolOffset := posCheckpoint, workOffsetCheckpoint, toolOffsetCheckpoint;
        modal, words := modalCheckpoint, wordsCheckpoint;
        physicalTool, nextCommandId, pending := physicalToolCheckpoint, idCheckpoint, pendingCheckpoint;
        if memoryCheckpoint.Some? {
          memory := memoryCheckpoint.value;
        }
        if toolsCheckpoint.Some? {
          tools := toolsCheckpoint.value;
        }
      }
    }

    // ----- other operations

    /** Starts from the origin in the system COORDSYS names; a sound machine
        stays sound and is never refused. */
    method BeginProgramRun() returns (thrown: bool)
      requires Wired(Now())
      modifies this
      ensures thrown <==> !(1 <= Truncate(old(memory).coordsys) <= 9)
      ensures old(Sound(Now())) ==> !thrown && Sound(Now()) && modal.coord == old(modal.coord) && pos == ORIGIN
      ensures Begin(old(Now())) == if thrown then Refused(Now()) else Done(Now(), [])
    {
      memory := memory.(program := []);
      pos, workOffset, toolOffset := ORIGIN, ORIGIN, ORIGIN;
      physicalTool, pending := 0, None;
      modal, words := DEFAULT_MODAL, NO_WORDS;
      var number := Truncate(memory.coordsys);
      if !(1 <= number <= 9) {
        return true;
      }
      modal := modal.(coord := number);
      workOffset := memory.offsets[number - 1];
      thrown := false;
    }

    method SetActiveWorkOffset(axis: Axis, value: real)
      requires Wired(Now())
      modifies this
      ensures Now() == SetOffset(old(Now()), axis, value)
      ensures old(Sound(Now())) ==> Sound(Now())
    {
      if Sound(Now()) {
        OperationSound(hypot, Now(), Operation.SetActiveWorkOffset(axis, value));
      }
      var k := modal.coord - 1;
      memory := memory.(offsets := memory.offsets[k := Replace(memory.offsets[k], OnAxis(axis, value))]);
      workOffset := memory.offsets[k];
    }

    /** The machine is coherent again, in the modes of the checkpoint with the
        spindle stopped; position, tools and every stored parameter are untouched. */
    method RestoreToolChangeModalCheckpoint(c: ModalCheckpoint)
      requires Wired(Now())
      modifies this`words, this`modal, this`toolOffset, this`workOffset, this`memory
      ensures Coherent(Now()) && CaptureModal(Now()) == c.(modal := c.modal.(spindle := M5)) && words == NO_WORDS
      ensures memory == old(memory).(coordsys := memory.coordsys)
      ensures Now() == RestoreModes(old(Now()), c)
    {
      words := NO_WORDS;
      modal := c.modal.(spindle := M5);
      toolOffset := c.toolOffset;
      workOffset := memory.offsets[c.modal.coord - 1];
      memory := memory.(coordsys := c.modal.coord as real);
    }

    /** Refuses exactly the invalid checkpoints and then changes nothing;
        otherwise the machine is coherent and its checkpoint is the one given. */
    method RestoreCheckpoint(c: Checkpoint) returns (refused: bool)
      requires Wired(Now())
      modifies this
      ensures refused <==> !CheckpointValid(old(Now()), c)
      ensures refused ==> Now() == old(Now())
      ensures !refused ==>
                && Capture(Now()) == c && Coherent(Now()) && pending.None? && words == NO_WORDS
                && memory == old(memory).(coordsys := c.coordsys, offsets := c.offsets, parameters := c.parameters, program := [])
                && nextCommandId == old(nextCommandId)
      ensures RestoreState(old(Now()), c) == if refused then Refused(Now()) else Done(Now(), [])
    {
      var bank := |c.offsets| == |memory.offsets| && |c.parameters| == |memory.parameters|;
      var valid := forall n | n in c.tools :: ValidTool(n, c.tools[n]);
      if !bank || c.coordsys != c.modal.coord as real || !valid
        || c.physicalTool < 0 || (c.physicalTool != 0 && c.physicalTool !in c.tools)
      {
        return true;
      }
      memory := memory.(coordsys := c.coordsys, offsets := c.offsets, parameters := c.parameters, program := []);
      pos, toolOffset := c.pos, c.toolOffset;
      modal, words := c.modal, NO_WORDS;
      physicalTool, tools := c.physicalTool, c.tools;
      workOffset := memory.offsets[modal.coord - 1];
      pending := None;
      refused := false;
    }

    /** Aborts exactly when no probe with that id is pending. Otherwise the
        machine stands where the probe stopped, and as long as units and offsets
        are the probe's, the probe cells are the program coordinates of the trigger. */
    method AcceptProbeResult(r: ProbeResult) returns (panicked: bool)
      modifies this`memory, this`pos, this`pending
      ensures panicked <==> old(pending.None? || pending.value.id != r.id)
      ensures panicked ==> Now() == old(Now())
      ensures !panicked ==>
                && pos == r.stopped && pending.None? && (memory.probeSuccess == if r.triggered then 1.0 else 0.0)
                && memory == old(memory).(probe := memory.probe, probeSuccess := memory.probeSuccess)
      ensures !panicked && Wired(Now()) && modal.units == old(pending.value.units)
              && toolOffset == old(pending.value.toolOffset)
              && StoredOffset(Now(), modal.coord) == old(pending.value.workOffset) ==>
                AbsoluteTarget(Now(), AllAxes(memory.probe)) == r.trigger
      ensures AcceptProbe(old(Now()), r) == if panicked then Panicked else Done(Now(), [])
    {
      if pending.None? || pending.value.id != r.id {
        return true;
      }
      var p := pending.value;
      var work := r.trigger.Minus(p.workOffset).Minus(p.toolOffset);
      var scale := LinearScale(unit, p.units);
      memory := memory.(
        probe := Vec6(work.x / scale, work.y / scale, work.z / scale, work.a, work.b, work.c),
        probeSuccess := if r.triggered then 1.0 else 0.0);
      pos := r.stopped;
      pending := None;
      panicked := false;
      if Wired(Now()) && modal.units == p.units && toolOffset == p.toolOffset
         && StoredOffset(Now(), modal.coord) == p.workOffset {
        ProbeTarget(Now(), p, r.trigger);
      }
    }
  }
}
