/** Coordinate round trips through whole blocks (src/Machine.cpp). */
module MachineRoundTrips {
  import opened Text
  import opened MachineState
  import opened MachineBlock
  import opened MachineProperties
  import opened MachineOperations

  /** Program coordinate `word` of a machine coordinate, as G90 uses it. */
  function MachineCoordinate(word: Option<real>, current: real, scale: real, offset: real): real {
    match word
    case None => current
    case Some(v) => v * scale + offset
  }

  /** Where a G90 move in the active work coordinates ends. */
  function AbsoluteTarget(m: Machine, axes: AxisWords): Vec6
    requires Wired(m)
  {
    var o := StoredOffset(m, m.modal.coord).Plus(m.toolOffset);
    var scale := Scale(m);
    Vec6(MachineCoordinate(axes.x, m.pos.x, scale, o.x), MachineCoordinate(axes.y, m.pos.y, scale, o.y),
         MachineCoordinate(axes.z, m.pos.z, scale, o.z), MachineCoordinate(axes.a, m.pos.a, 1.0, o.a),
         MachineCoordinate(axes.b, m.pos.b, 1.0, o.b), MachineCoordinate(axes.c, m.pos.c, 1.0, o.c))
  }

  function RapidRequest(axes: AxisWords): Request {
    NO_REQUEST.(motion := Some(G0), distance := Some(G90), words := NO_WORDS.(axes := axes))
  }

  lemma RunUnfolds(hypot: Hypot, k: nat, s: Stage)
    requires s.Going? && Wired(s.m) && k < STAGES
    ensures Wired(Next(hypot, k, s).m)
    ensures Run(hypot, k, s) == Run(hypot, k + 1, Next(hypot, k, s))
  {
    NextStaysWired(hypot, k, s);
  }

  /** A stage with nothing of its own to do passes everything on. */
  lemma IdleStages(hypot: Hypot, s: Stage)
    requires s.Going? && Wired(s.m) && s.commands == [] && !s.moving
    ensures s.req.coord.None? && s.req.units.None? ==> Next(hypot, 0, s) == s
    ensures s.req.words.nonModal.None? ==> Next(hypot, 1, s) == s
    ensures s.req.path.None? && s.req.motion.None? && s.m.words.nonModal.None? ==> Next(hypot, 2, s) == s
    ensures s.req.(distance := None, arcDistance := None, feedMode := None, f := None, s := None, t := None) == s.req
            ==> Next(hypot, 3, s) == s
    ensures s.req.spindle.None? && !s.req.words.toolChange ==> Next(hypot, 4, s) == s
    ensures s.req.toolLength.None? ==> Next(hypot, 5, s) == s
  {}

  /** The motion, then the check that nothing is left. */
  lemma LastStages(hypot: Hypot, m: Machine, req: Request, commands: seq<Command>, moving: bool)
    requires Wired(m)
    ensures var s := Run(hypot, 7, Going(m, req, commands, moving));
            var moved := if moving then Move(hypot, m) else Going(m, req, [], false);
            if moved.Thrown? || req != NO_REQUEST then s.Thrown?
            else s == Going(moved.m, req, commands + moved.commands, moving)
  {
    var s7 := Going(m, req, commands, moving);
    RunUnfolds(hypot, 7, s7);
    var s8 := Next(hypot, 7, s7);
    assert s8 == MotionStage(hypot, m, req, commands, moving);
    hide Move, Next;
    if s8.Going? {
      RunUnfolds(hypot, 8, s8);
      assert Next(hypot, 8, s8) == NothingLeft(s8.m, s8.req, s8.commands, s8.moving) by { LastIsNothingLeft(hypot, s8); }
    }
  }

  lemma LastIsNothingLeft(hypot: Hypot, s: Stage)
    requires s.Going? && Wired(s.m)
    ensures Next(hypot, 8, s) == NothingLeft(s.m, s.req, s.commands, s.moving)
  {}

  /** The machine just before the axis words of a rapid move are read. */
  function ReadyForRapid(m: Machine): Machine
    requires Wired(m)
  {
    Enter(m).(modal := m.modal.(motion := G0, distance := G90))
  }

  lemma RapidReachesAxes(hypot: Hypot, m: Machine, axes: AxisWords)
    requires Wired(m)
    ensures Wired(ReadyForRapid(m))
    ensures Run(hypot, 0, Going(Enter(m), RapidRequest(axes), [], false))
         == Run(hypot, 6, Going(ReadyForRapid(m), NO_REQUEST.(words := NO_WORDS.(axes := axes)), [], false))
  {
    var s0 := Going(Enter(m), RapidRequest(axes), [], false);
    IdleStages(hypot, s0);
    RunUnfolds(hypot, 0, s0);
    RunUnfolds(hypot, 1, s0);
    var s3 := Next(hypot, 2, s0);
    RunUnfolds(hypot, 2, s0);
    assert s3 == Going(Enter(m).(modal := m.modal.(motion := G0)),
                       NO_REQUEST.(distance := Some(G90), words := NO_WORDS.(axes := axes)), [], false);
    var s4 := Next(hypot, 3, s3);
    RunUnfolds(hypot, 3, s3);
    assert s4 == Going(ReadyForRapid(m), NO_REQUEST.(words := NO_WORDS.(axes := axes)), [], false);
    IdleStages(hypot, s4);
    RunUnfolds(hypot, 4, s4);
    RunUnfolds(hypot, 5, s4);
  }

  lemma RapidTarget(m: Machine, axes: AxisWords)
    requires Wired(m)
    ensures var ready := ReadyForRapid(m);
            Target(ready.(words := ready.words.(axes := ScaledAxes(axes, Scale(m))))) == AbsoluteTarget(m, axes)
  {}

  /** A G0 G90 block moves in one straight line to the absolute target and leaves the machine there. */
  lemma RapidMove(hypot: Hypot, m: Machine, axes: AxisWords)
    requires Wired(m) && AnyAxis(axes)
    ensures var r := ExecuteBlock(hypot, m, Block(Some(RapidRequest(axes)), false));
            && r.Executed?
            && r.commands == [MoveLine(m.pos, AbsoluteTarget(m, axes), -1.0, false)]
            && r.m.pos == AbsoluteTarget(m, axes)
  {
    RapidReachesAxes(hypot, m, axes);
    RapidTarget(m, axes);
    var s6 := Going(ReadyForRapid(m), NO_REQUEST.(words := NO_WORDS.(axes := axes)), [], false);
    var s7 := Next(hypot, 6, s6);
    RunUnfolds(hypot, 6, s6);
    assert s7 == Going(s6.m.(words := NO_WORDS.(axes := ScaledAxes(axes, Scale(m)))), NO_REQUEST, [], true);
    var s8 := Next(hypot, 7, s7);
    RunUnfolds(hypot, 7, s7);
    assert s8 == Going(s7.m.(pos := AbsoluteTarget(m, axes)), NO_REQUEST,
                       [] + [MoveLine(m.pos, AbsoluteTarget(m, axes), -1.0, false)], true);
    RunUnfolds(hypot, 8, s8);
    assert Next(hypot, 8, s8) == s8;
  }

  // ----- probing

  function AllAxes(v: Vec6): AxisWords { AxisWords(Some(v.x), Some(v.y), Some(v.z), Some(v.a), Some(v.b), Some(v.c)) }

  lemma DivideThenMultiply(v: real, scale: real)
    requires scale > 0.0
    ensures (v / scale) * scale == v
  {}

  lemma ProbeTarget(later: Machine, p: PendingProbe, trigger: Vec6)
    requires Wired(later) && later.modal.units == p.units && later.toolOffset == p.toolOffset
    requires StoredOffset(later, later.modal.coord) == p.workOffset
    ensures var work := trigger.Minus(p.workOffset).Minus(p.toolOffset);
            var scale := Scale(later);
            var cells := Vec6(work.x / scale, work.y / scale, work.z / scale, work.a, work.b, work.c);
            AbsoluteTarget(later, AllAxes(cells)) == trigger
  {
    var work := trigger.Minus(p.workOffset).Minus(p.toolOffset);
    DivideThenMultiply(work.x, Scale(later));
    DivideThenMultiply(work.y, Scale(later));
    DivideThenMultiply(work.z, Scale(later));
  }

  /** A G90 move to the probe cells lands exactly on the trigger position, as long
      as units, work offset and tool offset are those the probe was made with. */
  lemma ProbeCoordinatesReturnToTrigger(hypot: Hypot, probing: Machine, result: ProbeResult, later: Machine)
    requires probing.pending.Some? && probing.pending.value.id == result.id
    requires AcceptProbe(probing, result).Done?
    requires Wired(later) && later.unit == probing.unit
    requires later.memory.probe == AcceptProbe(probing, result).m.memory.probe
    requires later.modal.units == probing.pending.value.units
    requires StoredOffset(later, later.modal.coord) == probing.pending.value.workOffset
    requires later.toolOffset == probing.pending.value.toolOffset
    ensures var r := ExecuteBlock(hypot, later, Block(Some(RapidRequest(AllAxes(later.memory.probe))), false));
            && r.Executed?
            && r.m.pos == result.trigger
            && r.commands == [MoveLine(later.pos, result.trigger, -1.0, false)]
  {
    RapidMove(hypot, later, AllAxes(later.memory.probe));
    ProbeTarget(later, probing.pending.value, result.trigger);
  }

  // ----- setting a tool offset from the current position

  function SetToolRequest(tool: int, axes: AxisWords): Request {
    NO_REQUEST.(words := NO_WORDS.(nonModal := Some(G10), l := Some(11.0), p := Some(tool as real), axes := axes))
  }

  function UseToolRequest(tool: int): Request {
    NO_REQUEST.(coord := Some(G59_3), toolLength := Some(G43), words := NO_WORDS.(h := Some(tool as real)))
  }

  /** The offset G10 L11 stores. */
  function TouchedOff(m: Machine, offset: Vec6, axes: AxisWords): Vec6
    requires Wired(m)
  {
    TouchOff(m.pos.Minus(StoredOffset(m, G59_3)), ScaledAxes(axes, Scale(m)), offset)
  }

  lemma TouchOffStage(m: Machine, tool: int, axes: AxisWords)
    requires Wired(m) && 1 <= tool <= INT_MAX && tool in m.tools
    ensures var s := NonModalCodes(Enter(m), SetToolRequest(tool, axes));
            && s.Going? && s.req == NO_REQUEST && s.commands == [] && !s.moving
            && s.m == Enter(m).(tools := m.tools[tool := m.tools[tool].(offset := TouchedOff(m, m.tools[tool].offset, axes))],
                                words := s.m.words)
            && s.m.words.nonModal == Some(G10)
  {
    assert Truncate(tool as real) == tool;
  }

  /** From stage 2 on, a block with nothing left changes only its words. */
  lemma NothingLeftToDo(hypot: Hypot, m: Machine)
    requires Wired(m) && m.words.nonModal != Some(G53)
    ensures Run(hypot, 2, Going(m, NO_REQUEST, [], false)) == Going(m, NO_REQUEST, [], false)
  {
    var s := Going(m, NO_REQUEST, [], false);
    IdleStages(hypot, s);
    assert Next(hypot, 2, s) == s;
    RunUnfolds(hypot, 2, s);
    RunUnfolds(hypot, 3, s);
    RunUnfolds(hypot, 4, s);
    RunUnfolds(hypot, 5, s);
    NothingFromPlane(hypot, m);
  }

  lemma NothingFromPlane(hypot: Hypot, m: Machine)
    requires Wired(m)
    ensures Run(hypot, 6, Going(m, NO_REQUEST, [], false)) == Going(m, NO_REQUEST, [], false)
  {
    var s := Going(m, NO_REQUEST, [], false);
    RunUnfolds(hypot, 6, s);
    assert Next(hypot, 6, s) == s;
    LastStages(hypot, m, NO_REQUEST, [], false);
  }

  lemma TouchOffBlock(hypot: Hypot, m: Machine, tool: int, axes: AxisWords)
    requires Wired(m) && 1 <= tool <= INT_MAX && tool in m.tools
    ensures var r := ExecuteBlock(hypot, m, Block(Some(SetToolRequest(tool, axes)), false));
            && r.Executed? && Wired(r.m) && r.commands == []
            && r.m.pos == m.pos && r.m.unit == m.unit && r.m.memory == m.memory && r.m.modal == m.modal
            && r.m.tools == m.tools[tool := m.tools[tool].(offset := TouchedOff(m, m.tools[tool].offset, axes))]
  {
    var s0 := Going(Enter(m), SetToolRequest(tool, axes), [], false);
    IdleStages(hypot, s0);
    RunUnfolds(hypot, 0, s0);
    TouchOffStage(m, tool, axes);
    RunUnfolds(hypot, 1, s0);
    NothingLeftToDo(hypot, Next(hypot, 1, s0).m);
  }

  lemma UseToolBlock(hypot: Hypot, m: Machine, tool: int)
    requires Wired(m) && tool != 0 && tool in m.tools
    ensures var r := ExecuteBlock(hypot, m, Block(Some(UseToolRequest(tool)), false));
            && r.Executed? && Wired(r.m) && r.commands == []
            && r.m.pos == m.pos && r.m.unit == m.unit && r.m.modal.units == m.modal.units
            && r.m.modal.coord == G59_3 && r.m.memory.offsets == m.memory.offsets
            && r.m.toolOffset == m.tools[tool].offset
  {
    assert Truncate(tool as real) == tool;
    var s0 := Going(Enter(m), UseToolRequest(tool), [], false);
    var s1 := Next(hypot, 0, s0);
    RunUnfolds(hypot, 0, s0);
    assert s1.req == NO_REQUEST.(toolLength := Some(G43), words := NO_WORDS.(h := Some(tool as real)));
    IdleStages(hypot, s1);
    RunUnfolds(hypot, 1, s1);
    RunUnfolds(hypot, 2, s1);
    RunUnfolds(hypot, 3, s1);
    RunUnfolds(hypot, 4, s1);
    var s6 := Next(hypot, 5, s1);
    RunUnfolds(hypot, 5, s1);
    assert s6.Going? && s6.req == NO_REQUEST && s6.commands == [] && !s6.moving;
    hide Next, Run;
    NothingFromPlane(hypot, s6.m);
  }

  lemma TouchedOffTarget(m: Machine, used: Machine, offset: Vec6, axes: AxisWords)
    requires Wired(m) && Wired(used) && used.pos == m.pos && used.unit == m.unit
    requires used.modal.units == m.modal.units && used.modal.coord == G59_3
    requires used.memory.offsets == m.memory.offsets && used.toolOffset == TouchedOff(m, offset, axes)
    ensures AbsoluteTarget(used, axes) == m.pos
  {}

  /** Touching off tool `t` at some coordinates, then activating its offset in
      G59.3, makes a G90 move to those coordinates a move that goes nowhere. */
  lemma TouchOffRoundTrip(hypot: Hypot, m: Machine, tool: int, axes: AxisWords)
    requires Wired(m) && 1 <= tool <= INT_MAX && tool in m.tools && AnyAxis(axes)
    ensures var touched := ExecuteBlock(hypot, m, Block(Some(SetToolRequest(tool, axes)), false));
            touched.Executed? && Wired(touched.m)
            && var used := ExecuteBlock(hypot, touched.m, Block(Some(UseToolRequest(tool)), false));
               used.Executed? && Wired(used.m)
               && var moved := ExecuteBlock(hypot, used.m, Block(Some(RapidRequest(axes)), false));
                  && moved.Executed?
                  && moved.m.pos == m.pos
                  && moved.commands == [MoveLine(m.pos, m.pos, -1.0, false)]
  {
    TouchOffBlock(hypot, m, tool, axes);
    var touched := ExecuteBlock(hypot, m, Block(Some(SetToolRequest(tool, axes)), false)).m;
    UseToolBlock(hypot, touched, tool);
    var used := ExecuteBlock(hypot, touched, Block(Some(UseToolRequest(tool)), false)).m;
    RapidMove(hypot, used, axes);
    TouchedOffTarget(m, used, m.tools[tool].offset, axes);
  }

  // ----- a G10 block that still moves

  /** A line, an arc or a probe. */
  predicate Moves(c: Command) { c.MoveLine? || c.MoveArc? || c.ProbeMove? }

  /** The arc centre words I, J and K. */
  predicate HasArcWord(words: Words) { words.i.Some? || words.j.Some? || words.k.Some? }

  /** A word counts from the offset in G90 and from the current coordinate in G91. */
  function Reached(distance: Distance, word: Option<real>, current: real, offset: real): real {
    match word
    case None => current
    case Some(v) => (if distance == G90 then offset else current) + v
  }

  /** Where the axis words of a G10 block send the machine, if anywhere: against
      the offsets and in the distance mode the block itself leaves behind. */
  function G10Target(m: Machine, axes: AxisWords, after: Machine): Vec6 {
    var o := after.workOffset.Plus(after.toolOffset);
    var w, d := ScaledAxes(axes, Scale(after)), after.modal.distance;
    Vec6(Reached(d, w.x, m.pos.x, o.x), Reached(d, w.y, m.pos.y, o.y), Reached(d, w.z, m.pos.z, o.z),
         Reached(d, w.a, m.pos.a, o.a), Reached(d, w.b, m.pos.b, o.b), Reached(d, w.c, m.pos.c, o.c))
  }

  /** Between G10 and the motion: the axis words are consumed but remembered,
      I, J and K still wait, and nothing has moved. */
  ghost predicate Waiting(m: Machine, words: Words, s: Stage) {
    && s.Going? && Wired(s.m) && !s.moving && (forall c | c in s.commands :: !Moves(c))
    && s.req.words.axes == NO_AXES
    && s.req.words.i == words.i && s.req.words.j == words.j && s.req.words.k == words.k
    && s.m.pos == m.pos && s.m.words.nonModal == Some(G10)
    && s.m.words.axes == ScaledAxes(words.axes, Scale(s.m))
  }

  lemma G10Waits(hypot: Hypot, m: Machine, req: Request)
    requires Wired(m) && req.words.nonModal == Some(G10)
    ensures var s1 := SelectCoordinates(Enter(m), req);
            s1.Going? && Wired(s1.m)
            && (NonModalCodes(s1.m, s1.req).Going? ==> Waiting(m, req.words, NonModalCodes(s1.m, s1.req)))
  {
    var s1 := SelectCoordinates(Enter(m), req);
    assert s1.m.words == NO_WORDS && s1.req.words == req.words;
    var s2 := NonModalCodes(s1.m, s1.req);
    if s2.Going? {
      assert Overlay(NO_AXES, ScaledAxes(req.words.axes, Scale(s1.m))) == ScaledAxes(req.words.axes, Scale(s1.m));
      assert s2.m.words.axes == ScaledAxes(req.words.axes, Scale(s1.m));
    }
  }

  lemma ModesWait(hypot: Hypot, k: nat, m: Machine, words: Words, s: Stage)
    requires 2 <= k <= 3 && s.Going? && Waiting(m, words, s) && s.commands == []
    ensures var n := Next(hypot, k, s); n.Going? ==> Waiting(m, words, n) && n.commands == []
  {
    hide LinearScale, ScaledAxes;
  }

  lemma SpindleWaits(hypot: Hypot, m: Machine, words: Words, s: Stage)
    requires s.Going? && Waiting(m, words, s) && s.commands == []
    ensures var n := Next(hypot, 4, s); n.Going? ==> Waiting(m, words, n)
  {
    hide LinearScale, ScaledAxes;
  }

  lemma ToolLengthWaits(hypot: Hypot, m: Machine, words: Words, s: Stage)
    requires s.Going? && Waiting(m, words, s)
    ensures var n := Next(hypot, 5, s); n.Going? ==> Waiting(m, words, n)
  {
    hide LinearScale, ScaledAxes;
  }

  /** The last stages emit exactly one motion if an arc word is there, else none. */
  lemma WaitingEnds(hypot: Hypot, m: Machine, words: Words, s: Stage)
    requires Waiting(m, words, s) && Run(hypot, 6, s).Going?
    ensures var r := Run(hypot, 6, s);
            if HasArcWord(words) then
              && r.commands[..|s.commands|] == s.commands && |r.commands| == |s.commands| + 1
              && Moves(r.commands[|s.commands|]) && r.commands[|s.commands|].from == m.pos
              && r.commands[|s.commands|].to == G10Target(m, words.axes, r.m)
            else r.commands == s.commands
  {
    RunUnfolds(hypot, 6, s);
    var s7 := Next(hypot, 6, s);
    WaitingPlane(hypot, m, words, s);
    LastStages(hypot, s7.m, s7.req, s7.commands, s7.moving);
    hide Next, Run, Waiting;
    if s7.moving { MotionGoesToTarget(hypot, s7.m); }
    hide Move, Target;
    WaitingTarget(m, words, s7.m);
  }

  lemma WaitingPlane(hypot: Hypot, m: Machine, words: Words, s: Stage)
    requires Waiting(m, words, s)
    ensures var s7 := Next(hypot, 6, s);
            && s7.Going? && Wired(s7.m) && s7.moving == HasArcWord(words) && s7.commands == s.commands && s7.m.pos == m.pos
            && s7.m.words.nonModal == Some(G10) && s7.m.words.axes == ScaledAxes(words.axes, Scale(s7.m))
  {
    assert Overlay(s.m.words.axes, ScaledAxes(NO_AXES, Scale(s.m))) == s.m.words.axes;
    assert Next(hypot, 6, s) == PlaneAndAxes(s.m, s.req, s.commands);
    hide Next, Overlay;
  }

  /** A motion that is made is one command from the position to the target. */
  lemma MotionGoesToTarget(hypot: Hypot, m: Machine)
    requires Move(hypot, m).Going?
    ensures var s := Move(hypot, m);
            && |s.commands| == 1 && Moves(s.commands[0]) && s.commands[0].from == m.pos && s.commands[0].to == Target(m)
            && s.m.workOffset == m.workOffset && s.m.toolOffset == m.toolOffset && s.m.modal == m.modal && s.m.unit == m.unit
  {
    hide Target, ArcCenter, ValidArc;
  }

  lemma WaitingTarget(m: Machine, words: Words, m7: Machine)
    requires m7.pos == m.pos && m7.words.nonModal == Some(G10) && m7.words.axes == ScaledAxes(words.axes, Scale(m7))
    ensures Target(m7) == G10Target(m, words.axes, m7)
    ensures forall after: Machine | after.workOffset == m7.workOffset && after.toolOffset == m7.toolOffset
                                    && after.modal == m7.modal && after.unit == m7.unit ::
              G10Target(m, words.axes, after) == G10Target(m, words.axes, m7)
  {}

  /** One motion at the end, to the axis words, if an arc word is there; else none. */
  ghost predicate MovesExactly(m: Machine, words: Words, commands: seq<Command>, after: Machine) {
    && ((exists c | c in commands :: Moves(c)) <==> HasArcWord(words))
    && (HasArcWord(words) ==>
          var n := |commands| - 1;
          && n >= 0 && Moves(commands[n]) && (forall c | c in commands[..n] :: !Moves(c))
          && commands[n].from == m.pos && commands[n].to == G10Target(m, words.axes, after))
  }

  lemma {:induction false} WaitsUntilMotion(hypot: Hypot, m: Machine, words: Words, k: nat, s: Stage)
    requires 2 <= k <= 6 && Waiting(m, words, s) && (k <= 4 ==> s.commands == []) && Run(hypot, k, s).Going?
    ensures MovesExactly(m, words, Run(hypot, k, s).commands, Run(hypot, k, s).m)
    decreases 6 - k
  {
    hide Next;
    if k == 6 {
      hide Waiting, Run;
      WaitingEnds(hypot, m, words, s);
      WaitingIsStill(m, words, s);
    } else {
      RunUnfolds(hypot, k, s);
      if k <= 3 {
        ModesWait(hypot, k, m, words, s);
      } else if k == 4 {
        SpindleWaits(hypot, m, words, s);
      } else {
        ToolLengthWaits(hypot, m, words, s);
      }
      WaitsUntilMotion(hypot, m, words, k + 1, Next(hypot, k, s));
    }
  }

  lemma WaitingIsStill(m: Machine, words: Words, s: Stage)
    requires Waiting(m, words, s)
    ensures forall c | c in s.commands :: !Moves(c)
  {}

  lemma G10Stages(hypot: Hypot, s: Stage)
    requires s.Going? && Wired(s.m)
    ensures Next(hypot, 0, s) == SelectCoordinates(s.m, s.req) && Next(hypot, 1, s) == NonModalCodes(s.m, s.req)
    ensures NonModalCodes(s.m, s.req).Going? ==> NonModalCodes(s.m, s.req).commands == []
  {}

  /** G10 consumes its axis words but leaves I, J and K to set the block in
      motion. For every machine and every G10 block that executes, whatever its
      L, its other words and the modes: it emits a line, an arc or a probe if and
      only if I, J or K is present; then exactly one, at the end, and to the axis
      words it has just stored, read as coordinates. */
  lemma G10WithArcWordMoves(hypot: Hypot, m: Machine, req: Request)
    requires Wired(m) && req.words.nonModal == Some(G10)
    ensures var r := ExecuteBlock(hypot, m, Block(Some(req), false));
            r.Executed? ==> MovesExactly(m, req.words, r.commands, r.m)
  {
    hide Next, NonModalCodes, SelectCoordinates, MovesExactly;
    var s0 := Going(Enter(m), req, [], false);
    G10Waits(hypot, m, req);
    G10Stages(hypot, s0);
    var s1 := Next(hypot, 0, s0);
    G10Stages(hypot, s1);
    RunUnfolds(hypot, 0, s0);
    RunUnfolds(hypot, 1, s1);
    var s2 := Next(hypot, 1, s1);
    if Run(hypot, 2, s2).Going? {
      WaitsUntilMotion(hypot, m, req.words, 2, s2);
    }
  }

  lemma SetOffsetStage(m: Machine, request: Request, x: real)
    requires Wired(m)
    requires request.words.axes == NO_AXES.(x := Some(x)) && request.words.nonModal == Some(G10)
    requires request.words.l == Some(2.0) && request.words.p == Some(1.0)
    ensures var s := NonModalCodes(m.(words := NO_WORDS), request);
            && s.Going? && s.m.modal == m.modal && s.m.pos == m.pos && s.m.toolOffset == m.toolOffset && s.commands == [] && !s.moving
            && s.req == request.(words := request.words.(nonModal := None, l := None, p := None, axes := NO_AXES))
            && s.m.words.nonModal == Some(G10)
            && s.m.words.axes == NO_AXES.(x := Scaled(Some(x), Scale(m)))
  {
    assert Truncate(1.0) == 1;
  }

  /** A concrete block: G10 L2 P1 X with a zero I word makes a rapid move. */
  lemma G10WithZeroIMoves(hypot: Hypot, m: Machine, x: real)
    requires Wired(m) && m.modal.motion == G0 && m.modal.distance == G90
    ensures var words := NO_WORDS.(nonModal := Some(G10), l := Some(2.0), p := Some(1.0), i := Some(0.0),
                                   axes := NO_AXES.(x := Some(x)));
            var r := ExecuteBlock(hypot, m, Block(Some(NO_REQUEST.(words := words)), false));
            && r.Executed? && |r.commands| == 1 && r.commands[0].MoveLine?
            && r.commands[0].to.x == x * Scale(m) + (r.m.workOffset.x + m.toolOffset.x)
  {
    hide Next, Run, NonModalCodes;
    var words := NO_WORDS.(nonModal := Some(G10), l := Some(2.0), p := Some(1.0), i := Some(0.0),
                           axes := NO_AXES.(x := Some(x)));
    var s0 := Going(Enter(m), NO_REQUEST.(words := words), [], false);
    IdleStages(hypot, s0);
    RunUnfolds(hypot, 0, s0);
    SetOffsetStage(Enter(m), s0.req, x);
    var s2 := NonModalCodes(Enter(m), s0.req);
    G10Stages(hypot, s0);
    RunUnfolds(hypot, 1, s0);
    IdleThenMoves(hypot, s2);
  }

  /** With only an I word left, the remaining stages make one rapid line. */
  lemma IdleThenMoves(hypot: Hypot, s: Stage)
    requires s.Going? && Wired(s.m) && s.req == NO_REQUEST.(words := NO_WORDS.(i := Some(0.0)))
    requires s.m.modal.motion == G0 && s.m.words.nonModal == Some(G10) && s.commands == [] && !s.moving
    ensures var r := Run(hypot, 2, s);
            && r.Going? && r.m.workOffset == s.m.workOffset
            && r.commands == [MoveLine(s.m.pos, Target(s.m), -1.0, false)]
  {
    IdleStages(hypot, s);
    assert Next(hypot, 2, s) == s;
    RunUnfolds(hypot, 2, s);
    RunUnfolds(hypot, 3, s);
    RunUnfolds(hypot, 4, s);
    RunUnfolds(hypot, 5, s);
    var s7 := Next(hypot, 6, s);
    RunUnfolds(hypot, 6, s);
    assert s7 == Going(s.m.(words := s.m.words.(i := s7.m.words.i)), NO_REQUEST, [], true);
    assert Target(s7.m) == Target(s.m);
    var s8 := Next(hypot, 7, s7);
    RunUnfolds(hypot, 7, s7);
    assert s8.commands == [] + [MoveLine(s.m.pos, Target(s.m), -1.0, false)];
    RunUnfolds(hypot, 8, s8);
  }
}
