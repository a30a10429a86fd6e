/** What block execution guarantees. */
module MachineProperties {
  import opened Text
  import opened MachineState
  import opened MachineBlock

  // ----- all or nothing

  /** The unguarded parts of the machine are as they were, whatever stage `s` got to. */
  ghost predicate Guarded(m: Machine, req: Request, s: Stage) {
    && s.m.unit == m.unit
    && (!SnapshotsMemory(req) ==> s.m.memory == m.memory)
    && (!SnapshotsTools(req) ==> s.m.tools == m.tools)
  }

  /** Only the first two stages write memory or tools. */
  lemma LaterStagesKeepStores(hypot: Hypot, k: nat, s: Stage)
    requires s.Going? && Wired(s.m) && k >= 2
    ensures var n := Next(hypot, k, s).m;
            n.unit == s.m.unit && n.memory == s.m.memory && n.tools == s.m.tools
  {}

  lemma {:induction false} LaterRunKeepsStores(hypot: Hypot, k: nat, s: Stage)
    requires Wired(s.m) && 2 <= k <= STAGES
    ensures var n := Run(hypot, k, s).m;
            n.unit == s.m.unit && n.memory == s.m.memory && n.tools == s.m.tools
    decreases STAGES - k
  {
    if k < STAGES && s.Going? {
      NextStaysWired(hypot, k, s);
      LaterStagesKeepStores(hypot, k, s);
      LaterRunKeepsStores(hypot, k + 1, Next(hypot, k, s));
    }
  }

  lemma NonModalGuarded(m: Machine, req: Request)
    requires Wired(m)
    ensures var n := NonModalCodes(m, req).m;
            && n.unit == m.unit
            && (req.words.nonModal != Some(G10) ==> n.memory == m.memory)
            && (!SnapshotsTools(req) ==> n.tools == m.tools)
  {}

  lemma ImplGuarded(hypot: Hypot, m: Machine, req: Request, deleted: bool)
    requires Wired(m)
    ensures Guarded(m, req, ExecuteImpl(hypot, m, req, deleted))
  {
    if !deleted {
      var s0 := Going(Enter(m), req, [], false);
      var s1 := Next(hypot, 0, s0);
      NextStaysWired(hypot, 0, s0);
      NonModalGuarded(s1.m, s1.req);
      NextStaysWired(hypot, 1, s1);
      var s2 := Next(hypot, 1, s1);
      LaterRunKeepsStores(hypot, 2, s2);
      assert Run(hypot, 0, s0) == Run(hypot, 1, s1) == Run(hypot, 2, s2);
    }
  }

  /** A block that throws leaves the whole machine as it was, although memory
      and tool table are copied only for some blocks. */
  lemma BlocksAreAllOrNothing(hypot: Hypot, m: Machine, block: Block)
    requires Wired(m)
    ensures ExecuteBlock(hypot, m, block).Failed? ==> ExecuteBlock(hypot, m, block).m == m
  {
    if block.request.Some? {
      ImplGuarded(hypot, m, block.request.value, block.deleted);
    }
  }

  // ----- the offset invariant

  /** The cached work offset is the stored one of the active system, and the
      COORDSYS cell names that system. */
  ghost predicate Coherent(m: Machine) {
    && Wired(m)
    && m.workOffset == StoredOffset(m, m.modal.coord)
    && m.memory.coordsys == m.modal.coord as real
  }

  lemma LaterStagesKeepCoordinates(hypot: Hypot, k: nat, s: Stage)
    requires s.Going? && Wired(s.m) && k >= 2
    ensures var n := Next(hypot, k, s).m;
            n.workOffset == s.m.workOffset && n.modal.coord == s.m.modal.coord
  {}

  lemma SelectCoherent(m: Machine, req: Request)
    requires Coherent(m)
    ensures Coherent(SelectCoordinates(m, req).m)
  {}

  lemma NonModalCoherent(m: Machine, req: Request)
    requires Coherent(m)
    ensures NonModalCodes(m, req).Going? ==> Coherent(NonModalCodes(m, req).m)
  {}

  lemma NextCoherent(hypot: Hypot, k: nat, s: Stage)
    requires s.Going? && Coherent(s.m)
    ensures Next(hypot, k, s).Going? ==> Coherent(Next(hypot, k, s).m)
  {
    if k == 0 {
      SelectCoherent(s.m, s.req);
    } else if k == 1 {
      NonModalCoherent(s.m, s.req);
    } else {
      LaterStagesKeepStores(hypot, k, s);
      LaterStagesKeepCoordinates(hypot, k, s);
    }
  }

  lemma {:induction false} RunCoherent(hypot: Hypot, k: nat, s: Stage)
    requires Coherent(s.m) && k <= STAGES
    ensures Run(hypot, k, s).Going? ==> Coherent(Run(hypot, k, s).m)
    decreases STAGES - k
  {
    if k < STAGES && s.Going? {
      NextCoherent(hypot, k, s);
      NextStaysWired(hypot, k, s);
      if Next(hypot, k, s).Going? {
        RunCoherent(hypot, k + 1, Next(hypot, k, s));
      }
    }
  }

  lemma BlockCoherent(hypot: Hypot, m: Machine, block: Block)
    requires Coherent(m)
    ensures Coherent(ExecuteBlock(hypot, m, block).m)
  {
    BlocksAreAllOrNothing(hypot, m, block);
    if block.request.Some? {
      RunCoherent(hypot, 0, Going(Enter(m), block.request.value, [], false));
    }
  }

  // ----- tools

  predicate ValidTool(number: int, tool: Tool) {
    number == tool.number && number > 0 && tool.diameter >= 0.0
    && '\n' !in tool.comment && '\r' !in tool.comment
  }

  ghost predicate ValidTools(m: Machine) {
    && (forall n | n in m.tools :: ValidTool(n, m.tools[n]))
    && m.physicalTool >= 0
    && (m.physicalTool != 0 ==> m.physicalTool in m.tools)
  }

  lemma SetToolOffsetKeepsTools(m: Machine, req: Request)
    requires Wired(m) && m.words.p.Some? && ValidTools(m)
    ensures ValidTools(SetToolOffset(m, req).m)
  {
    var s := SetToolOffset(m, req);
    if req.words.r.Some? && req.words.r.value >= 0.0 {
      assert 2.0 * req.words.r.value * Scale(m) >= 0.0;
    }
  }

  lemma NonModalKeepsTools(m: Machine, req: Request)
    requires Wired(m) && ValidTools(m)
    ensures ValidTools(NonModalCodes(m, req).m)
  {
    if req.words.l.Some? && req.words.p.Some? {
      var m1 := m.(words := m.words.(l := req.words.l, p := req.words.p));
      SetToolOffsetKeepsTools(m1, req.(words := req.words.(l := None, p := None)));
    }
  }

  lemma LaterStagesKeepPhysicalTool(hypot: Hypot, k: nat, s: Stage)
    requires s.Going? && Wired(s.m)
    ensures Next(hypot, k, s).m.physicalTool == s.m.physicalTool
  {}

  lemma {:induction false} RunKeepsTools(hypot: Hypot, k: nat, s: Stage)
    requires Wired(s.m) && ValidTools(s.m) && k <= STAGES
    ensures ValidTools(Run(hypot, k, s).m)
    decreases STAGES - k
  {
    if k < STAGES && s.Going? {
      NextStaysWired(hypot, k, s);
      LaterStagesKeepPhysicalTool(hypot, k, s);
      if k == 1 {
        NonModalKeepsTools(s.m, s.req);
      } else if k >= 2 {
        LaterStagesKeepStores(hypot, k, s);
      }
      RunKeepsTools(hypot, k + 1, Next(hypot, k, s));
    }
  }

  lemma BlockKeepsTools(hypot: Hypot, m: Machine, block: Block)
    requires Wired(m) && ValidTools(m)
    ensures ValidTools(ExecuteBlock(hypot, m, block).m)
  {
    BlocksAreAllOrNothing(hypot, m, block);
    if block.request.Some? {
      RunKeepsTools(hypot, 0, Going(Enter(m), block.request.value, [], false));
    }
  }

  // ----- continuity of the path

  /** The commands move from `from` to `to` without a gap; a probe reports its
      end later and moves nothing here. */
  ghost predicate Continuous(from: Vec6, commands: seq<Command>, to: Vec6)
    decreases |commands|
  {
    if commands == [] then from == to
    else
      var rest := commands[1..];
      match commands[0]
      case MoveLine(f, t, _, _) => f == from && Continuous(t, rest, to)
      case MoveArc(f, t, _, _, _) => f == from && Continuous(t, rest, to)
      case ProbeMove(_, f, _, _) => f == from && Continuous(from, rest, to)
      case SpindleStop => Continuous(from, rest, to)
      case SpindleStart(_, _) => Continuous(from, rest, to)
  }

  lemma {:induction false} ContinuousConcat(from: Vec6, a: seq<Command>, mid: Vec6, b: seq<Command>, to: Vec6)
    requires Continuous(from, a, mid) && Continuous(mid, b, to)
    ensures Continuous(from, a + b, to)
    decreases |a|
  {
    if a == [] {
      assert a + b == b;
    } else {
      assert (a + b)[1..] == a[1..] + b;
      var start := match a[0]
        case MoveLine(_, t, _, _) => t
        case MoveArc(_, t, _, _, _) => t
        case _ => from;
      ContinuousConcat(start, a[1..], mid, b, to);
    }
  }

  lemma MoveContinuous(hypot: Hypot, m: Machine)
    ensures var s := Move(hypot, m); s.Going? ==> Continuous(m.pos, s.commands, s.m.pos)
  {
    var s := Move(hypot, m);
    if s.Going? {
      assert |s.commands| == 1;
      assert s.commands[1..] == [];
    }
  }

  lemma SpindleContinuous(m: Machine, req: Request)
    ensures var s := ToolAndSpindle(m, req); s.Going? && s.m.pos == m.pos && Continuous(m.pos, s.commands, m.pos)
  {
    var s := ToolAndSpindle(m, req);
    var started := SpindleCommands(m, req.spindle);
    assert Continuous(m.pos, [], m.pos);
    assert Continuous(m.pos, started, m.pos) by {
      if started != [] { assert started[1..] == []; }
    }
    assert Continuous(m.pos, [SpindleStop], m.pos) by { assert [SpindleStop][1..] == []; }
    ContinuousConcat(m.pos, started, m.pos, [SpindleStop], m.pos);
  }

  /** Stages before the spindle emit nothing and stay put; later ones extend the path. */
  ghost predicate Advances(k: nat, from: Vec6, s: Stage) {
    && s.Going?
    && Continuous(from, s.commands, s.m.pos)
    && (k <= 4 ==> s.commands == [] && s.m.pos == from)
  }

  lemma NextAdvances(hypot: Hypot, k: nat, from: Vec6, s: Stage)
    requires Wired(s.m) && Advances(k, from, s) && k < STAGES
    ensures Next(hypot, k, s).Going? ==> Advances(k + 1, from, Next(hypot, k, s))
  {
    var n := Next(hypot, k, s);
    if n.Going? {
      if k <= 3 {
        EarlyStagesStayPut(hypot, k, s);
      } else if k == 4 {
        SpindleContinuous(s.m, s.req);
      } else if k == 7 && s.moving {
        MoveContinuous(hypot, s.m);
        var moved := Move(hypot, s.m);
        ContinuousConcat(from, s.commands, s.m.pos, moved.commands, moved.m.pos);
      }
    }
  }

  lemma EarlyStagesStayPut(hypot: Hypot, k: nat, s: Stage)
    requires s.Going? && Wired(s.m) && k <= 3
    ensures var n := Next(hypot, k, s); n.Going? ==> n.commands == [] && n.m.pos == s.m.pos
  {}

  lemma {:induction false} RunContinuous(hypot: Hypot, k: nat, from: Vec6, s: Stage)
    requires Wired(s.m) && Advances(k, from, s) && k <= STAGES
    ensures var n := Run(hypot, k, s); n.Going? ==> Continuous(from, n.commands, n.m.pos)
    decreases STAGES - k
  {
    if k < STAGES {
      NextStaysWired(hypot, k, s);
      NextAdvances(hypot, k, from, s);
      if Next(hypot, k, s).Going? {
        RunContinuous(hypot, k + 1, from, Next(hypot, k, s));
      }
    }
  }

  /** Every line and arc of a block starts where the machine is and the machine
      ends where the last of them does. */
  lemma BlockContinuous(hypot: Hypot, m: Machine, block: Block)
    requires Wired(m)
    ensures var r := ExecuteBlock(hypot, m, block); r.Executed? ==> Continuous(m.pos, r.commands, r.m.pos)
  {
    if block.request.Some? && !block.deleted {
      RunContinuous(hypot, 0, m.pos, Going(Enter(m), block.request.value, [], false));
    }
  }
}
