/** The stages of `executeBlock` compute exactly what a block means. */
module MachineRefinement {
  import opened Text
  import opened Arithmetic
  import opened MachineState
  import opened MachineBlock
  import opened MachineRoundTrips
  import opened MachineMeaning

  // ----- the machine and the words left, stage by stage

  function Measured(m: Machine, req: Request): AxisWords { ScaledAxes(req.words.axes, Factor(m, req)) }

  /** After the coordinate system, the units and the non-modal code. */
  function Machine2(m: Machine, req: Request): Machine
    requires Wired(m)
  {
    var w := req.words;
    m.(modal := m.modal.(coord := CoordAfter(m, req), units := Chosen(req.units, m.modal.units)),
       memory := MemoryAfter(m, req), workOffset := StoredAfter(m, req, CoordAfter(m, req)), tools := ToolsAfter(m, req),
       words := if IsG10(req) then
                  NO_WORDS.(nonModal := w.nonModal, axes := Measured(m, req), l := w.l, p := w.p,
                            r := if SetsTool(req) then w.r else None)
                else NO_WORDS.(nonModal := w.nonModal))
  }

  function Request2(req: Request): Request {
    var w := req.words;
    req.(coord := None, units := None,
         words := if IsG10(req) then
                    w.(nonModal := None, axes := NO_AXES, l := None, p := None, r := if SetsTool(req) then None else w.r)
                  else w.(nonModal := None))
  }

  lemma UnitsScale(m: Machine, req: Request)
    ensures LinearScale(m.unit, Chosen(req.units, m.modal.units)) == Factor(m, req)
  {}

  lemma ScaledOn(m: Machine, req: Request, axis: Axis)
    ensures Word(Measured(m, req), axis) ==
            match Word(req.words.axes, axis)
            case Some(v) => Some(Measure(m, req, axis, v))
            case None => None
  {
    hide Factor, Word;
    WordOf(Measured(m, req), axis);
    WordOf(req.words.axes, axis);
    ScaledLength(m, req, Word(req.words.axes, axis));
    hide Scaled, Length;
  }

  lemma WordOf(axes: AxisWords, axis: Axis)
    ensures axis == X ==> Word(axes, axis) == axes.x
    ensures axis == Y ==> Word(axes, axis) == axes.y
    ensures axis == Z ==> Word(axes, axis) == axes.z
    ensures axis == A ==> Word(axes, axis) == axes.a
    ensures axis == B ==> Word(axes, axis) == axes.b
    ensures axis == C ==> Word(axes, axis) == axes.c
  {}

  lemma ScaledLength(m: Machine, req: Request, word: Option<real>)
    ensures Scaled(word, Factor(m, req)) ==
            match word
            case Some(v) => Some(Length(m, req, v))
            case None => None
  {
    hide Scaled, Length, Factor;
    if word.Some? {
      ScaledBy(word.value, Factor(m, req));
      LengthBy(m, req, word.value);
    } else {
      NothingScaled(Factor(m, req));
    }
  }

  lemma ScaledBy(v: real, f: real)
    ensures Scaled(Some(v), f) == Some(Product(v, f))
  {
    assert Scaled(Some(v), f).value == Product(v, f);
  }

  lemma NothingScaled(f: real)
    ensures Scaled(None, f) == None
  {}

  lemma LengthBy(m: Machine, req: Request, v: real)
    ensures Length(m, req, v) == Product(v, Factor(m, req))
  {
    hide Factor;
  }

  lemma SamePoint(v: Vec6, w: Vec6)
    requires forall axis :: Coordinate(v, axis) == Coordinate(w, axis)
    ensures v == w
  {
    assert Coordinate(v, X) == Coordinate(w, X) && Coordinate(v, Y) == Coordinate(w, Y) && Coordinate(v, Z) == Coordinate(w, Z);
    assert Coordinate(v, A) == Coordinate(w, A) && Coordinate(v, B) == Coordinate(w, B) && Coordinate(v, C) == Coordinate(w, C);
  }

  lemma PointOn(on: Axis -> real, axis: Axis)
    ensures Coordinate(Point(on), axis) == on(axis)
  {}

  lemma StoredUnchanged(m: Machine, req: Request)
    requires Wired(m) && !SetsOffset(req)
    ensures MemoryAfter(m, req).offsets == m.memory.offsets
    ensures StoredAfter(m, req, CoordAfter(m, req)) == m.memory.offsets[CoordAfter(m, req) - 1]
  {
    forall system: Coord
      ensures StoredAfter(m, req, system) == m.memory.offsets[system - 1]
    {
      SamePoint(StoredAfter(m, req, system), m.memory.offsets[system - 1]);
    }
  }

  lemma ToolsUnchanged(m: Machine, req: Request)
    requires Wired(m) && !SetsTool(req)
    ensures ToolsAfter(m, req) == m.tools
  {
    forall number | number in m.tools
      ensures ToolsAfter(m, req)[number] == m.tools[number]
    {
      SamePoint(ToolOffsetAfter(m, req, number), m.tools[number].offset);
    }
  }

  /** The machine once the coordinate system and the units are selected. */
  function Selected(m: Machine, req: Request): Machine
    requires Wired(m)
  {
    Enter(m).(
      modal := m.modal.(coord := CoordAfter(m, req), units := Chosen(req.units, m.modal.units)),
      memory := m.memory.(coordsys := match req.coord case Some(system) => system as real case None => m.memory.coordsys),
      workOffset := StoredOffset(m, CoordAfter(m, req)))
  }

  lemma SelectedIs(m: Machine, req: Request)
    requires Wired(m)
    ensures SelectCoordinates(Enter(m), req) == Going(Selected(m, req), req.(coord := None, units := None), [], false)
    ensures Scale(Selected(m, req)) == Factor(m, req)
  {
    UnitsScale(m, req);
  }

  lemma OffsetIsSet(m: Machine, req: Request)
    requires Wired(m) && SetsOffset(req) && Names(req.words.p, 1, 9)
    ensures var system: Coord := req.words.p.value.Floor;
            && MemoryAfter(m, req).offsets
               == m.memory.offsets[system - 1 := Replace(m.memory.offsets[system - 1], Measured(m, req))]
            && StoredAfter(m, req, CoordAfter(m, req)) == MemoryAfter(m, req).offsets[CoordAfter(m, req) - 1]
  {
    var system: Coord := req.words.p.value.Floor;
    forall other: Coord
      ensures StoredAfter(m, req, other) ==
              if other == system then Replace(m.memory.offsets[system - 1], Measured(m, req)) else m.memory.offsets[other - 1]
    {
      var v := StoredAfter(m, req, other);
      forall axis ensures Coordinate(v, axis) ==
        if other == system then Coordinate(Replace(m.memory.offsets[system - 1], Measured(m, req)), axis)
        else Coordinate(m.memory.offsets[other - 1], axis)
      {
        ScaledOn(m, req, axis);
        PointOn((axis: Axis) => StoredOn(m, req, other, axis), axis);
      }
      SamePoint(v, if other == system then Replace(m.memory.offsets[system - 1], Measured(m, req)) else m.memory.offsets[other - 1]);
    }
  }

  lemma SetsOffsetStage(m: Machine, req: Request)
    requires Wired(m) && SetsOffset(req)
    ensures var s := NonModalCodes(Selected(m, req), req.(coord := None, units := None));
            if Names(req.words.p, 1, 9) then s == Going(Machine2(m, req), Request2(req), [], false) else s.Thrown?
  {
    SelectedIs(m, req);
    if Names(req.words.p, 1, 9) {
      OffsetIsSet(m, req);
      ToolsUnchanged(m, req);
      assert Truncate(req.words.p.value) == req.words.p.value.Floor;
      assert Overlay(NO_AXES, Measured(m, req)) == Measured(m, req);
      hide ToolsAfter, ScaledAxes, Replace, Overlay, Factor, Truncate;
      var s := NonModalCodes(Selected(m, req), req.(coord := None, units := None));
      assert s.Going?;
      assert s.m.memory == MemoryAfter(m, req);
      assert s.m.words == Machine2(m, req).words;
      assert s.req == Request2(req);
    }
  }

  lemma ToolIsSet(m: Machine, req: Request, number: int)
    requires Wired(m) && SetsTool(req) && req.words.p == Some(number as real) && number in m.tools
    ensures var tool := m.tools[number];
            var offset := TouchOff(m.pos.Minus(m.memory.offsets[8]), Measured(m, req), tool.offset);
            ToolsAfter(m, req) == m.tools[number := tool.(offset := offset, diameter := DiameterAfter(m, req, number))]
  {
    var tool := m.tools[number];
    var offset := TouchOff(m.pos.Minus(m.memory.offsets[8]), Measured(m, req), tool.offset);
    forall other | other in m.tools
      ensures ToolOffsetAfter(m, req, other) == if other == number then offset else m.tools[other].offset
    {
      var v := ToolOffsetAfter(m, req, other);
      forall axis ensures Coordinate(v, axis) ==
                          if other == number then Coordinate(offset, axis) else Coordinate(m.tools[other].offset, axis)
      {
        ScaledOn(m, req, axis);
        PointOn((axis: Axis) => ToolOn(m, req, other, axis), axis);
      }
      SamePoint(v, if other == number then offset else m.tools[other].offset);
    }
  }

  /** G10 L11 with what it needs, just before it looks at the radius. */
  lemma SetsToolStage(m: Machine, req: Request)
    requires Wired(m) && SetsTool(req)
    ensures var s := NonModalCodes(Selected(m, req), req.(coord := None, units := None));
            if G10Permitted(m, req) then s == Going(Machine2(m, req), Request2(req), [], false) else s.Thrown?
  {
    var before, left := Selected(m, req), req.(coord := None, units := None);
    var m1 := before.(words := before.words.(l := req.words.l, p := req.words.p));
    var req1 := left.(words := left.words.(l := None, p := None));
    SelectedIs(m, req);
    assert NonModalCodes(before, left) == if req.words.p.None? then Thrown(before) else SetToolOffset(m1, req1);
    if req.words.p.Some? {
      hide NonModalCodes, HandleG10;
      assert Truncate(req.words.p.value) as real == req.words.p.value ==> Truncate(req.words.p.value) == req.words.p.value.Floor;
      assert StoredOffset(m1, G59_3) == m.memory.offsets[8] && m1.pos == m.pos && m1.tools == m.tools;
      assert Scale(m1) == Factor(m, req);
      if G10Permitted(m, req) {
        ToolIsSet(m, req, req.words.p.value.Floor);
        StoredUnchanged(m, req);
        assert Overlay(NO_AXES, Measured(m, req)) == Measured(m, req);
        SetsToolGoes(m, req, m1, req1);
      } else {
        hide Factor, Truncate, ToolsAfter, ScaledAxes, TouchOff, Overlay;
      }
    }
  }

  lemma SetsToolGoes(m: Machine, req: Request, m1: Machine, req1: Request)
    requires Wired(m) && SetsTool(req) && G10Permitted(m, req) && Wired(m1)
    requires m1 == Selected(m, req).(words := NO_WORDS.(l := req.words.l, p := req.words.p))
    requires req1 == req.(coord := None, units := None, words := req.words.(l := None, p := None))
    requires Truncate(req.words.p.value) == req.words.p.value.Floor
    requires StoredOffset(m1, G59_3) == m.memory.offsets[8] && Scale(m1) == Factor(m, req)
    requires ToolsAfter(m, req) ==
             var number := req.words.p.value.Floor;
             var tool := m.tools[number];
             var offset := TouchOff(m.pos.Minus(m.memory.offsets[8]), Measured(m, req), tool.offset);
             m.tools[number := tool.(offset := offset, diameter := DiameterAfter(m, req, number))]
    requires Overlay(NO_AXES, Measured(m, req)) == Measured(m, req)
    requires MemoryAfter(m, req).offsets == m.memory.offsets
    requires StoredAfter(m, req, CoordAfter(m, req)) == m.memory.offsets[CoordAfter(m, req) - 1]
    ensures SetToolOffset(m1, req1) == Going(Machine2(m, req), Request2(req), [], false)
  {
    hide Truncate, ToolsAfter, ScaledAxes, TouchOff, Overlay, Factor, StoredAfter, Scale;
    var s := SetToolOffset(m1, req1);
    assert s.Going?;
    var number := req.words.p.value.Floor;
    if req.words.r.Some? {
      assert 2.0 * req.words.r.value * Scale(m1) == DiameterAfter(m, req, number);
    } else {
      assert DiameterAfter(m, req, number) == m.tools[number].diameter;
    }
    assert s.m.tools == ToolsAfter(m, req);
    assert s.req == Request2(req);
  }

  lemma FirstStages(hypot: Hypot, m: Machine, req: Request)
    requires Wired(m)
    ensures var s := Run(hypot, 0, Going(Enter(m), req, [], false));
            if IsG10(req) && !G10Permitted(m, req) then s.Thrown?
            else Wired(Machine2(m, req)) && s == Run(hypot, 2, Going(Machine2(m, req), Request2(req), [], false))
  {
    hide SelectCoordinates, NonModalCodes, G10Permitted, Machine2, Request2, Next, Selected;
    var s0 := Going(Enter(m), req, [], false);
    SelectedIs(m, req);
    G10Stages(hypot, s0);
    RunUnfolds(hypot, 0, s0);
    var s1 := Next(hypot, 0, s0);
    G10Stages(hypot, s1);
    RunUnfolds(hypot, 1, s1);
    NonModalStage(m, req);
  }

  lemma NonModalStage(m: Machine, req: Request)
    requires Wired(m)
    ensures var s := NonModalCodes(Selected(m, req), req.(coord := None, units := None));
            if IsG10(req) && !G10Permitted(m, req) then s.Thrown?
            else Wired(Machine2(m, req)) && s == Going(Machine2(m, req), Request2(req), [], false)
  {
    if SetsOffset(req) {
      SetsOffsetStage(m, req);
    } else if SetsTool(req) {
      SetsToolStage(m, req);
    } else {
      StoredUnchanged(m, req);
      ToolsUnchanged(m, req);
    }
  }

  // ----- modes and rates

  /** Everything about the modes the block decides but the plane, the tool length mode and the spindle. */
  function Machine4(m: Machine, req: Request): Machine
    requires Wired(m)
  {
    Machine2(m, req).(modal := ModalAfter(m, req).(
      plane := m.modal.plane, toolLength := m.modal.toolLength, spindle := m.modal.spindle))
  }

  function Request4(req: Request): Request {
    var left := Request2(req);
    left.(path := None, motion := None, distance := None, arcDistance := None, feedMode := None,
          f := None, s := None, t := None,
          words := left.words.(p := if req.path == Some(G64) then None else left.words.p))
  }

  predicate ModesPermitted(m: Machine, req: Request) {
    && (req.path == Some(G64) && !IsG10(req) && req.words.p.Some? ==> req.words.p.value >= 0.0)
    && (req.words.nonModal == Some(G53) ==> MotionAfter(m, req) == G0 || MotionAfter(m, req) == G1)
    && req.feedMode != Some(G93)
  }

  lemma Machine2Scale(m: Machine, req: Request)
    requires Wired(m)
    ensures Scale(Machine2(m, req)) == Factor(m, req)
  {
    UnitsScale(m, req);
    hide Factor, LinearScale, MemoryAfter, ToolsAfter, StoredAfter;
  }

  function Modal3(m: Machine, req: Request): Modal {
    m.modal.(coord := CoordAfter(m, req), units := Chosen(req.units, m.modal.units), motion := MotionAfter(m, req),
             path := Chosen(req.path, m.modal.path), pathTolerance := ToleranceAfter(m, req))
  }

  lemma PathStage(m: Machine, req: Request)
    requires Wired(m)
    ensures var s := PathAndMotion(Machine2(m, req), Request2(req));
            var left := Request2(req);
            if req.path == Some(G64) && !IsG10(req) && req.words.p.Some? && req.words.p.value < 0.0 then s.Thrown?
            else if req.words.nonModal == Some(G53) && MotionAfter(m, req) != G0 && MotionAfter(m, req) != G1 then s.Thrown?
            else s == Going(Machine2(m, req).(modal := Modal3(m, req)),
                            left.(path := None, motion := None,
                                  words := left.words.(p := if req.path == Some(G64) then None else left.words.p)),
                            [], false)
  {
    Machine2Scale(m, req);
    if req.words.p.Some? { ScaledLength(m, req, req.words.p); }
    hide Factor, LinearScale, MemoryAfter, ToolsAfter, StoredAfter, Scale, Scaled, Length, ScaledAxes;
  }

  lemma RatesStage(m: Machine, req: Request, left: Request)
    requires Wired(m) && left.distance == req.distance && left.arcDistance == req.arcDistance
    requires left.feedMode == req.feedMode && left.f == req.f && left.s == req.s && left.t == req.t
    ensures var s := ModesAndRates(Machine2(m, req).(modal := Modal3(m, req)), left);
            if req.feedMode == Some(G93) then s.Thrown?
            else s == Going(Machine4(m, req),
                            left.(distance := None, arcDistance := None, feedMode := None, f := None, s := None, t := None),
                            [], false)
  {
    Machine2Scale(m, req);
    var m3 := Machine2(m, req).(modal := Modal3(m, req));
    assert Scale(m3) == Scale(Machine2(m, req));
    ScaledLength(m, req, req.f);
    hide Factor, LinearScale, MemoryAfter, ToolsAfter, StoredAfter, Scale, Scaled, Length, ScaledAxes, ToleranceAfter;
  }

  /** Stages 2 and 3. */
  lemma ModeStages(hypot: Hypot, m: Machine, req: Request)
    requires Wired(m) && Wired(Machine2(m, req))
    ensures Wired(Machine4(m, req))
    ensures var s := Run(hypot, 2, Going(Machine2(m, req), Request2(req), [], false));
            if !ModesPermitted(m, req) then s.Thrown?
            else s == Run(hypot, 4, Going(Machine4(m, req), Request4(req), [], false))
  {
    var s2 := Going(Machine2(m, req), Request2(req), [], false);
    var s3 := Next(hypot, 2, s2);
    assert s3 == PathAndMotion(s2.m, s2.req);
    PathStage(m, req);
    RunUnfolds(hypot, 2, s2);
    hide PathAndMotion, ModesAndRates, Machine2, Modal3, Machine4, CoordAfter, MotionAfter;
    if s3.Going? {
      RatesStage(m, req, s3.req);
      RunUnfolds(hypot, 3, s3);
      assert Next(hypot, 3, s3) == ModesAndRates(s3.m, s3.req);
    }
  }

  // ----- spindle, tool, plane and axes

  function Machine5(m: Machine, req: Request): Machine
    requires Wired(m)
  {
    var before := Machine4(m, req);
    before.(modal := before.modal.(spindle := ModalAfter(m, req).spindle),
            words := before.words.(toolChange := req.words.toolChange))
  }

  function Commands5(m: Machine, req: Request): seq<Command> {
    SpindleIssued(m, req) + if req.words.toolChange then [SpindleStop] else []
  }

  function Request5(req: Request): Request {
    Request4(req).(spindle := None, words := Request4(req).words.(toolChange := false))
  }

  lemma SpindleStage(m: Machine, req: Request)
    requires Wired(m)
    ensures ToolAndSpindle(Machine4(m, req), Request4(req)) == Going(Machine5(m, req), Request5(req), Commands5(m, req), false)
  {
    var m4, req4 := Machine4(m, req), Request4(req);
    assert m4.modal.s == Chosen2(req.s, m.modal.s) && m4.words.toolChange == false && m4.modal.spindle == m.modal.spindle;
    assert req4.spindle == req.spindle && req4.words.toolChange == req.words.toolChange;
    assert SpindleCommands(m4, req.spindle) == SpindleIssued(m, req);
    hide SpindleCommands, SpindleIssued, Machine4, Request4, MotionAfter, FeedAfter, ToleranceAfter, CoordAfter;
  }

  function Machine6(m: Machine, req: Request): Machine
    requires Wired(m)
  {
    var before := Machine5(m, req);
    before.(modal := before.modal.(toolLength := Chosen(req.toolLength, m.modal.toolLength)),
            toolOffset := Point((axis: Axis) => ToolOffsetOn(m, req, axis)),
            words := before.words.(h := if req.toolLength == Some(G43) then req.words.h else None))
  }

  function Request6(req: Request): Request {
    var before := Request5(req);
    before.(toolLength := None,
            words := before.words.(h := if req.toolLength == Some(G43) then None else req.words.h))
  }

  predicate ToolPermitted(m: Machine, req: Request) {
    req.toolLength == Some(G43) ==> SelectedTool(m, req) != 0 && SelectedTool(m, req) in m.tools
  }

  lemma ToolOffsetIs(m: Machine, req: Request)
    requires Wired(m) && ToolPermitted(m, req)
    ensures Point((axis: Axis) => ToolOffsetOn(m, req, axis)) ==
            match req.toolLength
            case None => m.toolOffset
            case Some(mode) => if mode == G43 then ToolOffsetAfter(m, req, SelectedTool(m, req)) else ORIGIN
  {
    hide SelectedTool, ToolOn, Truncate;
    var v := Point((axis: Axis) => ToolOffsetOn(m, req, axis));
    if req.toolLength.None? {
      SamePoint(v, m.toolOffset);
    } else if req.toolLength == Some(G43) {
      SamePoint(v, ToolOffsetAfter(m, req, SelectedTool(m, req)));
    } else {
      SamePoint(v, ORIGIN);
    }
  }

  lemma ToolIsSelected(m: Machine, req: Request)
    requires Wired(m)
    ensures OffsetTool(Machine5(m, req), req.words.h) ==
            if SelectedTool(m, req) == 0 then None else Some(SelectedTool(m, req))
  {
    assert Machine5(m, req).modal.t == Chosen2(req.t, m.modal.t);
    hide Machine5, Truncate;
  }

  lemma ToolsKeep(m: Machine, req: Request)
    requires Wired(m)
    ensures Machine5(m, req).tools.Keys == m.tools.Keys
    ensures forall number | number in m.tools :: Machine5(m, req).tools[number].offset == ToolOffsetAfter(m, req, number)
    ensures Machine5(m, req).modal.toolLength == m.modal.toolLength
    ensures Machine5(m, req).toolOffset == m.toolOffset && Machine5(m, req).words.h == None
    ensures Request5(req).toolLength == req.toolLength && Request5(req).words.h == req.words.h
  {
    hide ToolOffsetAfter, DiameterAfter, ModalAfter, MemoryAfter, StoredAfter;
  }

  lemma ToolStage(m: Machine, req: Request)
    requires Wired(m)
    ensures var s := ToolLengthOffset(Machine5(m, req), Request5(req), Commands5(m, req));
            if !ToolPermitted(m, req) then s.Thrown?
            else s == Going(Machine6(m, req), Request6(req), Commands5(m, req), false)
  {
    ToolIsSelected(m, req);
    ToolsKeep(m, req);
    var m1 := Machine5(m, req).(modal := Machine5(m, req).modal.(toolLength := Chosen(req.toolLength, m.modal.toolLength)));
    assert OffsetTool(m1, req.words.h) == OffsetTool(Machine5(m, req), req.words.h);
    if ToolPermitted(m, req) { ToolOffsetIs(m, req); }
    hide Machine5, Request5, SelectedTool, OffsetTool, ToolOffsetAfter, ToolOffsetOn, Truncate, Commands5;
    assert Request6(req) == Request5(req).(toolLength := None, words := Request6(req).words);
  }

  /** Ready to move: all of the outcome but the motion itself. */
  function Machine7(m: Machine, req: Request): Machine
    requires Wired(m)
  {
    var before := Machine6(m, req);
    before.(modal := ModalAfter(m, req),
            words := before.words.(stop := req.words.stop, axes := Measured(m, req),
                                   i := Scaled(req.words.i, Factor(m, req)), j := Scaled(req.words.j, Factor(m, req)),
                                   k := Scaled(req.words.k, Factor(m, req))))
  }

  /** The words no stage consumes. */
  function Request7(req: Request): Request { NO_REQUEST.(words := Request7Words(req)) }

  function Request7Words(req: Request): Words {
    var w := req.words;
    NO_WORDS.(
      d := w.d, q := w.q, h := if req.toolLength == Some(G43) then None else w.h,
      l := if IsG10(req) then None else w.l, p := if IsG10(req) || req.path == Some(G64) then None else w.p,
      r := if SetsTool(req) then None else w.r)
  }

  lemma Machine6Keeps(m: Machine, req: Request)
    requires Wired(m)
    ensures var m6 := Machine6(m, req);
            && Scale(m6) == Factor(m, req) && m6.modal.plane == m.modal.plane
            && m6.modal == ModalAfter(m, req).(plane := m.modal.plane)
            && m6.words.axes == (if IsG10(req) then Measured(m, req) else NO_AXES)
            && m6.words.stop.None? && m6.words.i.None? && m6.words.j.None? && m6.words.k.None?
  {
    UnitsScale(m, req);
    hide Factor, ToleranceAfter, FeedAfter, LinearScale, MemoryAfter, ToolsAfter, StoredAfter, ToolOffsetOn, ScaledAxes;
  }

  lemma Request6Keeps(req: Request)
    ensures var r6 := Request6(req);
            && r6.plane == req.plane && r6.words.stop == req.words.stop
            && r6.words.axes == (if IsG10(req) then NO_AXES else req.words.axes)
            && r6.words.i == req.words.i && r6.words.j == req.words.j && r6.words.k == req.words.k
            && Request7(req) == r6.(plane := None,
                                    words := r6.words.(stop := None, axes := NO_AXES, i := None, j := None, k := None))
  {}

  lemma PlaneStage(m: Machine, req: Request, commands: seq<Command>)
    requires Wired(m)
    ensures PlaneAndAxes(Machine6(m, req), Request6(req), commands)
         == Going(Machine7(m, req), Request7(req), commands, Moving(req))
  {
    Machine6Keeps(m, req);
    Request6Keeps(req);
    assert Overlay(Measured(m, req), ScaledAxes(NO_AXES, Factor(m, req))) == Measured(m, req);
    assert Overlay(NO_AXES, Measured(m, req)) == Measured(m, req);
    hide Machine6, Request6, Request7, Factor, Scaled, Scale, Overlay, ToleranceAfter, FeedAfter, MotionAfter, CoordAfter;
    assert ScaledAxes(req.words.axes, Factor(m, req)) == Measured(m, req);
    hide ScaledAxes;
  }

  /** Stages 4, 5 and 6. */
  lemma OffsetStages(hypot: Hypot, m: Machine, req: Request)
    requires Wired(m) && Wired(Machine4(m, req))
    ensures Wired(Machine7(m, req))
    ensures var s := Run(hypot, 4, Going(Machine4(m, req), Request4(req), [], false));
            if !ToolPermitted(m, req) then s.Thrown?
            else s == Run(hypot, 7, Going(Machine7(m, req), Request7(req), Commands5(m, req), Moving(req)))
  {
    var s4 := Going(Machine4(m, req), Request4(req), [], false);
    var s5 := Next(hypot, 4, s4);
    assert s5 == ToolAndSpindle(s4.m, s4.req);
    SpindleStage(m, req);
    RunUnfolds(hypot, 4, s4);
    var s6 := Next(hypot, 5, s5);
    assert s6 == ToolLengthOffset(s5.m, s5.req, s5.commands);
    ToolStage(m, req);
    RunUnfolds(hypot, 5, s5);
    hide ToolAndSpindle, ToolLengthOffset, PlaneAndAxes, Machine4, Machine5, Machine6, Request4, Request5, Request6, ToolPermitted,
      Commands5, Moving;
    if s6.Going? {
      assert Next(hypot, 6, s6) == PlaneAndAxes(s6.m, s6.req, s6.commands);
      PlaneStage(m, req, s6.commands);
      RunUnfolds(hypot, 6, s6);
    }
  }

  // ----- motion

  /** What the geometry of a motion depends on. */
  lemma Machine7Keeps(m: Machine, req: Request)
    requires Wired(m)
    ensures var m7 := Machine7(m, req);
            && m7.unit == m.unit && m7.pos == m.pos && m7.modal == ModalAfter(m, req)
            && m7.workOffset == StoredAfter(m, req, CoordAfter(m, req))
            && m7.toolOffset == Point((axis: Axis) => ToolOffsetOn(m, req, axis))
            && m7.words.nonModal == req.words.nonModal && m7.words.axes == Measured(m, req)
            && m7.words.i == Scaled(req.words.i, Factor(m, req)) && m7.words.j == Scaled(req.words.j, Factor(m, req))
            && m7.words.k == Scaled(req.words.k, Factor(m, req))
            && m7.nextCommandId == m.nextCommandId && m7.pending == m.pending && m7.physicalTool == m.physicalTool
            && m7.memory == MemoryAfter(m, req) && m7.tools == ToolsAfter(m, req)
  {
    hide Factor, ToleranceAfter, FeedAfter, LinearScale, MemoryAfter, ToolsAfter, StoredAfter, ToolOffsetOn, ScaledAxes;
  }

  lemma ActiveOffsetOn(m: Machine, req: Request, axis: Axis)
    requires Wired(m)
    ensures Coordinate(ActiveOffset(Machine7(m, req)), axis) == OffsetOn(m, req, axis)
  {
    Machine7Keeps(m, req);
    hide Machine7, StoredOn, ToolOffsetOn;
  }

  lemma TargetOn(m: Machine, req: Request, axis: Axis)
    requires Wired(m)
    ensures Coordinate(Target(Machine7(m, req)), axis) == GoalOn(m, req, axis)
  {
    Machine7Keeps(m, req);
    ActiveOffsetOn(m, req, axis);
    ScaledOn(m, req, axis);
    hide Machine7, ActiveOffset, OffsetOn, Measured, Measure, MotionAfter, FeedAfter, ToleranceAfter, CoordAfter;
  }

  lemma TargetIs(m: Machine, req: Request)
    requires Wired(m)
    ensures Target(Machine7(m, req)) == Goal(m, req)
  {
    var m7 := Machine7(m, req);
    forall axis ensures Coordinate(Target(m7), axis) == GoalOn(m, req, axis) {
      TargetOn(m, req, axis);
    }
    hide Target, Machine7;
    forall axis ensures Coordinate(Goal(m, req), axis) == GoalOn(m, req, axis) {
      PointOn((axis: Axis) => GoalOn(m, req, axis), axis);
    }
    SamePoint(Target(m7), Goal(m, req));
  }

  lemma CenterCoordinateIs(m: Machine, req: Request, axis: Axis, word: Option<real>)
    requires Wired(m) && axis != Normal(Chosen(req.plane, m.modal.plane)) && word == ArcWord(req.words, axis)
    ensures var m7 := Machine7(m, req);
            CenterCoordinate(m7, Scaled(word, Factor(m, req)), Coordinate(m.pos, axis), Coordinate(ActiveOffset(m7), axis))
            == CenterOn(m, req, axis)
  {
    Machine7Keeps(m, req);
    ActiveOffsetOn(m, req, axis);
    ScaledLength(m, req, word);
    hide Machine7, ActiveOffset, OffsetOn, Scaled, Length, Factor, ToleranceAfter, FeedAfter, MotionAfter, CoordAfter;
  }

  /** Some word of the arc lies in its plane. */
  predicate HasPlaneWord(m: Machine, req: Request) {
    exists axis | axis in {X, Y, Z} :: axis != Normal(Chosen(req.plane, m.modal.plane)) && ArcWord(req.words, axis).Some?
  }

  lemma CenterIs(m: Machine, req: Request)
    requires Wired(m)
    ensures ArcCenter(Machine7(m, req)) == if HasPlaneWord(m, req) then Some(Center(m, req)) else None
  {
    var m7 := Machine7(m, req);
    var plane := Chosen(req.plane, m.modal.plane);
    Machine7Keeps(m, req);
    if plane != G19 { CenterCoordinateIs(m, req, X, req.words.i); }
    if plane != G18 { CenterCoordinateIs(m, req, Y, req.words.j); }
    if plane != G17 { CenterCoordinateIs(m, req, Z, req.words.k); }
    assert HasPlaneWord(m, req) <==>
      match plane
      case G17 => req.words.i.Some? || req.words.j.Some?
      case G18 => req.words.i.Some? || req.words.k.Some?
      case G19 => req.words.j.Some? || req.words.k.Some? by
    {
      assert X in {X, Y, Z} && Y in {X, Y, Z} && Z in {X, Y, Z};
      assert ArcWord(req.words, X) == req.words.i && ArcWord(req.words, Y) == req.words.j && ArcWord(req.words, Z) == req.words.k;
    }
    assert Center(m, req) == Vec3(CenterOn(m, req, X), CenterOn(m, req, Y), CenterOn(m, req, Z));
    var o := ActiveOffset(m7);
    hide Machine7, ActiveOffset, CenterOn, CenterCoordinate, HasPlaneWord, Center, Factor;
    assert m7.modal.plane == plane;
    OffNormal(m, req);
  }

  lemma OffNormal(m: Machine, req: Request)
    requires Wired(m)
    ensures var normal := Normal(Chosen(req.plane, m.modal.plane));
            CenterOn(m, req, normal) == Coordinate(m.pos, normal)
  {}

  lemma ArcIsValid(hypot: Hypot, m: Machine, req: Request)
    requires Wired(m)
    ensures HasPlaneWord(m, req) && ValidArc(hypot, Machine7(m, req), Goal(m, req), Center(m, req)) <==> IsArc(hypot, m, req)
  {
    Machine7Keeps(m, req);
    assert ArcTolerance(m.unit) == HalfMil(m);
    hide Machine7, Goal, Center, ArcTolerance, HalfMil;
  }

  lemma FeedIs(m: Machine, req: Request)
    requires Wired(m)
    ensures HasFeed(Machine7(m, req)) <==> Feeds(m, req)
    ensures Machine7(m, req).modal.f == FeedAfter(m, req)
  {
    Machine7Keeps(m, req);
    hide Machine7, FeedAfter;
  }

  lemma TurnIs(m: Machine, req: Request)
    requires Wired(m) && MotionAfter(m, req) in {G2, G3}
    ensures ArcAxis(Machine7(m, req)) ==
            Point3((axis: Axis) => TurnOn(Chosen(req.plane, m.modal.plane), MotionAfter(m, req), axis))
  {
    Machine7Keeps(m, req);
    hide Machine7;
  }

  /** The machine a block leaves behind. */
  ghost predicate Ends(m: Machine, req: Request, after: Machine)
    requires Wired(m)
  {
    after == Outcome(m, req, after.words)
  }

  lemma MotionMeans(hypot: Hypot, m: Machine, req: Request)
    requires Wired(m) && Moving(req)
    ensures var s := Move(hypot, Machine7(m, req));
            if !MotionPermitted(hypot, m, req) then s.Thrown?
            else s.Going? && Ends(m, req, s.m) && s.commands == [MotionIssued(m, req)]
  {
    Machine7Keeps(m, req);
    FeedIs(m, req);
    TargetIs(m, req);
    var m7 := Machine7(m, req);
    assert m7.modal.motion == MotionAfter(m, req);
    match MotionAfter(m, req)
    case G0 => hide Machine7, Goal, Target, StoredAfter, MemoryAfter, ToolsAfter, ModalAfter, HasFeed, FeedAfter, MotionAfter;
    case G1 => hide Machine7, Goal, Target, StoredAfter, MemoryAfter, ToolsAfter, ModalAfter, HasFeed, FeedAfter, MotionAfter;
    case G2 => ArcMeans(hypot, m, req);
    case G3 => ArcMeans(hypot, m, req);
    case G38_3 => ProbeMeans(hypot, m, req);
  }

  lemma ArcMeans(hypot: Hypot, m: Machine, req: Request)
    requires Wired(m) && Moving(req) && MotionAfter(m, req) in {G2, G3}
    ensures var s := MakeArc(hypot, Machine7(m, req));
            if !MotionPermitted(hypot, m, req) then s.Thrown?
            else s.Going? && Ends(m, req, s.m) && s.commands == [MotionIssued(m, req)]
  {
    Machine7Keeps(m, req);
    FeedIs(m, req);
    TargetIs(m, req);
    CenterIs(m, req);
    ArcIsValid(hypot, m, req);
    TurnIs(m, req);
    IsArcHasWord(hypot, m, req);
    hide Machine7, Goal, Target, StoredAfter, MemoryAfter, ToolsAfter, ModalAfter, HasFeed, FeedAfter, ArcCenter, ValidArc,
      IsArc, HasPlaneWord, Center, ArcAxis, MotionAfter, TurnOn;
  }

  lemma IsArcHasWord(hypot: Hypot, m: Machine, req: Request)
    requires Wired(m)
    ensures IsArc(hypot, m, req) ==> HasPlaneWord(m, req)
  {
    hide Goal, Center;
  }

  lemma ProbeMeans(hypot: Hypot, m: Machine, req: Request)
    requires Wired(m) && Moving(req) && MotionAfter(m, req) == G38_3
    ensures var s := MakeProbe(Machine7(m, req));
            if !MotionPermitted(hypot, m, req) then s.Thrown?
            else s.Going? && Ends(m, req, s.m) && s.commands == [MotionIssued(m, req)]
  {
    Machine7Keeps(m, req);
    FeedIs(m, req);
    TargetIs(m, req);
    hide Machine7, Goal, Target, Outcome, HasFeed, FeedAfter, MotionAfter, Moving, Feeds, Wired;
    ProbeEnds(m, req, Machine7(m, req));
  }

  lemma ProbeEnds(m: Machine, req: Request, m7: Machine)
    requires Wired(m) && Moving(req) && MotionAfter(m, req) == G38_3
    requires m7.unit == m.unit && m7.pos == m.pos && m7.modal == ModalAfter(m, req) && m7.nextCommandId == m.nextCommandId
    requires m7.workOffset == StoredAfter(m, req, CoordAfter(m, req)) && m7.physicalTool == m.physicalTool
    requires m7.toolOffset == Point((axis: Axis) => ToolOffsetOn(m, req, axis))
    requires m7.memory == MemoryAfter(m, req) && m7.tools == ToolsAfter(m, req)
    ensures var id := m.nextCommandId;
            m7.(nextCommandId := id + 1, pending := Some(PendingProbe(id, m7.workOffset, m7.toolOffset, m7.modal.units)))
            == Outcome(m, req, m7.words)
  {
    assert ModalAfter(m, req).units == Chosen(req.units, m.modal.units);
    hide StoredAfter, MemoryAfter, ToolsAfter, ModalAfter, MotionAfter, ToolOffsetOn, Point, Moving, CoordAfter, Chosen, Wired;
  }

  lemma StillEnds(m: Machine, req: Request)
    requires Wired(m) && !Moving(req)
    ensures Ends(m, req, Machine7(m, req))
  {
    Machine7Keeps(m, req);
    hide Machine7, StoredAfter, MemoryAfter, ToolsAfter, ModalAfter, MotionAfter;
  }

  lemma NothingLeftMeans(req: Request)
    ensures Request7(req) == NO_REQUEST
            && (req.path == Some(G64) && !IsG10(req) && req.words.p.Some? ==> req.words.p.value >= 0.0)
       <==> WordsPermitted(req)
  {}

  lemma IssuesWhenPermitted(hypot: Hypot, m: Machine, req: Request)
    requires Wired(m) && MotionPermitted(hypot, m, req)
    ensures MotionAfter(m, req) != G0 ==> Feeds(m, req)
  {
    hide MotionAfter, Feeds, IsArc;
  }

  /** Stages 7 and 8. */
  lemma MotionStages(hypot: Hypot, m: Machine, req: Request)
    requires Wired(m) && Wired(Machine7(m, req)) && ModesPermitted(m, req)
    requires Moving(req) && MotionPermitted(hypot, m, req) ==> (MotionAfter(m, req) != G0 ==> Feeds(m, req))
    ensures var s := Run(hypot, 7, Going(Machine7(m, req), Request7(req), Commands5(m, req), Moving(req)));
            if WordsPermitted(req) && (Moving(req) ==> MotionPermitted(hypot, m, req)) then
              && s.Going? && Ends(m, req, s.m)
              && s.commands == Commands5(m, req) + if Moving(req) then [MotionIssued(m, req)] else []
            else s.Thrown?
  {
    NothingLeftMeans(req);
    LastStages(hypot, Machine7(m, req), Request7(req), Commands5(m, req), Moving(req));
    if Moving(req) { MotionMeans(hypot, m, req); } else { StillEnds(m, req); }
    hide Run, Move, Machine7, Request7, Commands5, Moving, Ends, MotionIssued, MotionPermitted, WordsPermitted, MotionAfter, Feeds;
  }

  /** The machine executes exactly the permitted blocks, leaves what they mean
      behind and issues the commands they mean. */
  lemma BlockMeans(hypot: Hypot, m: Machine, req: Request)
    requires Wired(m)
    ensures var r := ExecuteBlock(hypot, m, Block(Some(req), false));
            && (r.Executed? <==> Permitted(hypot, m, req))
            && (r.Executed? ==> Ends(m, req, r.m) && r.commands == Issued(m, req))
  {
    hide Machine2, Machine4, Machine7, Request2, Request4, Request7, G10Permitted, Ends, MotionPermitted, WordsPermitted, Moving,
      MotionIssued, SelectedTool, MotionAfter, Feeds, SpindleIssued;
    var s0 := Going(Enter(m), req, [], false);
    PermittedIs(hypot, m, req);
    FirstStages(hypot, m, req);
    if !IsG10(req) || G10Permitted(m, req) {
      ModeStages(hypot, m, req);
      if ModesPermitted(m, req) {
        OffsetStages(hypot, m, req);
        if ToolPermitted(m, req) {
          if MotionPermitted(hypot, m, req) { IssuesWhenPermitted(hypot, m, req); }
          MotionStages(hypot, m, req);
        }
      }
    }
  }

  lemma PermittedIs(hypot: Hypot, m: Machine, req: Request)
    requires Wired(m)
    ensures Permitted(hypot, m, req) <==>
            && (IsG10(req) ==> G10Permitted(m, req)) && ModesPermitted(m, req) && ToolPermitted(m, req)
            && WordsPermitted(req) && (Moving(req) ==> MotionPermitted(hypot, m, req))
    ensures Permitted(hypot, m, req) ==> (Moving(req) && MotionAfter(m, req) != G0 ==> Feeds(m, req))
  {
    hide G10Permitted, SelectedTool, Moving, IsArc, Feeds;
  }

  /** A block with a block-delete mark issues nothing and moves nothing. */
  lemma DeletedBlockMeans(hypot: Hypot, m: Machine, req: Request)
    requires Wired(m)
    ensures var r := ExecuteBlock(hypot, m, Block(Some(req), true));
            r.Executed? && r.commands == []
            && r.m == m.(words := NO_WORDS, workOffset := m.memory.offsets[m.modal.coord - 1])
  {}
}
