/** The per-tick virtual machine of a compiled digital I/O program
    (src/DigitalIoProgram.cpp, `value`, `evaluate`, `executeInputs`,
    `executeOutputs`, `reset`). */
module DigitalIoMachine {
  import opened Text
  import opened Doubles
  import opened Arithmetic
  import opened Joints
  import opened DigitalIoLanguage
  import opened DigitalIoCompiler
  import opened DigitalIoDebounce

  function ZeroReadings(n: nat): (s: seq<Number>)
    ensures |s| == n && forall i | 0 <= i < n :: s[i] == Finite(0.0)
  {
    seq(n, _ => Finite(0.0))
  }

  function ResetStates(n: nat): (s: seq<DebounceState>)
    ensures |s| == n && forall i | 0 <= i < n :: s[i] == RESET_STATE
  {
    seq(n, _ => RESET_STATE)
  }

  type AxisVector = s: seq<Number> | |s| == AXIS_COUNT witness ZeroReadings(AXIS_COUNT)
  type JointReadings = s: seq<Number> | |s| == MAX_JOINTS witness ZeroReadings(MAX_JOINTS)
  type RegisterFile = s: seq<Number> | |s| == REGISTER_CAPACITY witness ZeroReadings(REGISTER_CAPACITY)
  type DebounceFile = s: seq<DebounceState> | |s| == INSTRUCTION_CAPACITY witness ResetStates(INSTRUCTION_CAPACITY)

  datatype MotionContext = MotionContext(
    flags: nat, moveJoints: nat, triggerJoints: nat,
    axisPosition: AxisVector, axisStart: AxisVector, axisTarget: AxisVector,
    jointPosition: JointReadings, jointStart: JointReadings, jointTarget: JointReadings)

  /** What one evaluation reads. A bitset is the set of its true positions. */
  datatype Frame = Frame(fieldInputs: set<nat>, logicalOutputs: set<nat>, motion: MotionContext)

  /** What one evaluation updates: registers, both images, debounce states. */
  datatype Vm = Vm(registers: RegisterFile, inputs: set<nat>, outputs: set<nat>, debounce: DebounceFile)

  // ----- arithmetic

  predicate Truth(n: Number) { n.Finite? && n.r != 0.0 }

  function Bit(b: bool): Number { Finite(if b then 1.0 else 0.0) }

  /** Whether two naturals share a binary digit: `(a & b) != 0`. */
  predicate CommonBit(a: nat, b: nat) {
    a > 0 && b > 0 && ((a % 2 == 1 && b % 2 == 1) || CommonBit(a / 2, b / 2))
  }

  const MAXIMUM_EXACT_INTEGER := 0x20_0000_0000_0000

  predicate IsExactInteger(n: Number) {
    n.Finite? && 0.0 <= n.r <= MAXIMUM_EXACT_INTEGER as real && n.r.Floor as real == n.r
  }

  predicate TestMask(value: Number, mask: Number) {
    IsExactInteger(value) && IsExactInteger(mask) && CommonBit(value.r.Floor, mask.r.Floor)
  }

  function Combine(opcode: Opcode, a: Number, b: Number): Number {
    match opcode
    case Move => a
    case Not => Bit(a.Finite? && !Truth(a))
    case And => Bit(a.Finite? && b.Finite? && Truth(a) && Truth(b))
    case Or => Bit(a.Finite? && b.Finite? && (Truth(a) || Truth(b)))
    case Xor => Bit(a.Finite? && b.Finite? && Truth(a) != Truth(b))
    case Debounce => a
    case Subtract => if a.Finite? && b.Finite? then Finite(a.r - b.r) else NonFinite
    case Absolute => if a.Finite? then Finite(if a.r < 0.0 then -a.r else a.r) else NonFinite
    case LessEqual => Bit(a.Finite? && b.Finite? && a.r <= b.r)
    case GreaterEqual => Bit(a.Finite? && b.Finite? && a.r >= b.r)
    case Test => Bit(TestMask(a, b))
  }

  // ----- one instruction

  predicate Indexable(operand: Operand) {
    match operand
    case Register(k) => k < REGISTER_CAPACITY
    case AxisPosition(k) => k < AXIS_COUNT
    case AxisStart(k) => k < AXIS_COUNT
    case AxisTarget(k) => k < AXIS_COUNT
    case JointPosition(k) => k < MAX_JOINTS
    case JointStart(k) => k < MAX_JOINTS
    case JointTarget(k) => k < MAX_JOINTS
    case _ => true
  }

  predicate Executable(code: seq<Instruction>) {
    && |code| <= INSTRUCTION_CAPACITY
    && forall i | 0 <= i < |code| ::
         Indexable(code[i].destination) && Indexable(code[i].first) && Indexable(code[i].second)
  }

  function Value(operand: Operand, frame: Frame, registers: RegisterFile): Number
    requires Indexable(operand)
  {
    match operand
    case Register(k) => registers[k]
    case FieldInput(k) => Bit(k in frame.fieldInputs)
    case LogicalOutput(k) => Bit(k in frame.logicalOutputs)
    case Constant(c) => c
    case MotionFlags => Finite(frame.motion.flags as real)
    case MoveJoints => Finite(frame.motion.moveJoints as real)
    case TriggerJoints => Finite(frame.motion.triggerJoints as real)
    case AxisPosition(k) => frame.motion.axisPosition[k]
    case AxisStart(k) => frame.motion.axisStart[k]
    case AxisTarget(k) => frame.motion.axisTarget[k]
    case JointPosition(k) => frame.motion.jointPosition[k]
    case JointStart(k) => frame.motion.jointStart[k]
    case JointTarget(k) => frame.motion.jointTarget[k]
    case LogicalInput(_) => Finite(0.0)
    case FieldOutput(_) => Finite(0.0)
  }

  /** The debounce state instruction `ins` leaves behind. */
  function NextDebounce(ins: Instruction, state: DebounceState, first: Number, advance: bool): DebounceState {
    if ins.opcode == Debounce && advance then Advance(state, ins.debounceTicks, Truth(first)) else state
  }

  function Computed(ins: Instruction, state: DebounceState, first: Number, second: Number, advance: bool): Number {
    if ins.opcode == Debounce then Bit(NextDebounce(ins, state, first, advance).output)
    else Combine(ins.opcode, first, second)
  }

  function SetBit(image: set<nat>, k: nat, value: bool): set<nat> {
    if value then image + {k} else image - {k}
  }

  function Store(vm: Vm, destination: Operand, result: Number): Vm
    requires Indexable(destination)
  {
    match destination
    case Register(k) => vm.(registers := vm.registers[k := result])
    case LogicalInput(k) => vm.(inputs := SetBit(vm.inputs, k, Truth(result)))
    case FieldOutput(k) => vm.(outputs := SetBit(vm.outputs, k, Truth(result)))
    case _ => vm
  }

  function ResultAt(code: seq<Instruction>, i: nat, frame: Frame, vm: Vm, advance: bool): Number
    requires Executable(code) && i < |code|
  {
    Computed(code[i], vm.debounce[i], Value(code[i].first, frame, vm.registers),
           Value(code[i].second, frame, vm.registers), advance)
  }

  function Step(code: seq<Instruction>, i: nat, frame: Frame, vm: Vm, advance: bool): Vm
    requires Executable(code) && i < |code|
  {
    var first := Value(code[i].first, frame, vm.registers);
    var result := ResultAt(code, i, frame, vm, advance);
    Store(vm.(debounce := vm.debounce[i := NextDebounce(code[i], vm.debounce[i], first, advance)]),
          code[i].destination, result)
  }

  /** The machine after the first `n` instructions. */
  function Execute(code: seq<Instruction>, n: nat, frame: Frame, vm: Vm, advance: bool): Vm
    requires Executable(code) && n <= |code|
  {
    if n == 0 then vm else Step(code, n - 1, frame, Execute(code, n - 1, frame, vm, advance), advance)
  }

  /** A whole pass over the program from cleared registers and images. */
  function Pass(code: seq<Instruction>, frame: Frame, debounce: DebounceFile, advance: bool): Vm
    requires Executable(code)
  {
    Execute(code, |code|, frame, Vm(ZeroReadings(REGISTER_CAPACITY), {}, {}, debounce), advance)
  }

  lemma AcceptedIsExecutable(env: Environment, source: string, code: seq<Instruction>)
    requires Accepted(env, source, code)
    ensures Executable(code)
  {
    AcceptedOperandsInRange(env, source, code);
    forall i | 0 <= i < |code|
      ensures Indexable(code[i].destination) && Indexable(code[i].first) && Indexable(code[i].second)
    {
      assert OperandsInRange(env, code[i]);
    }
  }

  // ----- definite assignment: initial registers cannot influence anything

  ghost predicate AgreeOnWritten(code: seq<Instruction>, n: nat, a: Vm, b: Vm)
    requires n <= |code|
  {
    && a.inputs == b.inputs && a.outputs == b.outputs && a.debounce == b.debounce
    && forall k: nat | k < REGISTER_CAPACITY && WrittenIn(code[..n], Register(k)) :: a.registers[k] == b.registers[k]
  }

  lemma SourcesAgree(env: Environment, code: seq<Instruction>, n: nat, frame: Frame, a: Vm, b: Vm, operand: Operand)
    requires n <= |code| && AgreeOnWritten(code, n, a, b)
    requires Indexable(operand) && SourceOk(env, code[..n], operand)
    ensures Value(operand, frame, a.registers) == Value(operand, frame, b.registers)
  {}

  lemma UnusedSecond(ins: Instruction, state: DebounceState, first: Number, x: Number, y: Number, advance: bool)
    requires !IsBinary(ins.opcode)
    ensures Computed(ins, state, first, x, advance) == Computed(ins, state, first, y, advance)
  {}

  lemma ResultsAgree(env: Environment, code: seq<Instruction>, i: nat, frame: Frame, a: Vm, b: Vm, advance: bool)
    requires Executable(code) && i < |code| && InstructionOk(env, code[..i], code[i])
    requires AgreeOnWritten(code, i, a, b)
    ensures Value(code[i].first, frame, a.registers) == Value(code[i].first, frame, b.registers)
    ensures ResultAt(code, i, frame, a, advance) == ResultAt(code, i, frame, b, advance)
  {
    SourcesAgree(env, code, i, frame, a, b, code[i].first);
    if IsBinary(code[i].opcode) {
      SourcesAgree(env, code, i, frame, a, b, code[i].second);
    } else {
      UnusedSecond(code[i], a.debounce[i], Value(code[i].first, frame, a.registers),
                   Value(code[i].second, frame, a.registers), Value(code[i].second, frame, b.registers), advance);
    }
  }

  lemma {:induction false} RunsAgree(
    env: Environment, code: seq<Instruction>, n: nat, frame: Frame, a: Vm, b: Vm, advance: bool)
    requires WellFormed(env, code) && Executable(code) && n <= |code|
    requires a.(registers := b.registers) == b
    ensures AgreeOnWritten(code, n, Execute(code, n, frame, a, advance), Execute(code, n, frame, b, advance))
  {
    if n > 0 {
      var i := n - 1;
      RunsAgree(env, code, i, frame, a, b, advance);
      assert InstructionOk(env, code[..i], code[i]);
      ResultsAgree(env, code, i, frame, Execute(code, i, frame, a, advance), Execute(code, i, frame, b, advance), advance);
      assert code[..n] == code[..i] + [code[i]];
      forall k: nat ensures WrittenIn(code[..n], Register(k)) <==>
                            WrittenIn(code[..i], Register(k)) || code[i].destination == Register(k)
      {
        WrittenInExtended(code[..i], code[i], Register(k));
      }
    }
  }

  /** Two-run theorem: for compiled code the images and the debounce states do
      not depend on what the registers held before. */
  lemma InitialRegistersAreInvisible(
    env: Environment, source: string, code: seq<Instruction>, frame: Frame, a: Vm, b: Vm, advance: bool)
    requires Accepted(env, source, code) && Executable(code)
    requires a.(registers := b.registers) == b
    ensures var ra := Execute(code, |code|, frame, a, advance);
            var rb := Execute(code, |code|, frame, b, advance);
            ra.inputs == rb.inputs && ra.outputs == rb.outputs && ra.debounce == rb.debounce
  {
    RunsAgree(env, code, |code|, frame, a, b, advance);
  }

  // ----- single writers: every image bit is the Boolean of its writer

  /** The image bit a destination names. */
  ghost predicate Lit(vm: Vm, destination: Operand) {
    match destination
    case LogicalInput(k) => k in vm.inputs
    case FieldOutput(k) => k in vm.outputs
    case _ => false
  }

  ghost predicate IsImageBit(destination: Operand) { destination.LogicalInput? || destination.FieldOutput? }

  lemma StepBits(code: seq<Instruction>, i: nat, frame: Frame, vm: Vm, advance: bool, destination: Operand)
    requires Executable(code) && i < |code| && IsImageBit(destination)
    ensures Lit(Step(code, i, frame, vm, advance), destination) <==>
            if code[i].destination == destination then Truth(ResultAt(code, i, frame, vm, advance))
            else Lit(vm, destination)
  {}

  /** A bit nothing among instructions `from` to `n` writes keeps its value. */
  lemma {:induction false} UnwrittenBitKept(
    code: seq<Instruction>, from: nat, n: nat, destination: Operand, frame: Frame, vm: Vm, advance: bool)
    requires Executable(code) && from <= n <= |code| && IsImageBit(destination)
    requires forall j | from <= j < n :: code[j].destination != destination
    ensures Lit(Execute(code, n, frame, vm, advance), destination)
       <==> Lit(Execute(code, from, frame, vm, advance), destination)
  {
    if n > from {
      UnwrittenBitKept(code, from, n - 1, destination, frame, vm, advance);
      StepBits(code, n - 1, frame, Execute(code, n - 1, frame, vm, advance), advance, destination);
    }
  }

  ghost predicate WritesTrue(code: seq<Instruction>, i: nat, frame: Frame, vm: Vm, advance: bool)
    requires Executable(code) && i < |code|
  {
    Truth(ResultAt(code, i, frame, Execute(code, i, frame, vm, advance), advance))
  }

  /** After a pass, a bit with exactly one writer is the Boolean that writer computed. */
  lemma BitIsItsWriter(code: seq<Instruction>, i: nat, frame: Frame, vm: Vm, advance: bool)
    requires Executable(code) && i < |code| && IsImageBit(code[i].destination)
    requires forall j | 0 <= j < |code| && code[j].destination == code[i].destination :: j == i
    ensures Lit(Execute(code, |code|, frame, vm, advance), code[i].destination) <==> WritesTrue(code, i, frame, vm, advance)
  {
    StepBits(code, i, frame, Execute(code, i, frame, vm, advance), advance, code[i].destination);
    UnwrittenBitKept(code, i + 1, |code|, code[i].destination, frame, vm, advance);
  }

  lemma UniqueWriter(env: Environment, code: seq<Instruction>, destination: Operand) returns (i: nat)
    requires WellFormed(env, code) && WrittenIn(code, destination) && !destination.Register?
    ensures i < |code| && code[i].destination == destination
    ensures forall j | 0 <= j < |code| && code[j].destination == destination :: j == i
  {
    i :| 0 <= i < |code| && code[i].destination == destination;
    forall j | 0 <= j < |code| && code[j].destination == destination ensures j == i {
      if j < i { SingleWriter(env, code, j, i); }
      if i < j { SingleWriter(env, code, i, j); }
    }
  }

  ghost predicate IsOutputOf(env: Environment, destination: Operand) {
    match destination
    case LogicalInput(id) => id in env.logicalInputs
    case FieldOutput(k) => k < env.fieldOutputCount
    case _ => false
  }

  /** For compiled code each declared logical input and each field output has
      exactly one writer, and after any pass its bit is the Boolean of what that
      instruction computed; every other bit is clear. */
  lemma ImagesAreTheirWriters(env: Environment, source: string, code: seq<Instruction>, destination: Operand,
                              frame: Frame, debounce: DebounceFile, advance: bool) returns (i: nat)
    requires Accepted(env, source, code) && Executable(code) && IsImageBit(destination)
    ensures IsOutputOf(env, destination) ==> i < |code| && code[i].destination == destination
    ensures forall j | 0 <= j < |code| && code[j].destination == destination :: j == i
    ensures var start := Vm(ZeroReadings(REGISTER_CAPACITY), {}, {}, debounce);
            Lit(Pass(code, frame, debounce, advance), destination) <==>
            i < |code| && code[i].destination == destination && WritesTrue(code, i, frame, start, advance)
  {
    var start := Vm(ZeroReadings(REGISTER_CAPACITY), {}, {}, debounce);
    i := 0;
    if WrittenIn(code, destination) {
      i := UniqueWriter(env, code, destination);
      BitIsItsWriter(code, i, frame, start, advance);
    } else {
      UnwrittenBitKept(code, 0, |code|, destination, frame, start, advance);
    }
  }

  // ----- the two passes

  /** The debounce state of instruction `i` is changed by instruction `i` alone. */
  lemma {:induction false} DebounceTouchedOnce(code: seq<Instruction>, n: nat, i: nat, frame: Frame, vm: Vm, advance: bool)
    requires Executable(code) && n <= |code| && i < INSTRUCTION_CAPACITY
    ensures Execute(code, n, frame, vm, advance).debounce[i] ==
            if i < n then Execute(code, i + 1, frame, vm, advance).debounce[i] else vm.debounce[i]
  {
    if n > 0 && i < n - 1 {
      DebounceTouchedOnce(code, n - 1, i, frame, vm, advance);
    } else if n > 0 && i > n - 1 {
      DebounceTouchedOnce(code, n - 1, i, frame, vm, advance);
    }
  }

  lemma {:induction false} FrozenKeepsDebounce(code: seq<Instruction>, n: nat, frame: Frame, vm: Vm)
    requires Executable(code) && n <= |code|
    ensures Execute(code, n, frame, vm, false).debounce == vm.debounce
  {
    if n > 0 {
      FrozenKeepsDebounce(code, n - 1, frame, vm);
    }
  }

  lemma FrozenStepReplays(code: seq<Instruction>, i: nat, frame: Frame, vm: Vm, states: DebounceFile)
    requires Executable(code) && i < |code|
    requires states[i] == Step(code, i, frame, vm, true).debounce[i]
    ensures Step(code, i, frame, vm.(debounce := states), false)
         == Step(code, i, frame, vm, true).(debounce := states)
  {
    assert states[i := states[i]] == states;
  }

  lemma {:induction false} FrozenReplays(code: seq<Instruction>, n: nat, frame: Frame, vm: Vm, states: DebounceFile)
    requires Executable(code) && n <= |code|
    requires states == Execute(code, |code|, frame, vm, true).debounce
    ensures Execute(code, n, frame, vm.(debounce := states), false)
         == Execute(code, n, frame, vm, true).(debounce := states)
  {
    if n > 0 {
      FrozenReplays(code, n - 1, frame, vm, states);
      DebounceTouchedOnce(code, |code|, n - 1, frame, vm, true);
      FrozenStepReplays(code, n - 1, frame, Execute(code, n - 1, frame, vm, true), states);
    }
  }

  /** Two-pass agreement: a frozen pass after an advancing pass over the same
      frame reproduces both images, the field outputs the input pass discarded
      included, and leaves the debounce states alone. */
  lemma PassesAgree(code: seq<Instruction>, frame: Frame, debounce: DebounceFile)
    requires Executable(code)
    ensures var advanced := Pass(code, frame, debounce, true);
            Pass(code, frame, advanced.debounce, false) == advanced
  {
    var start := Vm(ZeroReadings(REGISTER_CAPACITY), {}, {}, debounce);
    var advanced := Pass(code, frame, debounce, true);
    FrozenReplays(code, |code|, frame, start, advanced.debounce);
  }

  // ----- debouncing over a run of ticks

  /** Debounce states after one advancing pass per frame, from reset. */
  ghost function DebounceAfter(code: seq<Instruction>, frames: seq<Frame>): DebounceFile
    requires Executable(code)
  {
    if frames == [] then ResetStates(INSTRUCTION_CAPACITY)
    else
      var n := |frames| - 1;
      Pass(code, frames[n], DebounceAfter(code, frames[..n]), true).debounce
  }

  /** The Boolean instruction `i` reads on the pass over `frame`. */
  ghost function Sample(code: seq<Instruction>, i: nat, frame: Frame, debounce: DebounceFile): bool
    requires Executable(code) && i < |code|
  {
    var start := Vm(ZeroReadings(REGISTER_CAPACITY), {}, {}, debounce);
    Truth(Value(code[i].first, frame, Execute(code, i, frame, start, true).registers))
  }

  ghost function Samples(code: seq<Instruction>, i: nat, frames: seq<Frame>): (s: seq<bool>)
    requires Executable(code) && i < |code|
    ensures |s| == |frames|
  {
    if frames == [] then []
    else
      var n := |frames| - 1;
      Samples(code, i, frames[..n]) + [Sample(code, i, frames[n], DebounceAfter(code, frames[..n]))]
  }

  lemma {:induction false} DebounceFollowsSamples(code: seq<Instruction>, i: nat, frames: seq<Frame>)
    requires Executable(code) && i < |code| && code[i].opcode == Debounce
    ensures DebounceAfter(code, frames)[i] == Run(code[i].debounceTicks, Samples(code, i, frames))
  {
    if frames != [] {
      var n := |frames| - 1;
      DebounceFollowsSamples(code, i, frames[..n]);
      var states := DebounceAfter(code, frames[..n]);
      var start := Vm(ZeroReadings(REGISTER_CAPACITY), {}, {}, states);
      DebounceTouchedOnce(code, |code|, i, frames[n], start, true);
      DebounceTouchedOnce(code, i, i, frames[n], start, true);
      var samples := Samples(code, i, frames);
      assert samples[..n] == Samples(code, i, frames[..n]);
    }
  }

  /** In every run, a debounce instruction writes on each tick what the sliding
      window over the Booleans it has read so far prescribes. */
  lemma DebounceInstructionIsWindowed(code: seq<Instruction>, i: nat, frames: seq<Frame>)
    requires Executable(code) && i < |code| && code[i].opcode == Debounce && frames != []
    ensures var n := |frames| - 1;
            var start := Vm(ZeroReadings(REGISTER_CAPACITY), {}, {}, DebounceAfter(code, frames[..n]));
            ResultAt(code, i, frames[n], Execute(code, i, frames[n], start, true), true)
            == Bit(Window(code[i].debounceTicks, Samples(code, i, frames)))
  {
    var n := |frames| - 1;
    var start := Vm(ZeroReadings(REGISTER_CAPACITY), {}, {}, DebounceAfter(code, frames[..n]));
    DebounceFollowsSamples(code, i, frames);
    DebounceTouchedOnce(code, |code|, i, frames[n], start, true);
    RunRefinesWindow(code[i].debounceTicks, Samples(code, i, frames));
  }

  // ----- joint masks

  lemma {:induction false} CommonBitWithPower(v: nat, k: nat)
    ensures CommonBit(v, Pow2(k)) <==> (v / Pow2(k)) % 2 == 1
  {
    if k == 0 {
      assert !CommonBit(v / 2, 0);
    } else {
      CommonBitWithPower(v / 2, k - 1);
      DivideTwice(v, Pow2(k - 1));
    }
  }

  lemma DivideTwice(v: nat, p: nat)
    requires p > 0
    ensures v / (2 * p) == (v / 2) / p
  {
    var q, r := v / 2, v % 2;
    var a, b := q / p, q % p;
    assert q == a * p + b;
    assert v == a * (2 * p) + (2 * b + r);
    assert 0 <= 2 * b + r < 2 * p;
    DivisionIsUnique(v, 2 * p, a, 2 * b + r);
  }

  lemma AtLeastOnce(x: int, d: int)
    requires d >= 0
    ensures x >= 1 ==> x * d >= d
    ensures x <= -1 ==> x * d <= -d
  {
    if x >= 1 { assert (x - 1) * d >= 0; }
    if x <= -1 { assert (x + 1) * d <= 0; }
  }

  lemma DivisionIsUnique(v: nat, d: nat, q: nat, r: nat)
    requires d > 0 && v == q * d + r && r < d
    ensures v / d == q
  {
    var x := v / d - q;
    assert x * d == (v / d) * d - q * d;
    AtLeastOnce(x, d);
  }

  /** `test move_joints JOINT_k` asks exactly whether joint `k` is in the mask. */
  lemma JointTestIsMembership(mask: nat, k: nat)
    requires mask <= MAXIMUM_EXACT_INTEGER && k < MAX_JOINTS
    ensures TestMask(Finite(mask as real), Finite(Pow2(k) as real)) <==> (mask / Pow2(k)) % 2 == 1
  {
    Pow2Grows(k, MAX_JOINTS);
    assert Pow2(12) == 4096;
    CommonBitWithPower(mask, k);
  }

  // ----- the program object

  class DigitalIoProgram {
    const program: Program
    const debounce: array<DebounceState>

    ghost predicate Valid()
      reads this, debounce
    {
      Executable(program.instructions) && debounce.Length == INSTRUCTION_CAPACITY
    }

    ghost function States(): DebounceFile
      requires Valid()
      reads this, debounce
    {
      debounce[..]
    }

    constructor (compiled: Program)
      requires Executable(compiled.instructions)
      ensures Valid() && program == compiled && fresh(debounce)
      ensures States() == ResetStates(INSTRUCTION_CAPACITY)
    {
      program := compiled;
      debounce := new DebounceState[INSTRUCTION_CAPACITY](_ => RESET_STATE);
    }

    /** One pass; `states` is updated in place when `advance` is set. */
    method Evaluate(frame: Frame, states: array<DebounceState>, advance: bool)
      returns (inputs: set<nat>, outputs: set<nat>)
      requires Valid() && states.Length == INSTRUCTION_CAPACITY
      modifies states
      ensures var final := Pass(program.instructions, frame, old(states[..]), advance);
              inputs == final.inputs && outputs == final.outputs && states[..] == final.debounce
    {
      hide Computed, NextDebounce, Truth, SetBit;
      var code := program.instructions;
      ghost var start := Vm(ZeroReadings(REGISTER_CAPACITY), {}, {}, states[..]);
      var registers := new Number[REGISTER_CAPACITY](_ => Finite(0.0));
      assert registers[..] == ZeroReadings(REGISTER_CAPACITY);
      inputs, outputs := {}, {};
      for index := 0 to |code|
        modifies states, registers
        invariant Vm(registers[..], inputs, outputs, states[..]) == Execute(code, index, frame, start, advance)
      {
        ghost var before := Vm(registers[..], inputs, outputs, states[..]);
        var ins := code[index];
        var first := Value(ins.first, frame, registers[..]);
        var second := if IsBinary(ins.opcode) then Value(ins.second, frame, registers[..]) else Finite(0.0);
        if !IsBinary(ins.opcode) {
          UnusedSecond(ins, states[index], first, second, Value(ins.second, frame, registers[..]), advance);
        }
        var result := Computed(ins, states[index], first, second, advance);
        states[index] := NextDebounce(ins, states[index], first, advance);
        assert states[..] == before.debounce[index := NextDebounce(ins, before.debounce[index], first, advance)];
        match ins.destination {
          case Register(k) =>
            registers[k] := result;
            assert registers[..] == before.registers[k := result];
          case LogicalInput(k) => inputs := SetBit(inputs, k, Truth(result));
          case FieldOutput(k) => outputs := SetBit(outputs, k, Truth(result));
          case _ =>
        }
      }
    }

    /** The input pass: advances the debounce states. */
    method ExecuteInputs(frame: Frame) returns (inputs: set<nat>)
      requires Valid()
      modifies debounce
      ensures Valid()
      ensures var final := Pass(program.instructions, frame, old(States()), true);
              inputs == final.inputs && States() == final.debounce
    {
      var discarded;
      inputs, discarded := Evaluate(frame, debounce, true);
    }

    /** The output pass works on a copy: no debounce state changes. */
    method ExecuteOutputs(frame: Frame) returns (outputs: set<nat>)
      requires Valid()
      ensures outputs == Pass(program.instructions, frame, States(), false).outputs
      ensures unchanged(debounce)
    {
      var copy := new DebounceState[INSTRUCTION_CAPACITY](i requires 0 <= i < debounce.Length reads debounce => debounce[i]);
      assert copy[..] == debounce[..];
      var discarded;
      discarded, outputs := Evaluate(frame, copy, false);
    }

    method Reset()
      requires Valid()
      modifies debounce
      ensures Valid() && States() == ResetStates(INSTRUCTION_CAPACITY)
    {
      forall i | 0 <= i < debounce.Length {
        debounce[i] := RESET_STATE;
      }
    }

    /** One servo tick: the outputs equal those of the input pass on the same frame. */
    method Tick(frame: Frame) returns (inputs: set<nat>, outputs: set<nat>)
      requires Valid()
      modifies debounce
      ensures Valid()
      ensures var final := Pass(program.instructions, frame, old(States()), true);
              inputs == final.inputs && outputs == final.outputs && States() == final.debounce
    {
      PassesAgree(program.instructions, frame, States());
      inputs := ExecuteInputs(frame);
      outputs := ExecuteOutputs(frame);
    }
  }
}
