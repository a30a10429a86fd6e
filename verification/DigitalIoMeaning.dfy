/** What a program text means, read off the text itself and the frames it has
    seen, with no code, register file or machine in between: an independent
    reference the compiler and the machine together are proved to meet. */
module DigitalIoMeaning {
  import opened Text
  import opened Doubles
  import opened Arithmetic
  import opened Joints
  import opened DigitalIoLanguage
  import opened DigitalIoCompiler
  import opened DigitalIoDebounce
  import opened DigitalIoMachine

  // ----- words

  predicate On(n: Number) { n != NonFinite && n != Finite(0.0) }

  function Yes(b: bool): Number { if b then Finite(1.0) else Finite(0.0) }

  /** Binary digit `k` of `v`. */
  predicate Digit(v: nat, k: nat) { (v / Pow2(k)) % 2 == 1 }

  predicate Whole(n: Number) { n.Finite? && n.r >= 0.0 && n.r <= 9007199254740992.0 && n.r == n.r.Floor as real }

  /** Some binary digit is set in both. */
  ghost predicate Overlap(a: nat, b: nat) { exists k: nat :: Digit(a, k) && Digit(b, k) }

  /** What each word but `debounce` makes of its operands. */
  ghost function WordMeans(word: string, a: Number, b: Number): Number {
    match word
    case "mov" => a
    case "not" => Yes(a == Finite(0.0))
    case "and" => Yes(On(a) && On(b))
    case "or" => Yes(a.Finite? && b.Finite? && (a.r != 0.0 || b.r != 0.0))
    case "xor" => Yes(a.Finite? && b.Finite? && (a.r == 0.0 <==> b.r != 0.0))
    case "sub" => if a.Finite? && b.Finite? then Finite(a.r - b.r) else NonFinite
    case "abs" => if a.Finite? then Finite(Abs(a.r)) else NonFinite
    case "le" => Yes(a.Finite? && b.Finite? && !(b.r < a.r))
    case "ge" => Yes(a.Finite? && b.Finite? && !(a.r < b.r))
    case "test" => Yes(Whole(a) && Whole(b) && Overlap(a.r.Floor, b.r.Floor))
    case _ => NonFinite
  }

  // ----- names

  /** `prefix` followed by decimal digits. */
  predicate Named(text: string, prefix: string) {
    prefix <= text && |text| > |prefix| && AllDigits(text[|prefix|..])
  }

  function NumberOf(text: string, prefix: string): nat
    requires Named(text, prefix)
  {
    DigitsValue(text[|prefix|..])
  }

  const AXIS_LETTERS := "xyzabc"

  /** `prefix` followed by the letter of axis `k`. */
  predicate NamesAxis(text: string, prefix: string, k: nat) {
    k < 6 && text == prefix + [AXIS_LETTERS[k]]
  }

  ghost predicate IsSymbol(env: Environment, text: string, s: Symbol) { s in env.symbols && s.name == text }

  datatype Place = RegisterNumber(k: nat) | InputBit(k: nat) | OutputBit(k: nat) | NoPlace

  /** What a destination's text names. */
  ghost function PlaceOf(env: Environment, text: string): Place {
    if env.reader(text).Some? then NoPlace
    else if exists s :: IsSymbol(env, text, s) then
      var s :| IsSymbol(env, text, s);
      match s.kind
      case LogicalInputSymbol => InputBit(s.id)
      case FieldOutputSymbol => OutputBit(s.id)
      case _ => NoPlace
    else if Named(text, "fieldout") then OutputBit(NumberOf(text, "fieldout"))
    else if Named(text, "in") then InputBit(NumberOf(text, "in"))
    else if Named(text, "r") then RegisterNumber(NumberOf(text, "r"))
    else NoPlace
  }

  /** The last of the first `n` lines that writes register `k`; -1 when none does. */
  ghost function LastWriter(env: Environment, lines: seq<Line>, n: nat, k: nat): (i: int)
    requires n <= |lines|
    ensures -1 <= i < n
  {
    if n == 0 then -1
    else if |lines[n - 1].tokens| > 1 && PlaceOf(env, lines[n - 1].tokens[1]) == RegisterNumber(k) then n - 1
    else LastWriter(env, lines, n - 1, k)
  }

  // ----- durations

  datatype TimeUnit = Nanoseconds | Microseconds | Milliseconds | WholeSeconds

  function Seconds(unit: TimeUnit): real {
    match unit
    case Nanoseconds => 1.0 / 1000000000.0
    case Microseconds => 1.0 / 1000000.0
    case Milliseconds => 1.0 / 1000.0
    case WholeSeconds => 1.0
  }

  predicate EndsIn(text: string, suffix: string) { |text| > |suffix| && text[|text| - |suffix|..] == suffix }

  /** The unit a duration ends in; a bare `s` only when no longer one fits. */
  function UnitOf(text: string): TimeUnit {
    if EndsIn(text, "ns") then Nanoseconds
    else if EndsIn(text, "us") then Microseconds
    else if EndsIn(text, "ms") then Milliseconds
    else WholeSeconds
  }

  function UnitLength(unit: TimeUnit): nat { if unit == WholeSeconds then 1 else 2 }

  /** `n` is the fewest ticks, at least one unless the duration is zero, that
      last the duration a text gives, up to 1e-12 of a period. */
  ghost predicate TicksOf(env: Environment, text: string, n: nat) {
    && env.servoPeriod.Finite? && EndsIn(text, "s") && |text| > UnitLength(UnitOf(text))
    && var digits := env.reader(text[..|text| - UnitLength(UnitOf(text))]);
       digits.Some?
       && var duration := Product(digits.value, Seconds(UnitOf(text)));
          var enough := duration - env.servoPeriod.r / 1000000000000.0;
          if duration == 0.0 then n == 0
          else n >= 1 && Lasts(n, env.servoPeriod.r, enough) && (n > 1 ==> !Lasts(n - 1, env.servoPeriod.r, enough))
  }

  ghost function TicksIn(env: Environment, text: string): nat {
    if exists n: nat :: TicksOf(env, text, n) then var n: nat :| TicksOf(env, text, n); n else 0
  }

  // ----- readings and lines

  function Newest(frames: seq<Frame>): Frame
    requires frames != []
  {
    frames[|frames| - 1]
  }

  /** The frames up to and with number `t`. */
  function Until(frames: seq<Frame>, t: nat): (r: seq<Frame>)
    requires t < |frames|
    ensures |r| == t + 1
  {
    frames[..t + 1]
  }

  /** What a source's text reads on line `n`, in the newest of the frames. */
  ghost function Reading(env: Environment, lines: seq<Line>, n: nat, text: string, frames: seq<Frame>): Number
    requires n <= |lines| && frames != []
    decreases n, 0
  {
    var frame := Newest(frames);
    if env.reader(text).Some? then Finite(env.reader(text).value)
    else if text == "IS_PROBE" then Finite(1.0)
    else if text == "IS_HOMING" then Finite(2.0)
    else if text == "motion_flags" then Finite(frame.motion.flags as real)
    else if text == "move_joints" then Finite(frame.motion.moveJoints as real)
    else if text == "trigger_joints" then Finite(frame.motion.triggerJoints as real)
    else if Named(text, "JOINT_") then Finite(Pow2(NumberOf(text, "JOINT_")) as real)
    else if exists k: nat :: NamesAxis(text, "apos_", k) then
      var k: nat :| NamesAxis(text, "apos_", k); frame.motion.axisPosition[k]
    else if exists k: nat :: NamesAxis(text, "astart_", k) then
      var k: nat :| NamesAxis(text, "astart_", k); frame.motion.axisStart[k]
    else if exists k: nat :: NamesAxis(text, "atarget_", k) then
      var k: nat :| NamesAxis(text, "atarget_", k); frame.motion.axisTarget[k]
    else if Named(text, "jpos_") then Joint(frame.motion.jointPosition, NumberOf(text, "jpos_"))
    else if Named(text, "jstart_") then Joint(frame.motion.jointStart, NumberOf(text, "jstart_"))
    else if Named(text, "jtarget_") then Joint(frame.motion.jointTarget, NumberOf(text, "jtarget_"))
    else if exists s :: IsSymbol(env, text, s) then
      var s :| IsSymbol(env, text, s);
      if s.kind == FieldInputSymbol then Yes(s.id in frame.fieldInputs) else Yes(s.id in frame.logicalOutputs)
    else if Named(text, "fieldin") then Yes(NumberOf(text, "fieldin") in frame.fieldInputs)
    else if Named(text, "out") then Yes(NumberOf(text, "out") in frame.logicalOutputs)
    else if Named(text, "r") then
      var i := LastWriter(env, lines, n, NumberOf(text, "r"));
      if i < 0 then Finite(0.0) else LineMeans(env, lines, i, frames)
    else NonFinite
  }

  function Joint(readings: JointReadings, k: nat): Number { if k < MAX_JOINTS then readings[k] else NonFinite }

  /** Whether a text has been on, frame by frame. */
  ghost function Past(env: Environment, lines: seq<Line>, n: nat, text: string, frames: seq<Frame>): (s: seq<bool>)
    requires n <= |lines| && frames != []
    ensures |s| == |frames|
    decreases n, 1
  {
    seq(|frames|, t requires 0 <= t < |frames| => On(Reading(env, lines, n, text, frames[..t + 1])))
  }

  /** What line `n` writes in the newest of the frames: its word's meaning, and
      for `debounce` what the window over its operand's past prescribes. */
  ghost function LineMeans(env: Environment, lines: seq<Line>, n: nat, frames: seq<Frame>): Number
    requires n < |lines| && frames != []
    decreases n, 2
  {
    var words := lines[n].tokens;
    if |words| < 3 then NonFinite
    else if words[0] == "debounce" then
      if |words| < 4 then NonFinite else Yes(Window(TicksIn(env, words[3]), Past(env, lines, n, words[2], frames)))
    else
      WordMeans(words[0], Reading(env, lines, n, words[2], frames),
                if |words| > 3 then Reading(env, lines, n, words[3], frames) else Finite(0.0))
  }

  /** A bit is lit when the line that names it means something on. */
  ghost predicate TextLights(env: Environment, lines: seq<Line>, frames: seq<Frame>, place: Place)
    requires frames != []
  {
    exists i :: 0 <= i < |lines| && |lines[i].tokens| > 1
      && PlaceOf(env, lines[i].tokens[1]) == place && On(LineMeans(env, lines, i, frames))
  }

  // ----- the compiler's operands read what their texts read

  lemma IndexIsNamed(text: string, prefix: string, capacity: nat)
    requires ParseIndex(text, prefix, capacity).Ok?
    ensures Named(text, prefix) && ParseIndex(text, prefix, capacity).value == NumberOf(text, prefix)
    ensures NumberOf(text, prefix) < capacity
  {}

  lemma AxisIsNamed(text: string, prefix: string)
    ensures forall k: nat :: NamesAxis(text, prefix, k) <==> ParseAxis(text, prefix) == Some(k)
  {
    var letters := AXIS_LETTERS;
    assert letters[0] == 'x' && letters[1] == 'y' && letters[2] == 'z' && letters[3] == 'a' && letters[4] == 'b'
        && letters[5] == 'c';
    if prefix <= text && |text| == |prefix| + 1 {
      assert text == prefix + [text[|prefix|]];
    }
    forall k: nat | NamesAxis(text, prefix, k) ensures ParseAxis(text, prefix) == Some(k) {
      assert text[|prefix|] == letters[k];
    }
  }

  lemma AxisReads(
    env: Environment, lines: seq<Line>, n: nat, text: string, operand: Operand, frames: seq<Frame>, registers: RegisterFile)
    requires n <= |lines| && frames != [] && env.reader(text).None? && ParseKeyword(text).None? && !("JOINT_" <= text)
    requires ParseAxisOperand(text) == Some(operand) && Indexable(operand)
    ensures Reading(env, lines, n, text, frames) == Value(operand, Newest(frames), registers)
  {
    hide Pow2, LastWriter, PlaceOf;
    AxisIsNamed(text, "apos_");
    AxisIsNamed(text, "astart_");
    AxisIsNamed(text, "atarget_");
    hide NamesAxis, ParseAxis;
  }

  lemma JointReads(
    env: Environment, lines: seq<Line>, n: nat, text: string, operand: Operand, frames: seq<Frame>, registers: RegisterFile)
    requires n <= |lines| && frames != [] && env.reader(text).None? && ParseKeyword(text).None? && !("JOINT_" <= text)
    requires ParseAxisOperand(text).None? && ParseJointOperand(text) == Some(Ok(operand)) && Indexable(operand)
    ensures Reading(env, lines, n, text, frames) == Value(operand, Newest(frames), registers)
  {
    hide Pow2, LastWriter, PlaceOf;
    AxisIsNamed(text, "apos_");
    AxisIsNamed(text, "astart_");
    AxisIsNamed(text, "atarget_");
    hide NamesAxis, ParseAxis;
    if "jpos_" <= text {
      IndexIsNamed(text, "jpos_", MAX_JOINTS);
    } else if "jstart_" <= text {
      IndexIsNamed(text, "jstart_", MAX_JOINTS);
    } else {
      IndexIsNamed(text, "jtarget_", MAX_JOINTS);
    }
  }

  lemma BuiltinReads(
    env: Environment, lines: seq<Line>, n: nat, text: string, operand: Operand, frames: seq<Frame>, registers: RegisterFile)
    requires n <= |lines| && frames != [] && ParseBuiltin(env.reader, text) == Some(Ok(operand)) && Indexable(operand)
    ensures Reading(env, lines, n, text, frames) == Value(operand, Newest(frames), registers)
  {
    hide Pow2, LastWriter, PlaceOf, ParseAxisOperand, ParseJointOperand, NamesAxis;
    if env.reader(text).Some? || ParseKeyword(text).Some? {
    } else if "JOINT_" <= text {
      IndexIsNamed(text, "JOINT_", MAX_JOINTS);
    } else if ParseAxisOperand(text).Some? {
      AxisReads(env, lines, n, text, operand, frames, registers);
    } else {
      JointReads(env, lines, n, text, operand, frames, registers);
    }
  }

  /** A text the keywords and the axis and joint names do not decide. */
  lemma NotBuiltin(env: Environment, text: string)
    requires ParseBuiltin(env.reader, text).None?
    ensures env.reader(text).None? && text != "IS_PROBE" && text != "IS_HOMING"
    ensures text != "motion_flags" && text != "move_joints" && text != "trigger_joints"
    ensures !("JOINT_" <= text) && !("jpos_" <= text) && !("jstart_" <= text) && !("jtarget_" <= text)
    ensures forall k: nat ::
              !NamesAxis(text, "apos_", k) && !NamesAxis(text, "astart_", k) && !NamesAxis(text, "atarget_", k)
  {
    AxisIsNamed(text, "apos_");
    AxisIsNamed(text, "astart_");
    AxisIsNamed(text, "atarget_");
  }

  lemma SymbolIsUnique(env: Environment, text: string)
    requires SymbolsOk(env)
    ensures FindSymbol(env.symbols, text).None? <==> !exists s :: IsSymbol(env, text, s)
    ensures FindSymbol(env.symbols, text).Some? ==>
              forall s :: IsSymbol(env, text, s) <==> s == FindSymbol(env.symbols, text).value
  {
    forall s, t | IsSymbol(env, text, s) && IsSymbol(env, text, t) ensures s == t {
      var i :| 0 <= i < |env.symbols| && env.symbols[i] == s;
      var j :| 0 <= j < |env.symbols| && env.symbols[j] == t;
      UniqueSymbolIsFound(env.symbols, i);
      UniqueSymbolIsFound(env.symbols, j);
    }
    if FindSymbol(env.symbols, text).Some? {
      assert IsSymbol(env, text, FindSymbol(env.symbols, text).value);
    }
  }

  /** A source that is not a register reads in the frame what its text reads. */
  lemma SourceReads(
    env: Environment, lines: seq<Line>, n: nat, text: string, operand: Operand, frames: seq<Frame>, registers: RegisterFile)
    requires n <= |lines| && frames != [] && DeclarationsOk(env)
    requires ParseOperand(env, text) == Ok(operand) && Indexable(operand)
    requires !operand.Register? && !operand.LogicalInput? && !operand.FieldOutput?
    ensures Reading(env, lines, n, text, frames) == Value(operand, Newest(frames), registers)
  {
    if ParseBuiltin(env.reader, text).Some? {
      BuiltinReads(env, lines, n, text, operand, frames, registers);
    } else {
      hide Reading, Value, ParseBuiltin, FindSymbol;
      if FindSymbol(env.symbols, text).Some? {
        SymbolReads(env, lines, n, text, operand, frames, registers);
      } else {
        IndexedReads(env, lines, n, text, operand, frames, registers);
      }
    }
  }

  lemma SymbolReads(
    env: Environment, lines: seq<Line>, n: nat, text: string, operand: Operand, frames: seq<Frame>, registers: RegisterFile)
    requires n <= |lines| && frames != [] && DeclarationsOk(env)
    requires ParseBuiltin(env.reader, text).None? && FindSymbol(env.symbols, text).Some?
    requires operand == SymbolOperand(FindSymbol(env.symbols, text).value)
    requires !operand.LogicalInput? && !operand.FieldOutput?
    ensures Reading(env, lines, n, text, frames) == Value(operand, Newest(frames), registers)
  {
    hide Pow2, LastWriter, PlaceOf, ParseBuiltin, SymbolsOk;
    NotBuiltin(env, text);
    SymbolIsUnique(env, text);
    assert IsSymbol(env, text, FindSymbol(env.symbols, text).value);
    hide FindSymbol, IsSymbol;
  }

  lemma IndexedReads(
    env: Environment, lines: seq<Line>, n: nat, text: string, operand: Operand, frames: seq<Frame>, registers: RegisterFile)
    requires n <= |lines| && frames != [] && DeclarationsOk(env) && Indexable(operand)
    requires ParseBuiltin(env.reader, text).None? && FindSymbol(env.symbols, text).None?
    requires ParseIndexed(env, text) == Ok(operand) && (operand.FieldInput? || operand.LogicalOutput?)
    ensures Reading(env, lines, n, text, frames) == Value(operand, Newest(frames), registers)
  {
    hide Pow2, LastWriter, PlaceOf, ParseBuiltin, SymbolsOk;
    NotBuiltin(env, text);
    SymbolIsUnique(env, text);
    hide FindSymbol, IsSymbol;
    if "fieldin" <= text {
      IndexIsNamed(text, "fieldin", env.fieldInputCount);
    } else {
      IndexIsNamed(text, "out", LOGICAL_CAPACITY);
    }
  }

  /** A register source reads what the last line that wrote it means. */
  lemma RegisterReads(env: Environment, lines: seq<Line>, n: nat, text: string, k: nat, frames: seq<Frame>)
    requires n <= |lines| && frames != [] && DeclarationsOk(env) && ParseOperand(env, text) == Ok(Register(k))
    ensures var i := LastWriter(env, lines, n, k);
            Reading(env, lines, n, text, frames) == if i < 0 then Finite(0.0) else LineMeans(env, lines, i, frames)
  {
    hide Pow2, LastWriter, PlaceOf;
    BuiltinIsNoRegister(env, text, k);
    NotBuiltin(env, text);
    SymbolIsUnique(env, text);
    IndexIsNamed(text, "r", REGISTER_CAPACITY);
  }

  lemma BuiltinIsNoRegister(env: Environment, text: string, k: nat)
    requires ParseOperand(env, text) == Ok(Register(k))
    ensures ParseBuiltin(env.reader, text).None? && FindSymbol(env.symbols, text).None?
    ensures ParseIndex(text, "r", REGISTER_CAPACITY) == Ok(k)
    ensures !("fieldin" <= text) && !("fieldout" <= text) && !("in" <= text) && !("out" <= text)
  {}

  /** What a compiled destination is called. */
  function PlaceFor(destination: Operand): Place {
    match destination
    case Register(k) => RegisterNumber(k)
    case LogicalInput(k) => InputBit(k)
    case FieldOutput(k) => OutputBit(k)
    case _ => NoPlace
  }

  lemma BuiltinIsNoPlace(env: Environment, text: string)
    requires ParseOperand(env, text).Ok?
    requires PlaceFor(ParseOperand(env, text).value) != NoPlace
    ensures ParseBuiltin(env.reader, text).None?
  {}

  lemma DestinationNames(env: Environment, text: string, destination: Operand)
    requires DeclarationsOk(env) && ParseOperand(env, text) == Ok(destination)
    requires destination.Register? || destination.LogicalInput? || destination.FieldOutput?
    ensures PlaceOf(env, text) == PlaceFor(destination)
  {
    BuiltinIsNoPlace(env, text);
    NotBuiltin(env, text);
    hide ParseBuiltin, DeclarationsOk, PlaceOf, ParseIndexed;
    if FindSymbol(env.symbols, text).Some? {
      SymbolDestination(env, text);
    } else {
      IndexedDestination(env, text, destination);
    }
  }

  lemma SymbolDestination(env: Environment, text: string)
    requires DeclarationsOk(env) && env.reader(text).None? && FindSymbol(env.symbols, text).Some?
    ensures PlaceOf(env, text) == PlaceFor(SymbolOperand(FindSymbol(env.symbols, text).value))
  {
    SymbolIsUnique(env, text);
    assert IsSymbol(env, text, FindSymbol(env.symbols, text).value);
    hide FindSymbol, IsSymbol, SymbolsOk;
  }

  lemma IndexedDestination(env: Environment, text: string, destination: Operand)
    requires DeclarationsOk(env) && env.reader(text).None? && FindSymbol(env.symbols, text).None?
    requires ParseIndexed(env, text) == Ok(destination)
    requires destination.Register? || destination.LogicalInput? || destination.FieldOutput?
    ensures PlaceOf(env, text) == PlaceFor(destination)
  {
    SymbolIsUnique(env, text);
    hide FindSymbol, IsSymbol, SymbolsOk;
    if "fieldout" <= text {
      IndexIsNamed(text, "fieldout", env.fieldOutputCount);
    } else if "in" <= text {
      IndexIsNamed(text, "in", LOGICAL_CAPACITY);
    } else {
      IndexIsNamed(text, "r", REGISTER_CAPACITY);
    }
  }

  // ----- the machine's words mean what the text's words mean

  function WordFor(opcode: Opcode): string {
    match opcode
    case Move => "mov" case Not => "not" case And => "and" case Or => "or" case Xor => "xor"
    case Debounce => "debounce" case Subtract => "sub" case Absolute => "abs" case LessEqual => "le"
    case GreaterEqual => "ge" case Test => "test"
  }

  lemma OpcodeIsWord(token: string, opcode: Opcode, count: nat)
    requires OpcodeOf(token) == Some((opcode, count))
    ensures token == WordFor(opcode)
  {}

  lemma {:induction false} CommonBitIsOverlap(a: nat, b: nat)
    ensures CommonBit(a, b) <==> Overlap(a, b)
    decreases a
  {
    if a == 0 || b == 0 {
      forall k: nat ensures !(Digit(a, k) && Digit(b, k)) { ZeroHasNoDigit(k); }
    } else {
      assert Pow2(0) == 1;
      if a % 2 == 1 && b % 2 == 1 {
        assert Digit(a, 0) && Digit(b, 0);
      } else {
        CommonBitIsOverlap(a / 2, b / 2);
        forall k: nat ensures Digit(a / 2, k) == Digit(a, k + 1) && Digit(b / 2, k) == Digit(b, k + 1) {
          DivideTwice(a, Pow2(k));
          DivideTwice(b, Pow2(k));
        }
        if Overlap(a / 2, b / 2) {
          var k: nat :| Digit(a / 2, k) && Digit(b / 2, k);
          assert Digit(a, k + 1) && Digit(b, k + 1);
        }
        if Overlap(a, b) {
          var k: nat :| Digit(a, k) && Digit(b, k);
          assert k > 0;
          assert Digit(a / 2, k - 1) && Digit(b / 2, k - 1);
        }
      }
    }
  }

  lemma ZeroHasNoDigit(k: nat)
    ensures !Digit(0, k)
  {
    assert 0 / Pow2(k) == 0;
  }

  lemma CombineMeansWord(opcode: Opcode, a: Number, b: Number)
    requires opcode != Debounce
    ensures Combine(opcode, a, b) == WordMeans(WordFor(opcode), a, b)
  {
    if opcode == Test && IsExactInteger(a) && IsExactInteger(b) {
      CommonBitIsOverlap(a.r.Floor, b.r.Floor);
    }
  }

  lemma OneOperand(opcode: Opcode, a: Number, b: Number, c: Number)
    requires !IsBinary(opcode)
    ensures WordMeans(WordFor(opcode), a, b) == WordMeans(WordFor(opcode), a, c)
  {}

  // ----- durations

  lemma TicksAreUnique(env: Environment, text: string, m: nat, n: nat)
    requires env.servoPeriod.Finite? && env.servoPeriod.r > 0.0 && TicksOf(env, text, m) && TicksOf(env, text, n)
    ensures m == n
  {
    if m < n { FewerLastLess(m, n - 1, env.servoPeriod.r); }
    if n < m { FewerLastLess(n, m - 1, env.servoPeriod.r); }
  }

  lemma FewerLastLess(m: nat, n: nat, period: real)
    requires m <= n && period > 0.0
    ensures forall time :: Lasts(m, period, time) ==> Lasts(n, period, time)
  {
    assert (n - m) as real * period >= 0.0;
    assert n as real * period == m as real * period + (n - m) as real * period;
  }

  lemma DurationIsScaled(reader: string -> Option<real>, text: string)
    requires ParseDuration(reader, text).Some?
    ensures EndsIn(text, "s") && |text| > UnitLength(UnitOf(text))
    ensures ParseDuration(reader, text)
         == ScaledDuration(reader, text[..|text| - UnitLength(UnitOf(text))], Seconds(UnitOf(text)))
  {
    hide ScaledDuration;
    assert Seconds(Nanoseconds) == 0.000000001 && Seconds(Microseconds) == 0.000001 && Seconds(Milliseconds) == 0.001;
    hide Seconds;
    assert EndsIn(text, "s") by {
      assert text[|text| - 1..] == [text[|text| - 1]];
    }
  }

  lemma DurationReads(env: Environment, text: string)
    requires ParseDuration(env.reader, text).Some?
    ensures EndsIn(text, "s") && |text| > UnitLength(UnitOf(text))
    ensures var digits := env.reader(text[..|text| - UnitLength(UnitOf(text))]);
            && digits.Some?
            && ParseDuration(env.reader, text).value == Product(digits.value, Seconds(UnitOf(text)))
  {
    DurationIsScaled(env.reader, text);
    hide Product, Seconds, UnitOf, EndsIn, ParseDuration;
  }

  lemma SlackOfPeriod(period: real)
    ensures CEILING_SLACK * period == period / 1000000000000.0
  {}

  lemma LineTicksAreIn(env: Environment, text: string)
    requires env.servoPeriod.Finite? && env.servoPeriod.r > 0.0 && LineTicks(env, text).Ok?
    ensures TicksIn(env, text) == LineTicks(env, text).value
  {
    var n := LineTicks(env, text).value;
    DurationReads(env, text);
    SlackOfPeriod(env.servoPeriod.r);
    hide Product, ParseDuration, Seconds, UnitOf, EndsIn, Lasts;
    var duration := ParseDuration(env.reader, text).value;
    DurationIsNonNegative(env.reader, text);
    if duration != 0.0 { DebounceTicksLastDuration(duration, env.servoPeriod.r); }
    hide DebounceTicks;
    assert TicksOf(env, text, n);
    hide TicksOf, LineTicks;
    forall m: nat | TicksOf(env, text, m) ensures m == n { TicksAreUnique(env, text, m, n); }
  }

  lemma DurationIsNonNegative(reader: string -> Option<real>, text: string)
    requires ParseDuration(reader, text).Some?
    ensures ParseDuration(reader, text).value >= 0.0
  {
    DurationIsScaled(reader, text);
    hide ParseDuration, EndsIn, Product;
    var digits := reader(text[..|text| - UnitLength(UnitOf(text))]).value;
    ProductGrows(0.0, digits, Seconds(UnitOf(text)));
    ProductOfOne(Seconds(UnitOf(text)));
  }

  // ----- whole programs

  /** The machine in the pass over the newest frame, before instruction `i`. */
  ghost function At(code: seq<Instruction>, i: nat, frames: seq<Frame>): Vm
    requires Executable(code) && i <= |code| && frames != []
  {
    var before := DebounceAfter(code, frames[..|frames| - 1]);
    Execute(code, i, Newest(frames), Vm(ZeroReadings(REGISTER_CAPACITY), {}, {}, before), true)
  }

  ghost function Computes(code: seq<Instruction>, i: nat, frames: seq<Frame>): Number
    requires Executable(code) && i < |code| && frames != []
  {
    ResultAt(code, i, Newest(frames), At(code, i, frames), true)
  }

  ghost predicate Compiled(env: Environment, lines: seq<Line>, code: seq<Instruction>) {
    DeclarationsOk(env) && DecodedAll(env, lines, code) && WellFormed(env, code) && Executable(code)
  }

  lemma WriterNames(env: Environment, lines: seq<Line>, code: seq<Instruction>, i: nat)
    requires Compiled(env, lines, code) && i < |code|
    ensures |lines[i].tokens| > 1 && PlaceOf(env, lines[i].tokens[1]) == PlaceFor(code[i].destination)
  {
    assert Decoded(env, lines[i].tokens, code[i]) && InstructionOk(env, code[..i], code[i]);
    DestinationNames(env, lines[i].tokens[1], code[i].destination);
  }

  /** A register holds what its last writer computed. */
  lemma {:induction false} RegisterIsLastWriter(
    env: Environment, lines: seq<Line>, code: seq<Instruction>, i: nat, k: nat, frames: seq<Frame>)
    requires Compiled(env, lines, code) && i <= |code| && frames != [] && k < REGISTER_CAPACITY
    ensures var j := LastWriter(env, lines, i, k);
            if j < 0 then !WrittenIn(code[..i], Register(k))
            else At(code, i, frames).registers[k] == Computes(code, j, frames)
    decreases i
  {
    hide PlaceOf, At, Computes, DecodedAll, WellFormed, DeclarationsOk, Executable;
    if i > 0 {
      RegisterIsLastWriter(env, lines, code, i - 1, k, frames);
      WriterNames(env, lines, code, i - 1);
      assert code[..i] == code[..i - 1] + [code[i - 1]];
      WrittenInExtended(code[..i - 1], code[i - 1], Register(k));
      RegisterStep(code, i - 1, k, frames);
    }
  }

  lemma RegisterStep(code: seq<Instruction>, i: nat, k: nat, frames: seq<Frame>)
    requires Executable(code) && i < |code| && frames != [] && k < REGISTER_CAPACITY
    ensures At(code, i + 1, frames).registers[k] ==
            if code[i].destination == Register(k) then Computes(code, i, frames) else At(code, i, frames).registers[k]
  {
    hide ResultAt, NextDebounce, Value;
  }

  /** Every line before `i` means what its instruction computes. */
  ghost predicate MeanBefore(env: Environment, lines: seq<Line>, code: seq<Instruction>, i: nat, frames: seq<Frame>)
    requires Executable(code) && i <= |code| == |lines| && frames != []
  {
    forall j | 0 <= j < i :: LineMeans(env, lines, j, frames) == Computes(code, j, frames)
  }

  lemma ReadingIsValue(
    env: Environment, lines: seq<Line>, code: seq<Instruction>, i: nat, text: string, operand: Operand, frames: seq<Frame>)
    requires Compiled(env, lines, code) && i < |code| && frames != [] && MeanBefore(env, lines, code, i, frames)
    requires ParseOperand(env, text) == Ok(operand) && Indexable(operand) && SourceOk(env, code[..i], operand)
    ensures Reading(env, lines, i, text, frames) == Value(operand, Newest(frames), At(code, i, frames).registers)
  {
    hide LineMeans, Reading, DeclarationsOk, ParseOperand, LastWriter;
    if operand.Register? {
      RegisterReads(env, lines, i, text, operand.index, frames);
      RegisterIsLastWriter(env, lines, code, i, operand.index, frames);
    } else {
      SourceReads(env, lines, i, text, operand, frames, At(code, i, frames).registers);
    }
  }

  lemma {:induction false} SampleAt(code: seq<Instruction>, i: nat, frames: seq<Frame>, t: nat)
    requires Executable(code) && i < |code| && t < |frames|
    ensures Samples(code, i, frames)[t] == Sample(code, i, frames[t], DebounceAfter(code, frames[..t]))
    decreases |frames|
  {
    hide Sample, DebounceAfter;
    var n := |frames| - 1;
    if t < n {
      SampleAt(code, i, frames[..n], t);
      assert frames[..n][..t] == frames[..t];
    }
  }

  /** A debounce line's operand has been on exactly when the instruction sampled it so. */
  lemma PastIsSamples(env: Environment, lines: seq<Line>, code: seq<Instruction>, i: nat, frames: seq<Frame>)
    requires Compiled(env, lines, code) && i < |code| && frames != [] && |lines[i].tokens| > 2
    requires forall t | 0 <= t < |frames| :: MeanBefore(env, lines, code, i, Until(frames, t))
    ensures Past(env, lines, i, lines[i].tokens[2], frames) == Samples(code, i, frames)
  {
    hide Reading, LineMeans, DeclarationsOk, ParseOperand, MeanBefore, Value, Execute;
    var past, samples := Past(env, lines, i, lines[i].tokens[2], frames), Samples(code, i, frames);
    assert Decoded(env, lines[i].tokens, code[i]) && InstructionOk(env, code[..i], code[i]);
    forall t | 0 <= t < |frames| ensures past[t] == samples[t] {
      SampleAt(code, i, frames, t);
      assert Until(frames, t)[..t] == frames[..t] && Until(frames, t)[t] == frames[t];
      ReadingIsValue(env, lines, code, i, lines[i].tokens[2], code[i].first, Until(frames, t));
    }
  }

  /** Line `i` of the text means exactly what instruction `i` computes. */
  lemma {:induction false} LineMeansResult(
    env: Environment, lines: seq<Line>, code: seq<Instruction>, i: nat, frames: seq<Frame>)
    requires Compiled(env, lines, code) && i < |code| && frames != []
    ensures LineMeans(env, lines, i, frames) == Computes(code, i, frames)
    decreases i
  {
    assert |code| == |lines| && Executable(code);
    hide LineMeans, Computes, Compiled;
    forall t | 0 <= t < |frames| ensures MeanBefore(env, lines, code, i, Until(frames, t)) {
      forall j | 0 <= j < i ensures LineMeans(env, lines, j, Until(frames, t)) == Computes(code, j, Until(frames, t)) {
        LineMeansResult(env, lines, code, j, Until(frames, t));
      }
    }
    assert Until(frames, |frames| - 1) == frames;
    LineFollows(env, lines, code, i, frames);
  }

  lemma LineFollows(env: Environment, lines: seq<Line>, code: seq<Instruction>, i: nat, frames: seq<Frame>)
    requires Compiled(env, lines, code) && i < |code| && frames != [] && MeanBefore(env, lines, code, i, frames)
    requires forall t | 0 <= t < |frames| :: MeanBefore(env, lines, code, i, Until(frames, t))
    ensures LineMeans(env, lines, i, frames) == Computes(code, i, frames)
  {
    var words, ins := lines[i].tokens, code[i];
    assert Decoded(env, words, ins) && InstructionOk(env, code[..i], ins);
    OpcodeIsWord(words[0], ins.opcode, |words|);
    if ins.opcode == Debounce {
      DebounceLineFollows(env, lines, code, i, frames);
    } else {
      PlainLineFollows(env, lines, code, i, frames);
    }
  }

  lemma DebounceLineFollows(env: Environment, lines: seq<Line>, code: seq<Instruction>, i: nat, frames: seq<Frame>)
    requires Compiled(env, lines, code) && i < |code| && frames != []
    requires Decoded(env, lines[i].tokens, code[i]) && lines[i].tokens[0] == "debounce" && code[i].opcode == Debounce
    requires forall t | 0 <= t < |frames| :: MeanBefore(env, lines, code, i, Until(frames, t))
    ensures LineMeans(env, lines, i, frames) == Computes(code, i, frames)
  {
    hide Reading, Past, Samples, MeanBefore, DeclarationsOk, ParseOperand, LineTicks, TicksIn, Window, ResultAt, Execute,
      DebounceAfter, WordMeans;
    PastIsSamples(env, lines, code, i, frames);
    LineTicksAreIn(env, lines[i].tokens[3]);
    DebounceInstructionIsWindowed(code, i, frames);
  }

  lemma PlainLineFollows(env: Environment, lines: seq<Line>, code: seq<Instruction>, i: nat, frames: seq<Frame>)
    requires Compiled(env, lines, code) && i < |code| && frames != [] && MeanBefore(env, lines, code, i, frames)
    requires Decoded(env, lines[i].tokens, code[i]) && InstructionOk(env, code[..i], code[i])
    requires code[i].opcode != Debounce && lines[i].tokens[0] == WordFor(code[i].opcode) && lines[i].tokens[0] != "debounce"
    ensures LineMeans(env, lines, i, frames) == Computes(code, i, frames)
  {
    hide Reading, MeanBefore, DeclarationsOk, ParseOperand, WordMeans, Combine, Value, Execute, WordFor, At;
    var words, ins := lines[i].tokens, code[i];
    var vm := At(code, i, frames);
    ReadingIsValue(env, lines, code, i, words[2], ins.first, frames);
    var a := Value(ins.first, Newest(frames), vm.registers);
    var b := Value(ins.second, Newest(frames), vm.registers);
    CombineMeansWord(ins.opcode, a, b);
    if IsBinary(ins.opcode) {
      ReadingIsValue(env, lines, code, i, words[3], ins.second, frames);
    } else {
      OneOperand(ins.opcode, a, b, Finite(0.0));
      if |words| > 3 { OneOperand(ins.opcode, a, b, Reading(env, lines, i, words[3], frames)); }
    }
  }

  /** End to end: for every text that compiles and every run of frames, each bit
      of the images after a tick is lit if and only if the line of the text that
      names it means something on, in the frames seen so far. */
  lemma TickMeansText(env: Environment, source: string, code: seq<Instruction>, frames: seq<Frame>, destination: Operand)
    requires Accepted(env, source, code) && Executable(code) && frames != [] && IsImageBit(destination)
    ensures var n := |frames| - 1;
            Lit(Pass(code, frames[n], DebounceAfter(code, frames[..n]), true), destination) <==>
            TextLights(env, LinesFrom(source, 0), frames, PlaceFor(destination))
  {
    var n := |frames| - 1;
    var i := ImagesAreTheirWriters(env, source, code, destination, frames[n], DebounceAfter(code, frames[..n]), true);
    LightsAreResults(env, LinesFrom(source, 0), code, i, frames, destination);
  }

  /** With at most one instruction writing a bit, the text lights it exactly when that one computes something on. */
  lemma LightsAreResults(
    env: Environment, lines: seq<Line>, code: seq<Instruction>, i: nat, frames: seq<Frame>, destination: Operand)
    requires Compiled(env, lines, code) && frames != [] && IsImageBit(destination)
    requires forall j | 0 <= j < |code| && code[j].destination == destination :: j == i
    ensures TextLights(env, lines, frames, PlaceFor(destination)) <==>
            i < |code| && code[i].destination == destination && Truth(Computes(code, i, frames))
  {
    hide LineMeans, Computes, PlaceOf;
    forall j | 0 <= j < |code|
      ensures |lines[j].tokens| > 1 && PlaceOf(env, lines[j].tokens[1]) == PlaceFor(code[j].destination)
      ensures LineMeans(env, lines, j, frames) == Computes(code, j, frames)
    {
      WriterNames(env, lines, code, j);
      LineMeansResult(env, lines, code, j, frames);
    }
    hide DecodedAll, WellFormed, DeclarationsOk, Executable;
    assert |code| == |lines|;
    if i < |code| && code[i].destination == destination {
      assert PlaceOf(env, lines[i].tokens[1]) == PlaceFor(destination);
    }
  }

  /** The same of the registers: after a tick each holds what the last line that
      names it means. */
  lemma RegisterMeansText(env: Environment, source: string, code: seq<Instruction>, frames: seq<Frame>, k: nat)
    requires Accepted(env, source, code) && Executable(code) && frames != [] && k < REGISTER_CAPACITY
    ensures var (lines, n) := (LinesFrom(source, 0), |frames| - 1);
            var i := LastWriter(env, lines, |lines|, k);
            i >= 0 ==>
              Pass(code, frames[n], DebounceAfter(code, frames[..n]), true).registers[k] == LineMeans(env, lines, i, frames)
  {
    hide PlaceOf, LineMeans, LinesFrom, Execute;
    var lines := LinesFrom(source, 0);
    RegisterIsLastWriter(env, lines, code, |code|, k, frames);
    var i := LastWriter(env, lines, |lines|, k);
    if i >= 0 {
      LineMeansResult(env, lines, code, i, frames);
    }
  }
}
