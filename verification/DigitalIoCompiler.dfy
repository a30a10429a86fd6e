/** Compilation of digital I/O program text (src/DigitalIoProgram.cpp, `compile`):
    tokenising, per-line checks, and what an accepted program guarantees. */
module DigitalIoCompiler {
  import opened Text
  import opened Doubles
  import opened Arithmetic
  import opened DigitalIoLanguage

  datatype Opcode =
    | Move | Not | And | Or | Xor | Debounce | Subtract | Absolute | LessEqual | GreaterEqual | Test

  datatype Instruction = Instruction(
    opcode: Opcode, destination: Operand, first: Operand, second: Operand, debounceTicks: nat)

  datatype Program = Program(
    instructions: seq<Instruction>,
    fieldInputCount: nat, logicalInputCount: nat, fieldOutputCount: nat, logicalOutputCount: nat)

  datatype LineError =
    | UnknownOpcode
    | WrongOperandCount
    | BadOperand(error: OperandError)
    | ReadsWriteOnly
    | ReadsUndeclaredOutput(output: nat)
    | ReadsUninitialized(register: nat)
    | BadDuration
    | DurationExceedsCapacity
    | InvalidDestination
    | WritesUndeclaredInput(input: nat)
    | InputWrittenTwice(input: nat)
    | OutputWrittenTwice(output: nat)

  datatype CompileError =
    | TooManyFieldInputs
    | TooManyFieldOutputs
    | BadServoPeriod
    | DuplicateInput(id: nat)
    | DuplicateOutput(id: nat)
    | BadSymbol(symbol: Symbol)
    | DuplicateSymbol(symbol: Symbol)
    | DanglingSymbol(symbol: Symbol)
    | TooManyInstructions
    | AtLine(number: nat, error: LineError)
    | InputNotWritten(id: nat)
    | OutputNotWritten(id: nat)

  // ----- tokenising

  datatype Line = Line(number: nat, tokens: seq<string>)

  predicate IsSpace(c: char) {
    c == ' ' || c == '\t' || c == '\n' || c == '\r' || c == '\U{0B}' || c == '\U{0C}'
  }

  predicate IsSeparator(c: char) { IsSpace(c) || c == ',' }

  predicate IsWordChar(c: char) { !IsSeparator(c) }

  predicate IsComment(c: char) { c == '#' || c == ';' }

  predicate IsNewline(c: char) { c == '\n' }

  /** Index of the first character from `from` on for which `stop` holds, or the length. */
  function Scan(s: string, from: nat, stop: char -> bool): (k: nat)
    requires from <= |s|
    ensures from <= k <= |s|
    ensures forall i | from <= i < k :: !stop(s[i])
    ensures k < |s| ==> stop(s[k])
    decreases |s| - from
  {
    if from == |s| || stop(s[from]) then from else Scan(s, from + 1, stop)
  }

  function WordsFrom(s: string, from: nat): seq<string>
    requires from <= |s|
    decreases |s| - from
  {
    var start := Scan(s, from, IsWordChar);
    if start == |s| then []
    else
      var end := Scan(s, start, IsSeparator);
      [s[start..end]] + WordsFrom(s, end)
  }

  function LineTokens(line: string): seq<string> {
    WordsFrom(line[..Scan(line, 0, IsComment)], 0)
  }

  function FirstLine(text: string, number: nat): (lines: seq<Line>)
    ensures forall l | l in lines :: l.tokens != [] && l.number == number
  {
    var tokens := LineTokens(text[..Scan(text, 0, IsNewline)]);
    if tokens == [] then [] else [Line(number, tokens)]
  }

  function AfterLine(text: string): (rest: string)
    requires text != ""
    ensures |rest| < |text|
  {
    var end := Scan(text, 0, IsNewline);
    if end == |text| then "" else text[end + 1..]
  }

  /** The non-empty lines of a text, numbered from `number + 1`. */
  function LinesFrom(text: string, number: nat): (lines: seq<Line>)
    ensures forall l | l in lines :: l.tokens != [] && l.number > number
    decreases |text|
  {
    if text == "" then [] else FirstLine(text, number + 1) + LinesFrom(AfterLine(text), number + 1)
  }

  method Tokenize(source: string) returns (lines: seq<Line>)
    ensures lines == LinesFrom(source, 0)
  {
    lines := [];
    var rest, number := source, 0;
    while rest != ""
      invariant lines + LinesFrom(rest, number) == LinesFrom(source, 0)
      decreases |rest|
    {
      number := number + 1;
      var line := FirstLine(rest, number);
      assert lines + (line + LinesFrom(AfterLine(rest), number)) == (lines + line) + LinesFrom(AfterLine(rest), number);
      lines, rest := lines + line, AfterLine(rest);
    }
  }

  // ----- durations

  predicate HasSuffix(text: string, suffix: string) {
    |text| > |suffix| && text[|text| - |suffix|..] == suffix
  }

  function ScaledDuration(reader: string -> Option<real>, digits: string, scale: real): Option<real> {
    match reader(digits)
    case Some(v) => if v < 0.0 then None else Some(Product(v, scale))
    case None => None
  }

  function ParseDuration(reader: string -> Option<real>, text: string): Option<real> {
    var n := |text|;
    if HasSuffix(text, "ns") then ScaledDuration(reader, text[..n - 2], 0.000000001)
    else if HasSuffix(text, "us") then ScaledDuration(reader, text[..n - 2], 0.000001)
    else if HasSuffix(text, "ms") then ScaledDuration(reader, text[..n - 2], 0.001)
    else if HasSuffix(text, "s") then ScaledDuration(reader, text[..n - 1], 1.0)
    else None
  }

  function Ceiling(x: real): int { -((-x).Floor) }

  const CEILING_SLACK := 0.000000000001

  /** Servo ticks a debounce must see; zero only for a zero duration. */
  function DebounceTicks(duration: real, period: real): nat
    requires period > 0.0
  {
    if duration == 0.0 then 0
    else
      var ticks := Ceiling(duration / period - CEILING_SLACK);
      if ticks < 1 then 1 else ticks
  }

  /** `n` periods last at least `time`. */
  ghost predicate Lasts(n: int, period: real, time: real) { n as real * period >= time }

  lemma LastsByPeriods(n: int, period: real, periods: real)
    requires period > 0.0
    ensures Lasts(n, period, periods * period) <==> n as real >= periods
  {
    assert (n as real - periods) * period == n as real * period - periods * period;
  }

  /** The tick count is the least positive one that lasts the duration, up to
      the slack of 1e-12 periods the source allows. */
  lemma DebounceTicksLastDuration(duration: real, period: real)
    requires period > 0.0 && duration > 0.0
    ensures var n := DebounceTicks(duration, period);
            && n >= 1
            && Lasts(n, period, duration - CEILING_SLACK * period)
            && (n > 1 ==> !Lasts(n - 1, period, duration - CEILING_SLACK * period))
  {
    var n := DebounceTicks(duration, period);
    var x := duration / period - CEILING_SLACK;
    assert x * period == duration - CEILING_SLACK * period;
    LastsByPeriods(n, period, x);
    LastsByPeriods(n - 1, period, x);
  }

  // ----- one line

  function OpcodeOf(token: string): Option<(Opcode, nat)> {
    if token == "mov" then Some((Move, 3))
    else if token == "not" then Some((Not, 3))
    else if token == "and" then Some((And, 4))
    else if token == "or" then Some((Or, 4))
    else if token == "xor" then Some((Xor, 4))
    else if token == "debounce" then Some((Debounce, 4))
    else if token == "sub" then Some((Subtract, 4))
    else if token == "abs" then Some((Absolute, 3))
    else if token == "le" then Some((LessEqual, 4))
    else if token == "ge" then Some((GreaterEqual, 4))
    else if token == "test" then Some((Test, 4))
    else None
  }

  predicate IsBinary(opcode: Opcode) {
    opcode in {And, Or, Xor, Subtract, LessEqual, GreaterEqual, Test}
  }

  const NO_OPERAND := Constant(Finite(0.0))

  /** The destinations assigned so far: the three bitsets of `compile`. */
  datatype Written = Written(registers: set<nat>, inputs: set<nat>, outputs: set<nat>)

  function SourceError(env: Environment, written: Written, operand: Operand): Option<LineError> {
    match operand
    case LogicalInput(_) => Some(ReadsWriteOnly)
    case FieldOutput(_) => Some(ReadsWriteOnly)
    case LogicalOutput(k) => if k in env.logicalOutputs then None else Some(ReadsUndeclaredOutput(k))
    case Register(k) => if k in written.registers then None else Some(ReadsUninitialized(k))
    case _ => None
  }

  function DestinationError(env: Environment, written: Written, operand: Operand): Option<LineError> {
    match operand
    case Register(_) => None
    case LogicalInput(k) =>
      if k !in env.logicalInputs then Some(WritesUndeclaredInput(k))
      else if k in written.inputs then Some(InputWrittenTwice(k))
      else None
    case FieldOutput(k) => if k in written.outputs then Some(OutputWrittenTwice(k)) else None
    case _ => Some(InvalidDestination)
  }

  function Assign(written: Written, operand: Operand): Written {
    match operand
    case Register(k) => written.(registers := written.registers + {k})
    case LogicalInput(k) => written.(inputs := written.inputs + {k})
    case FieldOutput(k) => written.(outputs := written.outputs + {k})
    case _ => written
  }

  function ReadSource(env: Environment, written: Written, text: string): Result<Operand, LineError> {
    match ParseOperand(env, text)
    case Err(e) => Err(BadOperand(e))
    case Ok(operand) =>
      match SourceError(env, written, operand)
      case Some(e) => Err(e)
      case None => Ok(operand)
  }

  function LineTicks(env: Environment, text: string): Result<nat, LineError>
    requires env.servoPeriod.Finite? && env.servoPeriod.r > 0.0
  {
    match ParseDuration(env.reader, text)
    case None => Err(BadDuration)
    case Some(d) =>
      var ticks := DebounceTicks(d, env.servoPeriod.r);
      if ticks >= UINT32_LIMIT then Err(DurationExceedsCapacity) else Ok(ticks)
  }

  function CheckOperands(env: Environment, written: Written, opcode: Opcode, tokens: seq<string>)
    : Result<Instruction, LineError>
    requires env.servoPeriod.Finite? && env.servoPeriod.r > 0.0
    requires |tokens| == if IsBinary(opcode) || opcode == Debounce then 4 else 3
  {
    match ParseOperand(env, tokens[1])
    case Err(e) => Err(BadOperand(e))
    case Ok(destination) =>
      match ReadSource(env, written, tokens[2])
      case Err(e) => Err(e)
      case Ok(first) =>
        match (if IsBinary(opcode) then ReadSource(env, written, tokens[3]) else Ok(NO_OPERAND))
        case Err(e) => Err(e)
        case Ok(second) =>
          match (if opcode == Debounce then LineTicks(env, tokens[3]) else Ok(0))
          case Err(e) => Err(e)
          case Ok(ticks) =>
            match DestinationError(env, written, destination)
            case Some(e) => Err(e)
            case None => Ok(Instruction(opcode, destination, first, second, ticks))
  }

  /** One pass of the compile loop, with the checks in the source's order. */
  function CheckLine(env: Environment, written: Written, tokens: seq<string>): Result<Instruction, LineError>
    requires env.servoPeriod.Finite? && env.servoPeriod.r > 0.0
    requires tokens != []
  {
    match OpcodeOf(tokens[0])
    case None => Err(UnknownOpcode)
    case Some((opcode, expected)) =>
      if |tokens| != expected then Err(WrongOperandCount)
      else CheckOperands(env, written, opcode, tokens)
  }

  // ----- what acceptance means

  /** What a line says, independently of every other line. */
  ghost predicate Decoded(env: Environment, tokens: seq<string>, ins: Instruction) {
    && tokens != []
    && env.servoPeriod.Finite? && env.servoPeriod.r > 0.0
    && OpcodeOf(tokens[0]) == Some((ins.opcode, |tokens|))
    && ParseOperand(env, tokens[1]) == Ok(ins.destination)
    && ParseOperand(env, tokens[2]) == Ok(ins.first)
    && (if IsBinary(ins.opcode) then ParseOperand(env, tokens[3]) == Ok(ins.second)
        else ins.second == NO_OPERAND)
    && (if ins.opcode == Debounce then LineTicks(env, tokens[3]) == Ok(ins.debounceTicks)
        else ins.debounceTicks == 0)
  }

  ghost predicate WrittenIn(before: seq<Instruction>, destination: Operand) {
    exists j | 0 <= j < |before| :: before[j].destination == destination
  }

  /** A source may be read after `before`: never write-only, logical outputs
      declared, registers written by an earlier instruction. */
  ghost predicate SourceOk(env: Environment, before: seq<Instruction>, operand: Operand) {
    && !operand.LogicalInput? && !operand.FieldOutput?
    && (operand.LogicalOutput? ==> operand.index in env.logicalOutputs)
    && (operand.Register? ==> WrittenIn(before, operand))
  }

  /** A destination may be written after `before`: registers freely, declared
      logical inputs and field outputs once. */
  ghost predicate DestinationOk(env: Environment, before: seq<Instruction>, operand: Operand) {
    && (operand.Register? || operand.LogicalInput? || operand.FieldOutput?)
    && (operand.LogicalInput? ==> operand.index in env.logicalInputs)
    && (!operand.Register? ==> !WrittenIn(before, operand))
  }

  ghost predicate InstructionOk(env: Environment, before: seq<Instruction>, ins: Instruction) {
    && SourceOk(env, before, ins.first)
    && (IsBinary(ins.opcode) ==> SourceOk(env, before, ins.second))
    && DestinationOk(env, before, ins.destination)
  }

  /** Definite assignment and single writers. */
  ghost predicate WellFormed(env: Environment, code: seq<Instruction>) {
    forall i | 0 <= i < |code| :: InstructionOk(env, code[..i], code[i])
  }

  /** Every declared logical input and every field output has a writer. */
  ghost predicate Covered(env: Environment, code: seq<Instruction>) {
    && (forall id | id in env.logicalInputs :: WrittenIn(code, LogicalInput(id)))
    && (forall k: nat | k < env.fieldOutputCount :: WrittenIn(code, FieldOutput(k)))
  }

  ghost predicate DecodedAll(env: Environment, lines: seq<Line>, code: seq<Instruction>) {
    && |code| == |lines|
    && forall k | 0 <= k < |lines| :: Decoded(env, lines[k].tokens, code[k])
  }

  /** The declarative meaning of "this text compiles to this code". */
  ghost predicate Accepted(env: Environment, source: string, code: seq<Instruction>) {
    && DeclarationsOk(env)
    && |LinesFrom(source, 0)| <= INSTRUCTION_CAPACITY
    && DecodedAll(env, LinesFrom(source, 0), code)
    && WellFormed(env, code)
    && Covered(env, code)
  }

  ghost predicate Tracks(written: Written, code: seq<Instruction>) {
    && (forall k: nat :: k in written.registers <==> WrittenIn(code, Register(k)))
    && (forall k: nat :: k in written.inputs <==> WrittenIn(code, LogicalInput(k)))
    && (forall k: nat :: k in written.outputs <==> WrittenIn(code, FieldOutput(k)))
  }

  lemma WrittenInExtended(code: seq<Instruction>, ins: Instruction, d: Operand)
    ensures WrittenIn(code + [ins], d) <==> WrittenIn(code, d) || ins.destination == d
  {
    if WrittenIn(code, d) {
      var j :| 0 <= j < |code| && code[j].destination == d;
      assert (code + [ins])[j].destination == d;
    }
    if ins.destination == d {
      assert (code + [ins])[|code|].destination == d;
    }
  }

  lemma AssignTracks(written: Written, code: seq<Instruction>, ins: Instruction)
    requires Tracks(written, code)
    ensures Tracks(Assign(written, ins.destination), code + [ins])
  {
    forall d: Operand ensures WrittenIn(code + [ins], d) <==> WrittenIn(code, d) || ins.destination == d {
      WrittenInExtended(code, ins, d);
    }
  }

  lemma SourceErrorMeaning(env: Environment, written: Written, code: seq<Instruction>, operand: Operand)
    requires Tracks(written, code)
    ensures SourceError(env, written, operand).None? <==> SourceOk(env, code, operand)
  {}

  lemma DestinationErrorMeaning(env: Environment, written: Written, code: seq<Instruction>, operand: Operand)
    requires Tracks(written, code)
    ensures DestinationError(env, written, operand).None? <==> DestinationOk(env, code, operand)
  {}

  /** The ordered checks of one line accept exactly the lines that decode and
      respect definite assignment and single writers. */
  lemma CheckLineMeaning(env: Environment, written: Written, code: seq<Instruction>, tokens: seq<string>, ins: Instruction)
    requires env.servoPeriod.Finite? && env.servoPeriod.r > 0.0 && tokens != []
    requires Tracks(written, code)
    ensures CheckLine(env, written, tokens) == Ok(ins) <==>
            Decoded(env, tokens, ins) && InstructionOk(env, code, ins)
  {
    SourceErrorMeaning(env, written, code, ins.first);
    SourceErrorMeaning(env, written, code, ins.second);
    DestinationErrorMeaning(env, written, code, ins.destination);
  }

  lemma DecodingIsUnique(env: Environment, lines: seq<Line>, a: seq<Instruction>, b: seq<Instruction>)
    requires |a| <= |b| <= |lines|
    requires forall k | 0 <= k < |a| :: Decoded(env, lines[k].tokens, a[k])
    requires forall k | 0 <= k < |b| :: Decoded(env, lines[k].tokens, b[k])
    ensures a == b[..|a|]
  {}

  // ----- the compiler

  function WrittenBy(code: seq<Instruction>): Written {
    if code == [] then Written({}, {}, {})
    else Assign(WrittenBy(code[..|code| - 1]), code[|code| - 1].destination)
  }

  lemma {:induction false} WrittenByTracks(code: seq<Instruction>)
    ensures Tracks(WrittenBy(code), code)
  {
    if code != [] {
      var n := |code| - 1;
      WrittenByTracks(code[..n]);
      AssignTracks(WrittenBy(code[..n]), code[..n], code[n]);
      assert code == code[..n] + [code[n]];
    }
  }

  ghost predicate RepeatedId(ids: seq<Id16>, id: nat) {
    exists i, j | 0 <= i < j < |ids| :: ids[i] == ids[j] == id
  }

  /** The code `code` of the lines before line `k`, accepted so far. */
  ghost predicate AcceptedPrefix(env: Environment, lines: seq<Line>, code: seq<Instruction>) {
    && |code| <= |lines|
    && (forall k | 0 <= k < |code| :: Decoded(env, lines[k].tokens, code[k]))
    && WellFormed(env, code)
  }

  ghost predicate LineErrorHolds(env: Environment, lines: seq<Line>, number: nat, error: LineError, code: seq<Instruction>) {
    && env.servoPeriod.Finite? && env.servoPeriod.r > 0.0
    && AcceptedPrefix(env, lines, code)
    && |code| < |lines|
    && lines[|code|].number == number
    && lines[|code|].tokens != []
    && CheckLine(env, WrittenBy(code), lines[|code|].tokens) == Err(error)
  }

  /** What each error about the declarations asserts. */
  ghost predicate DeclarationErrorHolds(env: Environment, error: CompileError) {
    match error
    case TooManyFieldInputs => env.fieldInputCount > FIELD_INPUT_CAPACITY
    case TooManyFieldOutputs => env.fieldOutputCount > FIELD_OUTPUT_CAPACITY
    case BadServoPeriod => env.servoPeriod.NonFinite? || env.servoPeriod.r <= 0.0
    case DuplicateInput(id) => RepeatedId(env.logicalInputs, id)
    case DuplicateOutput(id) => RepeatedId(env.logicalOutputs, id)
    case BadSymbol(s) => s in env.symbols && !SymbolNameOk(s)
    case DuplicateSymbol(s) =>
      exists i, j | 0 <= i < j < |env.symbols| :: env.symbols[i].name == env.symbols[j].name && env.symbols[j] == s
    case DanglingSymbol(s) => s in env.symbols && !SymbolReferenceOk(env, s)
    case _ => false
  }

  /** What every error asserts. */
  ghost predicate ErrorHolds(env: Environment, lines: seq<Line>, error: CompileError) {
    match error
    case TooManyInstructions => |lines| > INSTRUCTION_CAPACITY
    case AtLine(number, e) => exists code :: LineErrorHolds(env, lines, number, e, code)
    case InputNotWritten(id) =>
      && id in env.logicalInputs
      && exists code :: DecodedAll(env, lines, code) && !WrittenIn(code, LogicalInput(id))
    case OutputNotWritten(k) =>
      && k < env.fieldOutputCount
      && exists code :: DecodedAll(env, lines, code) && !WrittenIn(code, FieldOutput(k))
    case _ => DeclarationErrorHolds(env, error)
  }

  method FindRepeated(ids: seq<Id16>) returns (repeated: Option<Id16>)
    ensures repeated.None? ==> Distinct(ids)
    ensures repeated.Some? ==> RepeatedId(ids, repeated.value)
  {
    var declared: set<Id16> := {};
    for n := 0 to |ids|
      invariant forall id :: id in declared <==> exists i | 0 <= i < n :: ids[i] == id
      invariant Distinct(ids[..n])
    {
      if ids[n] in declared {
        return Some(ids[n]);
      }
      declared := declared + {ids[n]};
    }
    assert ids[..|ids|] == ids;
    return None;
  }

  method CheckSymbols(env: Environment) returns (error: Option<CompileError>)
    ensures error.None? ==> SymbolsOk(env)
    ensures error.Some? ==> DeclarationErrorHolds(env, error.value) && !SymbolsOk(env)
  {
    for n := 0 to |env.symbols|
      invariant forall i | 0 <= i < n :: SymbolNameOk(env.symbols[i]) && SymbolReferenceOk(env, env.symbols[i])
      invariant forall i, j | 0 <= i < j < n :: env.symbols[i].name != env.symbols[j].name
    {
      var symbol := env.symbols[n];
      if !SymbolNameOk(symbol) {
        return Some(BadSymbol(symbol));
      }
      if FindSymbol(env.symbols[..n], symbol.name).Some? {
        return Some(DuplicateSymbol(symbol));
      }
      if !SymbolReferenceOk(env, symbol) {
        return Some(DanglingSymbol(symbol));
      }
    }
    return None;
  }

  method CheckDeclarations(env: Environment) returns (error: Option<CompileError>)
    ensures error.None? <==> DeclarationsOk(env)
    ensures error.Some? ==> DeclarationErrorHolds(env, error.value)
  {
    if env.fieldInputCount > FIELD_INPUT_CAPACITY {
      return Some(TooManyFieldInputs);
    }
    if env.fieldOutputCount > FIELD_OUTPUT_CAPACITY {
      return Some(TooManyFieldOutputs);
    }
    if env.servoPeriod.NonFinite? || env.servoPeriod.r <= 0.0 {
      return Some(BadServoPeriod);
    }
    var input := FindRepeated(env.logicalInputs);
    if input.Some? {
      return Some(DuplicateInput(input.value));
    }
    var output := FindRepeated(env.logicalOutputs);
    if output.Some? {
      return Some(DuplicateOutput(output.value));
    }
    error := CheckSymbols(env);
  }

  lemma WellFormedExtended(env: Environment, code: seq<Instruction>, ins: Instruction)
    ensures WellFormed(env, code + [ins]) <==> WellFormed(env, code) && InstructionOk(env, code, ins)
  {
    var longer := code + [ins];
    assert longer[..|code|] == code;
    forall i | 0 <= i < |code| ensures longer[..i] == code[..i] && longer[i] == code[i] {}
    if WellFormed(env, longer) {
      forall i | 0 <= i < |code| ensures InstructionOk(env, code[..i], code[i]) {
        assert InstructionOk(env, longer[..i], longer[i]);
      }
      assert InstructionOk(env, longer[..|code|], longer[|code|]);
    }
  }

  /** A line that fails its checks after an accepted prefix rules out every program. */
  lemma FailedLineRulesOut(env: Environment, lines: seq<Line>, code: seq<Instruction>, other: seq<Instruction>)
    requires env.servoPeriod.Finite? && env.servoPeriod.r > 0.0
    requires AcceptedPrefix(env, lines, code) && |code| < |lines| && lines[|code|].tokens != []
    requires CheckLine(env, WrittenBy(code), lines[|code|].tokens).Err?
    ensures !(DecodedAll(env, lines, other) && WellFormed(env, other))
  {
    if DecodedAll(env, lines, other) && WellFormed(env, other) {
      var n := |code|;
      DecodingIsUnique(env, lines, code, other);
      WrittenByTracks(code);
      assert InstructionOk(env, other[..n], other[n]);
      CheckLineMeaning(env, WrittenBy(code), code, lines[n].tokens, other[n]);
      assert false;
    }
  }

  method CompileLines(env: Environment, lines: seq<Line>)
    returns (r: Result<seq<Instruction>, CompileError>, written: Written)
    requires env.servoPeriod.Finite? && env.servoPeriod.r > 0.0
    requires forall l | l in lines :: l.tokens != []
    ensures r.Ok? ==> DecodedAll(env, lines, r.value) && WellFormed(env, r.value) && Tracks(written, r.value)
    ensures r.Err? ==> ErrorHolds(env, lines, r.error)
    ensures r.Err? ==> forall code :: !(DecodedAll(env, lines, code) && WellFormed(env, code))
  {
    var code: seq<Instruction> := [];
    written := Written({}, {}, {});
    for n := 0 to |lines|
      invariant |code| == n && AcceptedPrefix(env, lines, code)
      invariant written == WrittenBy(code)
    {
      match CheckLine(env, written, lines[n].tokens)
      case Err(e) =>
        assert LineErrorHolds(env, lines, lines[n].number, e, code);
        forall other ensures !(DecodedAll(env, lines, other) && WellFormed(env, other)) {
          FailedLineRulesOut(env, lines, code, other);
        }
        return Err(AtLine(lines[n].number, e)), written;
      case Ok(ins) =>
        WrittenByTracks(code);
        CheckLineMeaning(env, written, code, lines[n].tokens, ins);
        WellFormedExtended(env, code, ins);
        assert (code + [ins])[..n] == code;
        written := Assign(written, ins.destination);
        code := code + [ins];
    }
    WrittenByTracks(code);
    return Ok(code), written;
  }

  method CheckCoverage(env: Environment, ghost lines: seq<Line>, ghost code: seq<Instruction>, written: Written)
    returns (error: Option<CompileError>)
    requires DecodedAll(env, lines, code) && Tracks(written, code)
    ensures error.None? <==> Covered(env, code)
    ensures error.Some? ==> ErrorHolds(env, lines, error.value)
  {
    for n := 0 to |env.logicalInputs|
      invariant forall i | 0 <= i < n :: WrittenIn(code, LogicalInput(env.logicalInputs[i]))
    {
      if env.logicalInputs[n] !in written.inputs {
        return Some(InputNotWritten(env.logicalInputs[n]));
      }
    }
    for k := 0 to env.fieldOutputCount
      invariant forall i: nat | i < k :: WrittenIn(code, FieldOutput(i))
    {
      if k !in written.outputs {
        return Some(OutputNotWritten(k));
      }
    }
    return None;
  }

  /** `compile`: succeeds exactly on the texts some code is `Accepted` for, with
      that code; every failure reports a defect that is there. */
  method Compile(source: string, env: Environment) returns (r: Result<Program, CompileError>)
    ensures r.Ok? ==>
              && Accepted(env, source, r.value.instructions)
              && r.value.fieldInputCount == env.fieldInputCount
              && r.value.logicalInputCount == |env.logicalInputs|
              && r.value.fieldOutputCount == env.fieldOutputCount
              && r.value.logicalOutputCount == |env.logicalOutputs|
    ensures r.Err? ==> ErrorHolds(env, LinesFrom(source, 0), r.error)
    ensures r.Err? ==> forall code :: !Accepted(env, source, code)
  {
    var declarationError := CheckDeclarations(env);
    if declarationError.Some? {
      return Err(declarationError.value);
    }
    var lines := Tokenize(source);
    if |lines| > INSTRUCTION_CAPACITY {
      return Err(TooManyInstructions);
    }
    var compiled, written := CompileLines(env, lines);
    if compiled.Err? {
      return Err(compiled.error);
    }
    var code := compiled.value;
    var uncovered := CheckCoverage(env, lines, code, written);
    if uncovered.Some? {
      forall other | DecodedAll(env, lines, other) ensures other == code {
        DecodingIsUnique(env, lines, code, other);
      }
      return Err(uncovered.value);
    }
    return Ok(Program(code, env.fieldInputCount, |env.logicalInputs|, env.fieldOutputCount, |env.logicalOutputs|));
  }

  // ----- consequences for compiled code

  /** Single writers: two instructions never share a non-register destination. */
  lemma SingleWriter(env: Environment, code: seq<Instruction>, i: nat, j: nat)
    requires WellFormed(env, code) && i < j < |code|
    requires code[i].destination == code[j].destination
    ensures code[i].destination.Register?
  {
    assert InstructionOk(env, code[..j], code[j]);
    assert code[..j][i] == code[i];
  }

  ghost predicate OperandsInRange(env: Environment, ins: Instruction) {
    && InRange(env, ins.destination) && InRange(env, ins.first) && InRange(env, ins.second)
  }

  lemma ResolvedInRange(env: Environment, text: string, operand: Operand)
    requires DeclarationsOk(env) && ParseOperand(env, text) == Ok(operand)
    ensures InRange(env, operand)
  {
    ResolvedOperandInRange(env, text);
  }

  lemma DecodedOperandsInRange(env: Environment, tokens: seq<string>, ins: Instruction)
    requires DeclarationsOk(env) && Decoded(env, tokens, ins)
    ensures OperandsInRange(env, ins)
  {
    ResolvedInRange(env, tokens[1], ins.destination);
    ResolvedInRange(env, tokens[2], ins.first);
    if IsBinary(ins.opcode) {
      ResolvedInRange(env, tokens[3], ins.second);
    }
  }

  /** No instruction of an accepted program can index outside a register file,
      image, axis or joint table. */
  lemma AcceptedOperandsInRange(env: Environment, source: string, code: seq<Instruction>)
    requires Accepted(env, source, code)
    ensures forall i | 0 <= i < |code| :: OperandsInRange(env, code[i])
  {
    forall i | 0 <= i < |code| ensures OperandsInRange(env, code[i]) {
      DecodedOperandsInRange(env, LinesFrom(source, 0)[i].tokens, code[i]);
    }
  }
}
