/** Which texts compile, and what each refusal asserts, read off the text itself
    with no opcode, operand or instruction in between. */
module DigitalIoAcceptance {
  import opened Text
  import opened Doubles
  import opened Arithmetic
  import opened Joints
  import opened DigitalIoLanguage
  import opened DigitalIoCompiler
  import opened DigitalIoMeaning

  /** The number of words an instruction has; 0 for a word that is none. */
  function WordCount(word: string): nat {
    match word
    case "mov" => 3 case "not" => 3 case "abs" => 3
    case "and" => 4 case "or" => 4 case "xor" => 4 case "sub" => 4
    case "le" => 4 case "ge" => 4 case "test" => 4 case "debounce" => 4
    case _ => 0
  }

  predicate NamedBelow(text: string, prefix: string, limit: nat) {
    Named(text, prefix) && NumberOf(text, prefix) < limit
  }

  ghost predicate NamesAnAxis(text: string) {
    exists k: nat :: NamesAxis(text, "apos_", k) || NamesAxis(text, "astart_", k) || NamesAxis(text, "atarget_", k)
  }

  predicate NamesJoint(text: string) {
    || NamedBelow(text, "JOINT_", MAX_JOINTS) || NamedBelow(text, "jpos_", MAX_JOINTS)
    || NamedBelow(text, "jstart_", MAX_JOINTS) || NamedBelow(text, "jtarget_", MAX_JOINTS)
  }

  predicate IsKeyword(text: string) {
    text == "IS_PROBE" || text == "IS_HOMING" || text == "motion_flags" || text == "move_joints" || text == "trigger_joints"
  }

  /** A number, a keyword, or the reading of an axis or joint. */
  ghost predicate NamesReading(env: Environment, text: string) {
    env.reader(text).Some? || IsKeyword(text) || NamesAnAxis(text) || NamesJoint(text)
  }

  /** What a source on line `n` may say. */
  ghost predicate Readable(env: Environment, lines: seq<Line>, n: nat, text: string)
    requires n <= |lines|
  {
    if NamesReading(env, text) then true
    else if JointPrefixed(text) then false
    else if exists s :: IsSymbol(env, text, s) then
      exists s :: IsSymbol(env, text, s) && (s.kind == FieldInputSymbol || s.kind == LogicalOutputSymbol)
    else
      || NamedBelow(text, "fieldin", env.fieldInputCount)
      || (Named(text, "out") && NumberOf(text, "out") in env.logicalOutputs)
      || (NamedBelow(text, "r", REGISTER_CAPACITY) && LastWriter(env, lines, n, NumberOf(text, "r")) >= 0)
  }

  /** One of the first `n` lines writes `place`. */
  ghost predicate WritesBefore(env: Environment, lines: seq<Line>, n: nat, place: Place)
    requires n <= |lines|
  {
    exists i | 0 <= i < n :: |lines[i].tokens| > 1 && PlaceOf(env, lines[i].tokens[1]) == place
  }

  /** What a destination on line `n` may say. */
  ghost predicate Writable(env: Environment, lines: seq<Line>, n: nat, text: string)
    requires n <= |lines|
  {
    && !JointPrefixed(text)
    && match PlaceOf(env, text)
       case RegisterNumber(k) => k < REGISTER_CAPACITY
       case InputBit(k) => k in env.logicalInputs && !WritesBefore(env, lines, n, InputBit(k))
       case OutputBit(k) => k < env.fieldOutputCount && !WritesBefore(env, lines, n, OutputBit(k))
       case NoPlace => false
  }

  function Digits(text: string): string
    requires |text| > UnitLength(UnitOf(text))
  {
    text[..|text| - UnitLength(UnitOf(text))]
  }

  /** A number that is not negative, followed by a unit. */
  ghost predicate IsDuration(env: Environment, text: string) {
    && EndsIn(text, "s") && |text| > UnitLength(UnitOf(text))
    && env.reader(Digits(text)).Some? && env.reader(Digits(text)).value >= 0.0
  }

  ghost predicate Timed(env: Environment, text: string) {
    IsDuration(env, text) && exists n: nat :: TicksOf(env, text, n) && n < UINT32_LIMIT
  }

  ghost predicate LineMakesSense(env: Environment, lines: seq<Line>, n: nat)
    requires n < |lines|
  {
    var words := lines[n].tokens;
    && |words| > 2 && |words| == WordCount(words[0])
    && Writable(env, lines, n, words[1])
    && Readable(env, lines, n, words[2])
    && (|words| == 4 ==> if words[0] == "debounce" then Timed(env, words[3]) else Readable(env, lines, n, words[3]))
  }

  /** What makes a text a program. */
  ghost predicate MakesSense(env: Environment, source: string) {
    var lines := LinesFrom(source, 0);
    && DeclarationsOk(env)
    && |lines| <= INSTRUCTION_CAPACITY
    && (forall n | 0 <= n < |lines| :: LineMakesSense(env, lines, n))
    && (forall id | id in env.logicalInputs :: WritesBefore(env, lines, |lines|, InputBit(id)))
    && (forall k: nat | k < env.fieldOutputCount :: WritesBefore(env, lines, |lines|, OutputBit(k)))
  }

  // ----- words

  lemma CountIsExpected(word: string)
    ensures OpcodeOf(word).None? <==> WordCount(word) == 0
    ensures OpcodeOf(word).Some? ==>
              var (opcode, expected) := OpcodeOf(word).value;
              && expected == WordCount(word)
              && (opcode == Debounce <==> word == "debounce")
              && (IsBinary(opcode) <==> expected == 4 && word != "debounce")
  {}

  // ----- names

  lemma IndexOkIsNamed(text: string, prefix: string, capacity: nat)
    requires capacity <= UINT32_LIMIT
    ensures ParseIndex(text, prefix, capacity).Ok? <==> NamedBelow(text, prefix, capacity)
    ensures ParseIndex(text, prefix, capacity).Ok? ==>
              ParseIndex(text, prefix, capacity).value == NumberOf(text, prefix)
    ensures ParseIndex(text, prefix, capacity).Err? ==>
              ParseIndex(text, prefix, capacity).error ==
              if prefix <= text && text != prefix then OperandOutOfRange else InvalidOperand
  {}

  lemma AxisOperandNames(text: string)
    ensures ParseAxisOperand(text).Some? <==> NamesAnAxis(text)
  {
    AxisIsNamed(text, "apos_");
    AxisIsNamed(text, "astart_");
    AxisIsNamed(text, "atarget_");
    hide NamesAxis, ParseAxis;
    if ParseAxisOperand(text).Some? {
      var k := ParseAxisOperand(text).value.index;
      assert NamesAxis(text, "apos_", k) || NamesAxis(text, "astart_", k) || NamesAxis(text, "atarget_", k);
    }
  }

  lemma AxisIsNoJoint(text: string)
    requires NamesAnAxis(text)
    ensures !JointPrefixed(text)
  {
    var k: nat :| NamesAxis(text, "apos_", k) || NamesAxis(text, "astart_", k) || NamesAxis(text, "atarget_", k);
    assert text[0] == 'a';
  }

  lemma JointIsPrefixed(text: string)
    ensures NamesJoint(text) ==> JointPrefixed(text)
  {}

  lemma JointNames(text: string)
    ensures NamesJoint(text) <==>
            || (ParseJointMask(text).Some? && ParseJointMask(text).value.Ok?)
            || (ParseJointOperand(text).Some? && ParseJointOperand(text).value.Ok?)
    ensures JointPrefixed(text) <==> ParseJointMask(text).Some? || ParseJointOperand(text).Some?
    ensures ParseJointMask(text).Some? ==> ParseJointOperand(text).None?
  {
    IndexOkIsNamed(text, "JOINT_", MAX_JOINTS);
    IndexOkIsNamed(text, "jpos_", MAX_JOINTS);
    IndexOkIsNamed(text, "jstart_", MAX_JOINTS);
    IndexOkIsNamed(text, "jtarget_", MAX_JOINTS);
    JointStarts(text);
    hide ParseIndex, NumberOf;
  }

  /** The texts decided before the symbols, and which of them are refused. */
  lemma BuiltinNames(env: Environment, text: string)
    ensures NamesReading(env, text) <==>
            ParseBuiltin(env.reader, text).Some? && ParseBuiltin(env.reader, text).value.Ok?
    ensures !NamesReading(env, text) && JointPrefixed(text) <==>
            ParseBuiltin(env.reader, text).Some? && ParseBuiltin(env.reader, text).value.Err?
  {
    JointNames(text);
    KeywordNames(text);
    AxisOperandNames(text);
    if NamesAnAxis(text) { AxisIsNoJoint(text); }
    hide NamesAnAxis, ParseAxisOperand, NamesJoint, JointPrefixed, ParseJointMask, ParseJointOperand, IsKeyword, ParseKeyword;
  }

  lemma KeywordNames(text: string)
    ensures ParseKeyword(text).Some? <==> IsKeyword(text)
    ensures IsKeyword(text) ==> !JointPrefixed(text)
  {
    JointStarts(text);
    if IsKeyword(text) { assert text[0] == 'I' || text[0] == 'm' || text[0] == 't'; }
  }

  lemma JointStarts(text: string)
    ensures "JOINT_" <= text ==> text[0] == 'J'
    ensures "jpos_" <= text ==> text[0] == 'j' && text[1] == 'p'
    ensures "jstart_" <= text ==> text[0] == 'j' && text[1] == 's'
    ensures "jtarget_" <= text ==> text[0] == 'j' && text[1] == 't'
  {}

  lemma BuiltinReadsFreely(env: Environment, text: string, operand: Operand)
    requires ParseBuiltin(env.reader, text) == Some(Ok(operand))
    ensures !operand.Register? && !operand.LogicalInput? && !operand.LogicalOutput? && !operand.FieldOutput?
  {}

  /** The code of the lines before line `|code|`. */
  ghost predicate Before(env: Environment, lines: seq<Line>, code: seq<Instruction>) {
    DeclarationsOk(env) && AcceptedPrefix(env, lines, code)
  }

  lemma PrefixNames(env: Environment, lines: seq<Line>, code: seq<Instruction>, i: nat)
    requires Before(env, lines, code) && i < |code|
    ensures |lines[i].tokens| > 1 && PlaceOf(env, lines[i].tokens[1]) == PlaceFor(code[i].destination) != NoPlace
  {
    hide PlaceOf;
    assert Decoded(env, lines[i].tokens, code[i]) && InstructionOk(env, code[..i], code[i]);
    DestinationNames(env, lines[i].tokens[1], code[i].destination);
  }

  lemma WrittenIsNamed(env: Environment, lines: seq<Line>, code: seq<Instruction>, d: Operand)
    requires Before(env, lines, code) && (d.Register? || d.LogicalInput? || d.FieldOutput?)
    ensures WritesBefore(env, lines, |code|, PlaceFor(d)) <==> WrittenIn(code, d)
  {
    hide PlaceOf;
    forall i | 0 <= i < |code|
      ensures |lines[i].tokens| > 1 && PlaceOf(env, lines[i].tokens[1]) == PlaceFor(code[i].destination)
    {
      PrefixNames(env, lines, code, i);
    }
    hide Before, DeclarationsOk, WellFormed, Decoded;
    if WrittenIn(code, d) {
      var i :| 0 <= i < |code| && code[i].destination == d;
      assert PlaceOf(env, lines[i].tokens[1]) == PlaceFor(d);
    }
  }

  lemma {:induction false} LastWriterExists(env: Environment, lines: seq<Line>, n: nat, k: nat)
    requires n <= |lines|
    ensures LastWriter(env, lines, n, k) >= 0 <==> WritesBefore(env, lines, n, RegisterNumber(k))
  {
    hide PlaceOf;
    if n > 0 { LastWriterExists(env, lines, n - 1, k); }
  }

  /** A source parses and may be read exactly when its text says something readable. */
  lemma ReadableIsSource(env: Environment, lines: seq<Line>, code: seq<Instruction>, text: string)
    requires Before(env, lines, code)
    ensures Readable(env, lines, |code|, text) <==>
            ParseOperand(env, text).Ok? && SourceOk(env, code, ParseOperand(env, text).value)
  {
    hide NamesReading, ParseBuiltin, JointPrefixed;
    BuiltinNames(env, text);
    SymbolIsUnique(env, text);
    if ParseBuiltin(env.reader, text).Some? {
      if ParseBuiltin(env.reader, text).value.Ok? {
        BuiltinReadsFreely(env, text, ParseBuiltin(env.reader, text).value.value);
      }
    } else if FindSymbol(env.symbols, text).Some? {
      SymbolIsReadable(env, lines, code, text);
    } else {
      IndexedIsReadable(env, lines, code, text);
    }
  }

  lemma SymbolIsReadable(env: Environment, lines: seq<Line>, code: seq<Instruction>, text: string)
    requires Before(env, lines, code) && !NamesReading(env, text) && !JointPrefixed(text)
    requires ParseBuiltin(env.reader, text).None? && FindSymbol(env.symbols, text).Some?
    ensures Readable(env, lines, |code|, text) <==>
            ParseOperand(env, text).Ok? && SourceOk(env, code, ParseOperand(env, text).value)
  {
    SymbolIsUnique(env, text);
    var s := FindSymbol(env.symbols, text).value;
    assert IsSymbol(env, text, s);
    hide NamesReading, ParseBuiltin, JointPrefixed, FindSymbol, IsSymbol;
    var i :| 0 <= i < |env.symbols| && env.symbols[i] == s;
    assert SymbolReferenceOk(env, env.symbols[i]);
  }

  lemma IndexedIsReadable(env: Environment, lines: seq<Line>, code: seq<Instruction>, text: string)
    requires Before(env, lines, code) && !NamesReading(env, text) && !JointPrefixed(text)
    requires ParseBuiltin(env.reader, text).None? && FindSymbol(env.symbols, text).None?
    ensures Readable(env, lines, |code|, text) <==>
            ParseOperand(env, text).Ok? && SourceOk(env, code, ParseOperand(env, text).value)
  {
    SymbolIsUnique(env, text);
    assert env.fieldInputCount <= FIELD_INPUT_CAPACITY && env.fieldOutputCount <= FIELD_OUTPUT_CAPACITY;
    if Named(text, "r") {
      var k := NumberOf(text, "r");
      LastWriterExists(env, lines, |code|, k);
      WrittenIsNamed(env, lines, code, Register(k));
      assert PlaceFor(Register(k)) == RegisterNumber(k);
    }
    IndexedNames(env, text);
    hide NamesReading, ParseBuiltin, JointPrefixed, FindSymbol, IsSymbol, ParseIndex, WrittenIn, WritesBefore, LastWriter,
      PlaceFor, AcceptedPrefix, DeclarationsOk, ParseIndexed, Named, NumberOf;
  }

  /** What a text that is neither a reading nor a symbol may name. */
  lemma IndexedNames(env: Environment, text: string)
    requires env.fieldInputCount <= UINT32_LIMIT && env.fieldOutputCount <= UINT32_LIMIT
    ensures NamedBelow(text, "fieldin", env.fieldInputCount) <==>
            ParseIndexed(env, text).Ok? && ParseIndexed(env, text).value.FieldInput?
    ensures NamedBelow(text, "out", LOGICAL_CAPACITY) <==>
            ParseIndexed(env, text).Ok? && ParseIndexed(env, text).value.LogicalOutput?
    ensures NamedBelow(text, "r", REGISTER_CAPACITY) <==>
            ParseIndexed(env, text).Ok? && ParseIndexed(env, text).value.Register?
    ensures NamedBelow(text, "in", LOGICAL_CAPACITY) <==>
            ParseIndexed(env, text).Ok? && ParseIndexed(env, text).value.LogicalInput?
    ensures NamedBelow(text, "fieldout", env.fieldOutputCount) <==>
            ParseIndexed(env, text).Ok? && ParseIndexed(env, text).value.FieldOutput?
    ensures ParseIndexed(env, text).Ok? ==>
              match ParseIndexed(env, text).value
              case FieldInput(k) => Named(text, "fieldin") && k == NumberOf(text, "fieldin")
              case FieldOutput(k) => Named(text, "fieldout") && k == NumberOf(text, "fieldout")
              case LogicalInput(k) => Named(text, "in") && k == NumberOf(text, "in")
              case LogicalOutput(k) => Named(text, "out") && k == NumberOf(text, "out")
              case Register(k) => Named(text, "r") && k == NumberOf(text, "r")
              case _ => false
  {
    IndexOkIsNamed(text, "fieldin", env.fieldInputCount);
    IndexOkIsNamed(text, "fieldout", env.fieldOutputCount);
    IndexOkIsNamed(text, "in", LOGICAL_CAPACITY);
    IndexOkIsNamed(text, "out", LOGICAL_CAPACITY);
    IndexOkIsNamed(text, "r", REGISTER_CAPACITY);
    PrefixesDiffer(text);
    hide ParseIndex, NumberOf;
  }

  lemma PrefixesDiffer(text: string)
    ensures "fieldin" <= text ==> !("fieldout" <= text) && !("in" <= text) && !("out" <= text) && !("r" <= text)
    ensures "fieldout" <= text ==> !("in" <= text) && !("out" <= text) && !("r" <= text)
    ensures "in" <= text ==> !("out" <= text) && !("r" <= text)
    ensures "out" <= text ==> !("r" <= text)
  {
    if "fieldin" <= text { assert text[0] == 'f' && text[5] == 'i'; }
    if "fieldout" <= text { assert text[0] == 'f' && text[5] == 'o'; }
    if "in" <= text { assert text[0] == 'i'; }
    if "out" <= text { assert text[0] == 'o'; }
    if "r" <= text { assert text[0] == 'r'; }
  }

  // ----- destinations

  lemma KeywordIsReserved(text: string)
    requires IsKeyword(text)
    ensures ReservedSymbolName(text)
  {
    assert RESERVED_WORDS[13] == "motion_flags" && RESERVED_WORDS[14] == "move_joints"
        && RESERVED_WORDS[15] == "trigger_joints" && RESERVED_WORDS[16] == "IS_PROBE"
        && RESERVED_WORDS[17] == "IS_HOMING";
  }

  lemma AxisIsReserved(text: string)
    requires NamesAnAxis(text)
    ensures ReservedSymbolName(text)
  {
    AxisOperandNames(text);
    if !ReservedSymbolName(text) {
      AcceptedNameIsNotAxis(text);
    }
  }

  lemma KeywordHasNoPlace(env: Environment, text: string)
    requires DeclarationsOk(env) && (IsKeyword(text) || NamesAnAxis(text))
    ensures PlaceOf(env, text) == NoPlace
  {
    if IsKeyword(text) { KeywordIsReserved(text); } else { AxisIsReserved(text); }
    AcceptedTableHasNoReservedName(env, text);
    SymbolIsUnique(env, text);
    assert !Named(text, "fieldout") && !Named(text, "in") && !Named(text, "r") by {
      KeywordStarts(text);
      NameStarts(text);
    }
    hide ReservedSymbolName, FindSymbol, DeclarationsOk, Named, IsKeyword, NamesAnAxis, SymbolsOk;
  }

  lemma KeywordStarts(text: string)
    requires IsKeyword(text) || NamesAnAxis(text)
    ensures text != "" && (text[0] == 'I' || text[0] == 'm' || text[0] == 't' || text[0] == 'a')
  {
    if NamesAnAxis(text) {
      var k: nat :| NamesAxis(text, "apos_", k) || NamesAxis(text, "astart_", k) || NamesAxis(text, "atarget_", k);
      assert text[0] == 'a';
    }
  }

  lemma NameStarts(text: string)
    ensures Named(text, "fieldout") ==> text[0] == 'f'
    ensures Named(text, "in") ==> text[0] == 'i'
    ensures Named(text, "r") ==> text[0] == 'r'
  {}

  lemma PlaceIsNotBuiltin(env: Environment, text: string)
    requires DeclarationsOk(env) && PlaceOf(env, text) != NoPlace && !JointPrefixed(text)
    ensures ParseBuiltin(env.reader, text).None?
  {
    BuiltinNames(env, text);
    JointIsPrefixed(text);
    assert env.reader(text).None?;
    hide PlaceOf, ParseBuiltin, DeclarationsOk, IsKeyword, NamesAnAxis, NamesJoint, JointPrefixed;
    if NamesReading(env, text) {
      KeywordHasNoPlace(env, text);
    }
  }

  /** A destination parses and may be written exactly when its text names a place free to write. */
  lemma WritableIsDestination(env: Environment, lines: seq<Line>, code: seq<Instruction>, text: string)
    requires Before(env, lines, code)
    ensures Writable(env, lines, |code|, text) <==>
            ParseOperand(env, text).Ok? && DestinationOk(env, code, ParseOperand(env, text).value)
  {
    assert |code| <= |lines|;
    hide ParseOperand, JointPrefixed, WritesBefore, AcceptedPrefix, PlaceOf;
    if ParseOperand(env, text).Ok? && PlaceFor(ParseOperand(env, text).value) != NoPlace {
      var d := ParseOperand(env, text).value;
      DestinationIsNoJoint(env, text, d);
      DestinationNames(env, text, d);
      DestinationInRange(env, text, d);
      WrittenIsNamed(env, lines, code, d);
      hide DeclarationsOk;
    } else if Writable(env, lines, |code|, text) {
      PlaceParses(env, text);
    }
  }

  lemma DestinationInRange(env: Environment, text: string, d: Operand)
    requires DeclarationsOk(env) && ParseOperand(env, text) == Ok(d)
    ensures InRange(env, d)
  {
    ResolvedOperandInRange(env, text);
  }

  lemma DestinationIsNoJoint(env: Environment, text: string, d: Operand)
    requires ParseOperand(env, text) == Ok(d) && PlaceFor(d) != NoPlace
    ensures !JointPrefixed(text)
  {
    BuiltinIsNoPlace(env, text);
  }

  ghost predicate PlaceInRange(env: Environment, place: Place) {
    match place
    case RegisterNumber(k) => k < REGISTER_CAPACITY
    case InputBit(k) => k < LOGICAL_CAPACITY
    case OutputBit(k) => k < env.fieldOutputCount
    case NoPlace => false
  }

  lemma PlaceParses(env: Environment, text: string)
    requires DeclarationsOk(env) && !JointPrefixed(text) && PlaceInRange(env, PlaceOf(env, text))
    ensures ParseOperand(env, text).Ok? && PlaceFor(ParseOperand(env, text).value) == PlaceOf(env, text)
  {
    PlaceIsNotBuiltin(env, text);
    SymbolIsUnique(env, text);
    hide ParseBuiltin, JointPrefixed;
    if FindSymbol(env.symbols, text).Some? {
      assert IsSymbol(env, text, FindSymbol(env.symbols, text).value);
      hide FindSymbol, IsSymbol;
    } else {
      assert env.fieldInputCount <= FIELD_INPUT_CAPACITY && env.fieldOutputCount <= FIELD_OUTPUT_CAPACITY;
      IndexedNames(env, text);
      hide FindSymbol, IsSymbol, ParseIndexed, DeclarationsOk;
    }
  }

  // ----- durations

  lemma DurationParses(env: Environment, text: string)
    ensures ParseDuration(env.reader, text).Some? <==> IsDuration(env, text)
    ensures IsDuration(env, text) ==>
              ParseDuration(env.reader, text).value == Product(env.reader(Digits(text)).value, Seconds(UnitOf(text)))
  {
    hide Product, Seconds;
    if ParseDuration(env.reader, text).Some? {
      DurationReads(env, text);
    } else {
      assert EndsIn(text, "ns") == HasSuffix(text, "ns") && EndsIn(text, "us") == HasSuffix(text, "us")
          && EndsIn(text, "ms") == HasSuffix(text, "ms") && EndsIn(text, "s") == HasSuffix(text, "s");
      hide EndsIn, HasSuffix;
    }
  }

  lemma TimedIsTicks(env: Environment, text: string)
    requires env.servoPeriod.Finite? && env.servoPeriod.r > 0.0
    ensures Timed(env, text) <==> LineTicks(env, text).Ok?
    ensures LineTicks(env, text) == Err(DurationExceedsCapacity) ==> exists n: nat :: TicksOf(env, text, n) && n >= UINT32_LIMIT
    ensures LineTicks(env, text).Err? ==>
              LineTicks(env, text).error == BadDuration || LineTicks(env, text).error == DurationExceedsCapacity
    ensures LineTicks(env, text) == Err(BadDuration) <==> !IsDuration(env, text)
  {
    DurationParses(env, text);
    if IsDuration(env, text) {
      var n := DebounceTicks(ParseDuration(env.reader, text).value, env.servoPeriod.r);
      TicksHold(env, text);
      hide ParseDuration, DebounceTicks, TicksOf, IsDuration;
      forall m: nat | TicksOf(env, text, m) ensures m == n { TicksAreUnique(env, text, m, n); }
    }
  }

  lemma TicksHold(env: Environment, text: string)
    requires env.servoPeriod.Finite? && env.servoPeriod.r > 0.0 && IsDuration(env, text)
    requires ParseDuration(env.reader, text).Some?
    ensures TicksOf(env, text, DebounceTicks(ParseDuration(env.reader, text).value, env.servoPeriod.r))
  {
    DurationReads(env, text);
    DurationIsNonNegative(env.reader, text);
    SlackOfPeriod(env.servoPeriod.r);
    hide Product, ParseDuration, Seconds, UnitOf, EndsIn, Lasts;
    var duration := ParseDuration(env.reader, text).value;
    if duration != 0.0 { DebounceTicksLastDuration(duration, env.servoPeriod.r); }
    hide DebounceTicks;
  }

  // ----- lines and texts

  /** A line passes the ordered checks exactly when its text makes sense. */
  lemma LineSense(env: Environment, lines: seq<Line>, code: seq<Instruction>)
    requires Before(env, lines, code) && |code| < |lines| && lines[|code|].tokens != []
    ensures CheckLine(env, WrittenBy(code), lines[|code|].tokens).Ok? <==> LineMakesSense(env, lines, |code|)
  {
    var n := |code|;
    var words := lines[n].tokens;
    WrittenByTracks(code);
    CountIsExpected(words[0]);
    assert env.servoPeriod.Finite? && env.servoPeriod.r > 0.0;
    hide OpcodeOf, WordCount, ParseOperand, Writable, Readable, Timed, LineTicks, DestinationOk, SourceOk, WrittenBy,
      SourceError, DestinationError, Tracks;
    if OpcodeOf(words[0]).Some? && |words| == WordCount(words[0]) {
      WritableIsDestination(env, lines, code, words[1]);
      ReadableIsSource(env, lines, code, words[2]);
      SourcesAndDestination(env, WrittenBy(code), code, words[1], words[2]);
      if |words| == 4 {
        TimedIsTicks(env, words[3]);
        ReadableIsSource(env, lines, code, words[3]);
        SourcesAndDestination(env, WrittenBy(code), code, words[1], words[3]);
      }
    }
    hide Before;
  }

  lemma SourcesAndDestination(env: Environment, written: Written, code: seq<Instruction>, d: string, x: string)
    requires Tracks(written, code)
    ensures ParseOperand(env, d).Ok? ==>
              (DestinationError(env, written, ParseOperand(env, d).value).None?
               <==> DestinationOk(env, code, ParseOperand(env, d).value))
    ensures ParseOperand(env, x).Ok? ==>
              (SourceError(env, written, ParseOperand(env, x).value).None?
               <==> SourceOk(env, code, ParseOperand(env, x).value))
  {
    hide ParseOperand;
    if ParseOperand(env, d).Ok? { DestinationErrorMeaning(env, written, code, ParseOperand(env, d).value); }
    if ParseOperand(env, x).Ok? { SourceErrorMeaning(env, written, code, ParseOperand(env, x).value); }
  }

  lemma {:induction false} SensibleLinesCompile(env: Environment, lines: seq<Line>, n: nat) returns (code: seq<Instruction>)
    requires DeclarationsOk(env) && n <= |lines| && (forall l | l in lines :: l.tokens != [])
    requires forall i | 0 <= i < n :: LineMakesSense(env, lines, i)
    ensures |code| == n && Before(env, lines, code)
  {
    code := [];
    if n > 0 {
      var before := SensibleLinesCompile(env, lines, n - 1);
      LineSense(env, lines, before);
      hide LineMakesSense, CheckLine, Decoded, InstructionOk, DeclarationsOk;
      var ins := CheckLine(env, WrittenBy(before), lines[n - 1].tokens).value;
      WrittenByTracks(before);
      CheckLineMeaning(env, WrittenBy(before), before, lines[n - 1].tokens, ins);
      WellFormedExtended(env, before, ins);
      code := before + [ins];
    }
  }

  lemma CompiledLineMakesSense(env: Environment, lines: seq<Line>, code: seq<Instruction>, n: nat)
    requires DeclarationsOk(env) && DecodedAll(env, lines, code) && WellFormed(env, code) && n < |code|
    requires lines[n].tokens != []
    ensures LineMakesSense(env, lines, n)
  {
    hide LineMakesSense, CheckLine;
    var before := code[..n];
    assert InstructionOk(env, code[..n], code[n]) && Decoded(env, lines[n].tokens, code[n]);
    assert AcceptedPrefix(env, lines, before) by {
      assert code == before + code[n..];
      forall i | 0 <= i < |before| ensures InstructionOk(env, before[..i], before[i]) {
        assert before[..i] == code[..i];
      }
    }
    WrittenByTracks(before);
    CheckLineMeaning(env, WrittenBy(before), before, lines[n].tokens, code[n]);
    LineSense(env, lines, before);
  }

  lemma CoverageIsNamed(env: Environment, lines: seq<Line>, code: seq<Instruction>)
    requires Before(env, lines, code) && |code| == |lines|
    ensures Covered(env, code) <==>
            && (forall id | id in env.logicalInputs :: WritesBefore(env, lines, |lines|, InputBit(id)))
            && (forall k: nat | k < env.fieldOutputCount :: WritesBefore(env, lines, |lines|, OutputBit(k)))
  {
    hide WritesBefore, WrittenIn;
    forall id: nat ensures WritesBefore(env, lines, |code|, InputBit(id)) <==> WrittenIn(code, LogicalInput(id)) {
      WrittenIsNamed(env, lines, code, LogicalInput(id));
      assert PlaceFor(LogicalInput(id)) == InputBit(id);
    }
    forall k: nat ensures WritesBefore(env, lines, |code|, OutputBit(k)) <==> WrittenIn(code, FieldOutput(k)) {
      WrittenIsNamed(env, lines, code, FieldOutput(k));
      assert PlaceFor(FieldOutput(k)) == OutputBit(k);
    }
    hide Before;
  }

  /** Exactly the texts that make sense compile. */
  lemma AcceptedTexts(env: Environment, source: string)
    ensures (exists code :: Accepted(env, source, code)) <==> MakesSense(env, source)
  {
    var lines := LinesFrom(source, 0);
    hide LineMakesSense, LinesFrom, Covered, WritesBefore, DeclarationsOk;
    if code :| Accepted(env, source, code) {
      forall n | 0 <= n < |lines| ensures LineMakesSense(env, lines, n) {
        assert lines[n] in lines;
        CompiledLineMakesSense(env, lines, code, n);
      }
      CoverageIsNamed(env, lines, code);
    }
    if MakesSense(env, source) {
      var code := SensibleLinesCompile(env, lines, |lines|);
      CoverageIsNamed(env, lines, code);
      assert Accepted(env, source, code);
    }
  }

  // ----- refusals

  /** Some word that must name something names nothing that exists: a known
      prefix with a bad number, or no known prefix at all. */
  ghost predicate Nameless(env: Environment, text: string) {
    !NamesReading(env, text) && (JointPrefixed(text) || (!NamesSymbol(env, text) && !NamesIndexed(env, text)))
  }

  ghost predicate NamesSymbol(env: Environment, text: string) { exists s :: IsSymbol(env, text, s) }

  predicate NamesIndexed(env: Environment, text: string) {
    || NamedBelow(text, "fieldin", env.fieldInputCount) || NamedBelow(text, "fieldout", env.fieldOutputCount)
    || NamedBelow(text, "in", LOGICAL_CAPACITY) || NamedBelow(text, "out", LOGICAL_CAPACITY)
    || NamedBelow(text, "r", REGISTER_CAPACITY)
  }

  predicate Follows(prefix: string, text: string) { prefix <= text && text != prefix }

  /** One of the numbered prefixes, and something behind it. */
  predicate StartsIndexed(text: string) {
    || Follows("JOINT_", text) || Follows("jpos_", text) || Follows("jstart_", text) || Follows("jtarget_", text)
    || Follows("fieldin", text) || Follows("fieldout", text) || Follows("in", text) || Follows("out", text)
    || Follows("r", text)
  }

  /** A symbol or name of a logical output. */
  ghost predicate NamesLogicalOutput(env: Environment, text: string, k: nat) {
    || (Named(text, "out") && NumberOf(text, "out") == k)
    || exists s :: IsSymbol(env, text, s) && s.kind == LogicalOutputSymbol && s.id == k
  }

  /** The words of a line that are sources. */
  predicate IsSource(words: seq<string>, i: nat) {
    i < |words| && (i == 2 || (i == 3 && words[0] != "debounce"))
  }

  predicate IsDebounce(words: seq<string>) { |words| == 4 && words[0] == "debounce" }

  predicate IsOperand(words: seq<string>, i: nat) { i < |words| && (i == 1 || IsSource(words, i)) }

  ghost predicate BadName(env: Environment, text: string, error: OperandError) {
    Nameless(env, text) && (error == OperandOutOfRange <==> StartsIndexed(text))
  }

  /** What each refusal of line `n` asserts of its text. */
  ghost predicate LineDefect(env: Environment, lines: seq<Line>, n: nat, error: LineError)
    requires n < |lines| && lines[n].tokens != []
  {
    var words := lines[n].tokens;
    match error
    case UnknownOpcode => WordCount(words[0]) == 0
    case WrongOperandCount => 0 < WordCount(words[0]) != |words|
    case BadOperand(e) => exists i: nat :: IsOperand(words, i) && BadName(env, words[i], e)
    case ReadsWriteOnly => exists i: nat :: IsSource(words, i) && WriteOnly(PlaceOf(env, words[i]))
    case ReadsUndeclaredOutput(k) =>
      k !in env.logicalOutputs && exists i: nat :: IsSource(words, i) && NamesLogicalOutput(env, words[i], k)
    case ReadsUninitialized(k) =>
      exists i: nat :: IsSource(words, i) && PlaceOf(env, words[i]) == RegisterNumber(k) && LastWriter(env, lines, n, k) < 0
    case BadDuration => IsDebounce(words) && !IsDuration(env, words[3])
    case DurationExceedsCapacity =>
      IsDebounce(words) && exists t: nat :: TicksOf(env, words[3], t) && t >= UINT32_LIMIT
    case InvalidDestination => |words| > 1 && PlaceOf(env, words[1]) == NoPlace
    case WritesUndeclaredInput(k) => |words| > 1 && PlaceOf(env, words[1]) == InputBit(k) && k !in env.logicalInputs
    case InputWrittenTwice(k) =>
      |words| > 1 && PlaceOf(env, words[1]) == InputBit(k) && WritesBefore(env, lines, n, InputBit(k))
    case OutputWrittenTwice(k) =>
      |words| > 1 && PlaceOf(env, words[1]) == OutputBit(k) && WritesBefore(env, lines, n, OutputBit(k))
  }

  predicate WriteOnly(place: Place) { place.InputBit? || place.OutputBit? }

  lemma FailedNameIsBad(env: Environment, text: string)
    requires DeclarationsOk(env) && ParseOperand(env, text).Err?
    ensures BadName(env, text, ParseOperand(env, text).error)
  {
    BuiltinNames(env, text);
    if ParseBuiltin(env.reader, text).None? {
      SymbolIsUnique(env, text);
      assert env.fieldInputCount <= FIELD_INPUT_CAPACITY && env.fieldOutputCount <= FIELD_OUTPUT_CAPACITY;
      IndexedNames(env, text);
      FailedIndex(env, text);
      hide ParseBuiltin, NamesReading, JointPrefixed, FindSymbol, IsSymbol, ParseIndexed, DeclarationsOk, StartsIndexed;
    } else {
      FailedJoint(env, text);
      hide ParseBuiltin, NamesReading, JointPrefixed, DeclarationsOk, StartsIndexed;
    }
  }

  lemma FailedIndex(env: Environment, text: string)
    requires env.fieldInputCount <= UINT32_LIMIT && env.fieldOutputCount <= UINT32_LIMIT
    requires ParseIndexed(env, text).Err? && !JointPrefixed(text)
    ensures ParseIndexed(env, text).error == OperandOutOfRange <==> StartsIndexed(text)
  {
    IndexOkIsNamed(text, "fieldin", env.fieldInputCount);
    IndexOkIsNamed(text, "fieldout", env.fieldOutputCount);
    IndexOkIsNamed(text, "in", LOGICAL_CAPACITY);
    IndexOkIsNamed(text, "out", LOGICAL_CAPACITY);
    IndexOkIsNamed(text, "r", REGISTER_CAPACITY);
    PrefixesDiffer(text);
    hide ParseIndex, NumberOf, Named, NamedBelow;
  }

  lemma FailedJoint(env: Environment, text: string)
    requires ParseBuiltin(env.reader, text).Some? && ParseBuiltin(env.reader, text).value.Err?
    ensures ParseBuiltin(env.reader, text).value.error == OperandOutOfRange <==> StartsIndexed(text)
  {
    IndexOkIsNamed(text, "JOINT_", MAX_JOINTS);
    IndexOkIsNamed(text, "jpos_", MAX_JOINTS);
    IndexOkIsNamed(text, "jstart_", MAX_JOINTS);
    IndexOkIsNamed(text, "jtarget_", MAX_JOINTS);
    BuiltinNames(env, text);
    JointStarts(text);
    PrefixesDiffer(text);
    assert text != "" && text[0] != 'f' && text[0] != 'i' && text[0] != 'o' && text[0] != 'r';
    hide ParseIndex, NumberOf, Named, NamedBelow, NamesReading, ParseKeyword, ParseAxisOperand;
  }

  /** What a refused source says. */
  lemma RefusedSource(env: Environment, lines: seq<Line>, code: seq<Instruction>, i: nat, error: LineError)
    requires Before(env, lines, code) && |code| < |lines| && lines[|code|].tokens != []
    requires IsSource(lines[|code|].tokens, i)
    requires ReadSource(env, WrittenBy(code), lines[|code|].tokens[i]) == Err(error)
    ensures LineDefect(env, lines, |code|, error)
  {
    hide NamesLogicalOutput, BadName, ParseOperand, WrittenBy, PlaceOf, Before;
    var n, text := |code|, lines[|code|].tokens[i];
    assert DeclarationsOk(env) by { BeforeDeclares(env, lines, code); }
    hide DeclarationsOk;
    if ParseOperand(env, text).Err? {
      FailedNameIsBad(env, text);
      assert IsOperand(lines[n].tokens, i);
    } else {
      var operand := ParseOperand(env, text).value;
      WrittenByTracks(code);
      if operand.LogicalOutput? {
        OutputNames(env, text, operand.index);
      } else {
        DestinationNames(env, text, operand);
        WrittenIsNamed(env, lines, code, operand);
        if operand.Register? { LastWriterExists(env, lines, n, operand.index); }
      }
    }
  }

  lemma BeforeDeclares(env: Environment, lines: seq<Line>, code: seq<Instruction>)
    requires Before(env, lines, code)
    ensures DeclarationsOk(env) && env.servoPeriod.Finite? && env.servoPeriod.r > 0.0
  {}

  lemma OutputNames(env: Environment, text: string, k: nat)
    requires DeclarationsOk(env) && ParseOperand(env, text) == Ok(LogicalOutput(k))
    ensures NamesLogicalOutput(env, text, k)
  {
    if ParseBuiltin(env.reader, text).Some? {
      BuiltinReadsFreely(env, text, LogicalOutput(k));
    } else {
      SymbolIsUnique(env, text);
      assert env.fieldInputCount <= FIELD_INPUT_CAPACITY && env.fieldOutputCount <= FIELD_OUTPUT_CAPACITY;
      IndexedNames(env, text);
      hide ParseBuiltin, FindSymbol, IsSymbol, ParseIndexed, DeclarationsOk;
      if FindSymbol(env.symbols, text).Some? {
        assert IsSymbol(env, text, FindSymbol(env.symbols, text).value);
      }
    }
  }

  lemma RefusedDestination(env: Environment, lines: seq<Line>, code: seq<Instruction>, error: LineError)
    requires Before(env, lines, code) && |code| < |lines| && |lines[|code|].tokens| > 1
    requires ParseOperand(env, lines[|code|].tokens[1]).Ok?
    requires DestinationError(env, WrittenBy(code), ParseOperand(env, lines[|code|].tokens[1]).value) == Some(error)
    ensures LineDefect(env, lines, |code|, error)
  {
    hide ParseOperand, WrittenBy, PlaceOf, Before;
    var n, text := |code|, lines[|code|].tokens[1];
    BeforeDeclares(env, lines, code);
    hide DeclarationsOk;
    var d := ParseOperand(env, text).value;
    WrittenByTracks(code);
    if PlaceFor(d) != NoPlace {
      DestinationNames(env, text, d);
      WrittenIsNamed(env, lines, code, d);
    } else {
      OtherHasNoPlace(env, text);
    }
  }

  lemma OtherHasNoPlace(env: Environment, text: string)
    requires DeclarationsOk(env) && ParseOperand(env, text).Ok? && PlaceFor(ParseOperand(env, text).value) == NoPlace
    ensures PlaceOf(env, text) == NoPlace
  {
    BuiltinNames(env, text);
    if NamesReading(env, text) {
      ReadingHasNoPlace(env, text);
    } else {
      SymbolIsUnique(env, text);
      assert env.fieldInputCount <= FIELD_INPUT_CAPACITY && env.fieldOutputCount <= FIELD_OUTPUT_CAPACITY;
      IndexedNames(env, text);
      PrefixesDiffer(text);
      hide ParseBuiltin, FindSymbol, IsSymbol, ParseIndexed, DeclarationsOk, NamesReading, JointPrefixed;
    }
  }

  lemma JointNameIsReserved(text: string)
    requires NamesJoint(text)
    ensures ReservedSymbolName(text)
  {
    assert INDEXED_PREFIXES[5] == "jpos_" && INDEXED_PREFIXES[6] == "jstart_" && INDEXED_PREFIXES[7] == "jtarget_"
        && INDEXED_PREFIXES[8] == "JOINT_";
    assert IsIndexedName("jpos_", text) || IsIndexedName("jstart_", text) || IsIndexedName("jtarget_", text)
        || IsIndexedName("JOINT_", text);
  }

  lemma ReadingHasNoPlace(env: Environment, text: string)
    requires DeclarationsOk(env) && NamesReading(env, text)
    ensures PlaceOf(env, text) == NoPlace
  {
    hide NamesAnAxis, NamesJoint, IsKeyword;
    if env.reader(text).None? {
      if NamesJoint(text) {
        JointNameIsReserved(text);
        JointIsPrefixed(text);
        JointStarts(text);
        assert text[0] == 'j' || text[0] == 'J';
        NameStarts(text);
        AcceptedTableHasNoReservedName(env, text);
        SymbolIsUnique(env, text);
        hide ReservedSymbolName, FindSymbol, DeclarationsOk, Named, SymbolsOk;
      } else {
        KeywordHasNoPlace(env, text);
      }
    }
  }

  /** The check that refuses a line. */
  lemma WhichCheckRefuses(env: Environment, written: Written, words: seq<string>, error: LineError)
    requires env.servoPeriod.Finite? && env.servoPeriod.r > 0.0 && words != []
    requires CheckLine(env, written, words) == Err(error)
    ensures || (WordCount(words[0]) == 0 && error == UnknownOpcode)
            || (0 < WordCount(words[0]) != |words| && error == WrongOperandCount)
            || (|words| > 1 && ParseOperand(env, words[1]).Err? && error == BadOperand(ParseOperand(env, words[1]).error))
            || (|words| > 2 && IsSource(words, 2) && ReadSource(env, written, words[2]) == Err(error))
            || (|words| > 3 && IsSource(words, 3) && ReadSource(env, written, words[3]) == Err(error))
            || (|words| > 3 && IsDebounce(words) && LineTicks(env, words[3]) == Err(error))
            || (|words| > 1 && ParseOperand(env, words[1]).Ok?
                && DestinationError(env, written, ParseOperand(env, words[1]).value) == Some(error))
  {
    CountIsExpected(words[0]);
    hide OpcodeOf, WordCount, ParseOperand, ReadSource, DestinationError, LineTicks;
  }

  /** Every refused line has the defect the refusal names. */
  lemma RefusedLine(env: Environment, lines: seq<Line>, code: seq<Instruction>, error: LineError)
    requires Before(env, lines, code) && |code| < |lines| && lines[|code|].tokens != []
    requires CheckLine(env, WrittenBy(code), lines[|code|].tokens) == Err(error)
    ensures LineDefect(env, lines, |code|, error)
  {
    hide *;
    var n, words := |code|, lines[|code|].tokens;
    BeforeDeclares(env, lines, code);
    WhichCheckRefuses(env, WrittenBy(code), words, error);
    if WordCount(words[0]) == 0 && error == UnknownOpcode {
      RefusedWord(env, lines, n, error);
    } else if 0 < WordCount(words[0]) != |words| && error == WrongOperandCount {
      RefusedWord(env, lines, n, error);
    } else if |words| > 1 && ParseOperand(env, words[1]).Err? && error == BadOperand(ParseOperand(env, words[1]).error) {
      RefusedName(env, lines, n, error);
    } else if |words| > 2 && IsSource(words, 2) && ReadSource(env, WrittenBy(code), words[2]) == Err(error) {
      RefusedSource(env, lines, code, 2, error);
    } else if |words| > 3 && IsSource(words, 3) && ReadSource(env, WrittenBy(code), words[3]) == Err(error) {
      RefusedSource(env, lines, code, 3, error);
    } else if |words| > 3 && IsDebounce(words) && LineTicks(env, words[3]) == Err(error) {
      RefusedDuration(env, lines, n, error);
    } else {
      RefusedDestination(env, lines, code, error);
    }
  }

  lemma RefusedWord(env: Environment, lines: seq<Line>, n: nat, error: LineError)
    requires n < |lines| && lines[n].tokens != []
    requires || (WordCount(lines[n].tokens[0]) == 0 && error == UnknownOpcode)
             || (0 < WordCount(lines[n].tokens[0]) != |lines[n].tokens| && error == WrongOperandCount)
    ensures LineDefect(env, lines, n, error)
  {
    hide WordCount;
  }

  lemma RefusedName(env: Environment, lines: seq<Line>, n: nat, error: LineError)
    requires DeclarationsOk(env) && n < |lines| && |lines[n].tokens| > 1
    requires ParseOperand(env, lines[n].tokens[1]).Err?
    requires error == BadOperand(ParseOperand(env, lines[n].tokens[1]).error)
    ensures LineDefect(env, lines, n, error)
  {
    assert IsOperand(lines[n].tokens, 1);
    hide ParseOperand, DeclarationsOk, BadName;
    FailedNameIsBad(env, lines[n].tokens[1]);
  }

  lemma RefusedDuration(env: Environment, lines: seq<Line>, n: nat, error: LineError)
    requires DeclarationsOk(env) && n < |lines| && IsDebounce(lines[n].tokens)
    requires env.servoPeriod.Finite? && env.servoPeriod.r > 0.0
    requires LineTicks(env, lines[n].tokens[3]) == Err(error)
    ensures LineDefect(env, lines, n, error)
  {
    hide LineTicks, DeclarationsOk, TicksOf, IsDuration;
    TimedIsTicks(env, lines[n].tokens[3]);
  }

  /** Every error the compiler reports about a line is in that line's text. */
  lemma LineErrorIsInText(env: Environment, lines: seq<Line>, number: nat, error: LineError)
    requires DeclarationsOk(env) && ErrorHolds(env, lines, AtLine(number, error))
    ensures exists n :: 0 <= n < |lines| && lines[n].tokens != [] && lines[n].number == number && LineDefect(env, lines, n, error)
  {
    hide LineDefect, DeclarationsOk, CheckLine, WellFormed;
    var code :| LineErrorHolds(env, lines, number, error, code);
    RefusedLine(env, lines, code, error);
  }
}
