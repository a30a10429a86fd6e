/** The digital I/O program language: numbers, operands, symbols and the
    resolution of one operand text (src/DigitalIoProgram.cpp). */
module DigitalIoLanguage {
  import opened Text
  import opened Doubles
  import opened Arithmetic
  import opened Joints

  type Id16 = n: nat | n < 0x1_0000

  const FIELD_INPUT_CAPACITY := 128
  const FIELD_OUTPUT_CAPACITY := 128
  const REGISTER_CAPACITY := 64
  const INSTRUCTION_CAPACITY := 256
  const LOGICAL_CAPACITY := 0x1_0000
  const AXIS_COUNT := 6
  const MOTION_IS_PROBE := 1
  const MOTION_IS_HOMING := 2

  datatype Operand =
    | Register(index: nat)
    | FieldInput(index: nat)
    | LogicalInput(index: nat)
    | LogicalOutput(index: nat)
    | FieldOutput(index: nat)
    | Constant(constant: Number)
    | MotionFlags
    | MoveJoints
    | TriggerJoints
    | AxisPosition(index: nat)
    | AxisStart(index: nat)
    | AxisTarget(index: nat)
    | JointPosition(index: nat)
    | JointStart(index: nat)
    | JointTarget(index: nat)

  datatype OperandError = InvalidOperand | OperandOutOfRange

  datatype SymbolKind = FieldInputSymbol | LogicalInputSymbol | LogicalOutputSymbol | FieldOutputSymbol

  datatype Symbol = Symbol(name: string, kind: SymbolKind, id: Id16)

  /** What `compile` is given beside the program text. `reader` stands for
      std::from_chars on a whole text, restricted to finite results. */
  datatype Environment = Environment(
    fieldInputCount: nat,
    logicalInputs: seq<Id16>,
    fieldOutputCount: nat,
    logicalOutputs: seq<Id16>,
    servoPeriod: Number,
    symbols: seq<Symbol>,
    reader: string -> Option<real>)

  // ----- symbol names

  predicate IsNameChar(c: char) { IsAlpha(c) || IsDigit(c) || c == '_' }

  predicate ValidSymbolName(name: string) {
    && name != ""
    && (IsAlpha(name[0]) || name[0] == '_')
    && forall i | 1 <= i < |name| :: IsNameChar(name[i])
  }

  const RESERVED_WORDS: seq<string> := [
    "0", "1", "mov", "not", "and", "or", "xor", "debounce", "sub", "abs", "le", "ge", "test",
    "motion_flags", "move_joints", "trigger_joints", "IS_PROBE", "IS_HOMING"]

  const AXIS_PREFIXES: seq<string> := ["apos_", "astart_", "atarget_"]

  const INDEXED_PREFIXES: seq<string> :=
    ["fieldin", "fieldout", "in", "out", "r", "jpos_", "jstart_", "jtarget_", "JOINT_"]

  predicate IsAxisName(prefix: string, text: string) {
    prefix <= text && |text| == |prefix| + 1 && text[|prefix|] in "xyzabc"
  }

  predicate IsIndexedName(prefix: string, text: string) {
    prefix <= text && text != prefix && AllDigits(text[|prefix|..])
  }

  predicate ReservedSymbolName(name: string) {
    || name in RESERVED_WORDS
    || (exists p | p in AXIS_PREFIXES :: IsAxisName(p, name))
    || (exists p | p in INDEXED_PREFIXES :: IsIndexedName(p, name))
  }

  predicate JointPrefixed(name: string) {
    "JOINT_" <= name || "jpos_" <= name || "jstart_" <= name || "jtarget_" <= name
  }

  // ----- operand resolution

  function ParseIndex(text: string, prefix: string, capacity: nat): Result<nat, OperandError> {
    if !(prefix <= text) || text == prefix then Err(InvalidOperand)
    else match ParseUInt32(text[|prefix|..])
      case Some(n) => if n < capacity then Ok(n) else Err(OperandOutOfRange)
      case None => Err(OperandOutOfRange)
  }

  function AxisIndex(c: char): Option<nat> {
    match c
    case 'x' => Some(0) case 'y' => Some(1) case 'z' => Some(2)
    case 'a' => Some(3) case 'b' => Some(4) case 'c' => Some(5)
    case _ => None
  }

  function ParseAxis(text: string, prefix: string): Option<nat> {
    if prefix <= text && |text| == |prefix| + 1 then AxisIndex(text[|prefix|]) else None
  }

  function MapIndex(r: Result<nat, OperandError>, make: nat -> Operand): Result<Operand, OperandError> {
    match r
    case Ok(n) => Ok(make(n))
    case Err(e) => Err(e)
  }

  function ParseKeyword(text: string): Option<Operand> {
    if text == "IS_PROBE" then Some(Constant(Finite(MOTION_IS_PROBE as real)))
    else if text == "IS_HOMING" then Some(Constant(Finite(MOTION_IS_HOMING as real)))
    else if text == "motion_flags" then Some(MotionFlags)
    else if text == "move_joints" then Some(MoveJoints)
    else if text == "trigger_joints" then Some(TriggerJoints)
    else None
  }

  function ParseAxisOperand(text: string): Option<Operand> {
    match ParseAxis(text, "apos_")
    case Some(k) => Some(AxisPosition(k))
    case None =>
      match ParseAxis(text, "astart_")
      case Some(k) => Some(AxisStart(k))
      case None =>
        match ParseAxis(text, "atarget_")
        case Some(k) => Some(AxisTarget(k))
        case None => None
  }

  function ParseJointMask(text: string): Option<Result<Operand, OperandError>> {
    if "JOINT_" <= text then
      Some(MapIndex(ParseIndex(text, "JOINT_", MAX_JOINTS), (k: nat) => Constant(Finite(Pow2(k) as real))))
    else None
  }

  function ParseJointOperand(text: string): Option<Result<Operand, OperandError>> {
    if "jpos_" <= text then
      Some(MapIndex(ParseIndex(text, "jpos_", MAX_JOINTS), (k: nat) => JointPosition(k)))
    else if "jstart_" <= text then
      Some(MapIndex(ParseIndex(text, "jstart_", MAX_JOINTS), (k: nat) => JointStart(k)))
    else if "jtarget_" <= text then
      Some(MapIndex(ParseIndex(text, "jtarget_", MAX_JOINTS), (k: nat) => JointTarget(k)))
    else None
  }

  /** Texts decided before the symbol table is consulted; None means "not one of these". */
  function ParseBuiltin(reader: string -> Option<real>, text: string): Option<Result<Operand, OperandError>> {
    if reader(text).Some? then Some(Ok(Constant(Finite(reader(text).value))))
    else if ParseKeyword(text).Some? then Some(Ok(ParseKeyword(text).value))
    else if ParseJointMask(text).Some? then ParseJointMask(text)
    else if ParseAxisOperand(text).Some? then Some(Ok(ParseAxisOperand(text).value))
    else ParseJointOperand(text)
  }

  function FindSymbol(symbols: seq<Symbol>, name: string): (r: Option<Symbol>)
    ensures r.Some? ==> r.value in symbols && r.value.name == name
    ensures r.None? <==> forall s | s in symbols :: s.name != name
  {
    if symbols == [] then None
    else if symbols[0].name == name then Some(symbols[0])
    else FindSymbol(symbols[1..], name)
  }

  function SymbolOperand(symbol: Symbol): Operand {
    match symbol.kind
    case FieldInputSymbol => FieldInput(symbol.id)
    case LogicalInputSymbol => LogicalInput(symbol.id)
    case LogicalOutputSymbol => LogicalOutput(symbol.id)
    case FieldOutputSymbol => FieldOutput(symbol.id)
  }

  /** Texts decided after the symbol table. */
  function ParseIndexed(env: Environment, text: string): Result<Operand, OperandError> {
    if "fieldin" <= text then
      MapIndex(ParseIndex(text, "fieldin", env.fieldInputCount), (k: nat) => FieldInput(k))
    else if "fieldout" <= text then
      MapIndex(ParseIndex(text, "fieldout", env.fieldOutputCount), (k: nat) => FieldOutput(k))
    else if "in" <= text then MapIndex(ParseIndex(text, "in", LOGICAL_CAPACITY), (k: nat) => LogicalInput(k))
    else if "out" <= text then MapIndex(ParseIndex(text, "out", LOGICAL_CAPACITY), (k: nat) => LogicalOutput(k))
    else MapIndex(ParseIndex(text, "r", REGISTER_CAPACITY), (k: nat) => Register(k))
  }

  function ParseOperand(env: Environment, text: string): Result<Operand, OperandError> {
    match ParseBuiltin(env.reader, text)
    case Some(decided) => decided
    case None =>
      match FindSymbol(env.symbols, text)
      case Some(symbol) => Ok(SymbolOperand(symbol))
      case None => ParseIndexed(env, text)
  }

  // ----- accepted declarations

  ghost predicate Distinct<T>(s: seq<T>) { forall i, j | 0 <= i < j < |s| :: s[i] != s[j] }

  predicate SymbolReferenceOk(env: Environment, symbol: Symbol) {
    match symbol.kind
    case LogicalInputSymbol => symbol.id in env.logicalInputs
    case LogicalOutputSymbol => symbol.id in env.logicalOutputs
    case FieldInputSymbol => symbol.id < env.fieldInputCount
    case FieldOutputSymbol => symbol.id < env.fieldOutputCount
  }

  predicate SymbolNameOk(symbol: Symbol) {
    ValidSymbolName(symbol.name) && !ReservedSymbolName(symbol.name)
  }

  ghost predicate SymbolsOk(env: Environment) {
    && (forall i | 0 <= i < |env.symbols| ::
          SymbolNameOk(env.symbols[i]) && SymbolReferenceOk(env, env.symbols[i]))
    && (forall i, j | 0 <= i < j < |env.symbols| :: env.symbols[i].name != env.symbols[j].name)
  }

  /** Everything `compile` demands of its arguments before it looks at the text. */
  ghost predicate DeclarationsOk(env: Environment) {
    && env.fieldInputCount <= FIELD_INPUT_CAPACITY
    && env.fieldOutputCount <= FIELD_OUTPUT_CAPACITY
    && env.servoPeriod.Finite? && env.servoPeriod.r > 0.0
    && Distinct(env.logicalInputs)
    && Distinct(env.logicalOutputs)
    && SymbolsOk(env)
  }

  // ----- properties of resolution

  /** Every index a resolved operand carries is inside the table it will be used on. */
  ghost predicate InRange(env: Environment, operand: Operand) {
    match operand
    case Register(k) => k < REGISTER_CAPACITY
    case FieldInput(k) => k < env.fieldInputCount
    case FieldOutput(k) => k < env.fieldOutputCount
    case LogicalInput(k) => k < LOGICAL_CAPACITY
    case LogicalOutput(k) => k < LOGICAL_CAPACITY
    case AxisPosition(k) => k < AXIS_COUNT
    case AxisStart(k) => k < AXIS_COUNT
    case AxisTarget(k) => k < AXIS_COUNT
    case JointPosition(k) => k < MAX_JOINTS
    case JointStart(k) => k < MAX_JOINTS
    case JointTarget(k) => k < MAX_JOINTS
    case _ => true
  }

  lemma BuiltinInRange(env: Environment, text: string)
    requires ParseBuiltin(env.reader, text).Some? && ParseBuiltin(env.reader, text).value.Ok?
    ensures InRange(env, ParseBuiltin(env.reader, text).value.value)
  {
    if env.reader(text).Some? {
    } else if ParseKeyword(text).Some? {
    } else if ParseJointMask(text).Some? {
    } else if ParseAxisOperand(text).Some? {
    } else {
      assert ParseJointOperand(text).Some?;
    }
  }

  lemma IndexedInRange(env: Environment, text: string)
    requires ParseIndexed(env, text).Ok?
    ensures InRange(env, ParseIndexed(env, text).value)
  {}

  lemma ResolvedOperandInRange(env: Environment, text: string)
    requires DeclarationsOk(env) && ParseOperand(env, text).Ok?
    ensures InRange(env, ParseOperand(env, text).value)
  {
    if ParseBuiltin(env.reader, text).Some? {
      BuiltinInRange(env, text);
    } else if FindSymbol(env.symbols, text).Some? {
      var symbol := FindSymbol(env.symbols, text).value;
      var i :| 0 <= i < |env.symbols| && env.symbols[i] == symbol;
      assert SymbolReferenceOk(env, env.symbols[i]);
    } else {
      IndexedInRange(env, text);
    }
  }

  lemma IndexedTextIsReserved(env: Environment, text: string)
    requires ParseIndexed(env, text).Ok?
    ensures ReservedSymbolName(text)
  {
    var p := if "fieldin" <= text then "fieldin" else if "fieldout" <= text then "fieldout"
             else if "in" <= text then "in" else if "out" <= text then "out" else "r";
    assert p in INDEXED_PREFIXES by {
      assert INDEXED_PREFIXES[0] == "fieldin" && INDEXED_PREFIXES[1] == "fieldout" && INDEXED_PREFIXES[2] == "in"
          && INDEXED_PREFIXES[3] == "out" && INDEXED_PREFIXES[4] == "r";
    }
    assert IsIndexedName(p, text);
  }

  lemma AcceptedTableHasNoReservedName(env: Environment, text: string)
    requires DeclarationsOk(env) && ReservedSymbolName(text)
    ensures FindSymbol(env.symbols, text).None?
  {
    forall s | s in env.symbols ensures s.name != text {
      var i :| 0 <= i < |env.symbols| && env.symbols[i] == s;
      assert SymbolNameOk(env.symbols[i]);
    }
  }

  /** Symbol tables are conservative: a text that resolves without symbols keeps
      its meaning under every accepted table. */
  lemma SymbolsAreConservative(env: Environment, text: string)
    requires DeclarationsOk(env)
    requires ParseOperand(env.(symbols := []), text).Ok?
    ensures ParseOperand(env, text) == ParseOperand(env.(symbols := []), text)
  {
    if ParseBuiltin(env.reader, text).None? {
      IndexedTextIsReserved(env, text);
      AcceptedTableHasNoReservedName(env, text);
    }
  }

  /** The one fact needed about from_chars: no finite decimal starts like a name. */
  ghost predicate ReaderRejectsNames(reader: string -> Option<real>) {
    forall s: string | s != "" && (IsAlpha(s[0]) || s[0] == '_') :: reader(s).None?
  }

  lemma UniqueSymbolIsFound(symbols: seq<Symbol>, i: nat)
    requires i < |symbols|
    requires forall j, k | 0 <= j < k < |symbols| :: symbols[j].name != symbols[k].name
    ensures FindSymbol(symbols, symbols[i].name) == Some(symbols[i])
  {
    var found := FindSymbol(symbols, symbols[i].name).value;
    var j :| 0 <= j < |symbols| && symbols[j] == found;
  }

  lemma JointTextFails(name: string, prefix: string, capacity: nat)
    requires prefix in INDEXED_PREFIXES && prefix <= name && !ReservedSymbolName(name)
    ensures ParseIndex(name, prefix, capacity).Err?
  {
    assert !IsIndexedName(prefix, name);
  }

  lemma AcceptedNameIsNotAxis(name: string)
    requires !ReservedSymbolName(name)
    ensures ParseAxisOperand(name).None?
  {
    forall p | p in AXIS_PREFIXES ensures ParseAxis(name, p).None? {
      assert !IsAxisName(p, name);
    }
    assert AXIS_PREFIXES[0] == "apos_" && AXIS_PREFIXES[1] == "astart_" && AXIS_PREFIXES[2] == "atarget_";
  }

  lemma AcceptedNameIsNotKeyword(name: string)
    requires name !in RESERVED_WORDS
    ensures ParseKeyword(name).None?
  {
    assert RESERVED_WORDS[13] == "motion_flags" && RESERVED_WORDS[14] == "move_joints"
        && RESERVED_WORDS[15] == "trigger_joints" && RESERVED_WORDS[16] == "IS_PROBE"
        && RESERVED_WORDS[17] == "IS_HOMING";
  }

  lemma AcceptedNameAgainstJoints(name: string)
    requires !ReservedSymbolName(name)
    ensures JointPrefixed(name) <==> ParseJointMask(name).Some? || ParseJointOperand(name).Some?
    ensures ParseJointMask(name).Some? ==> ParseJointMask(name).value.Err?
    ensures ParseJointOperand(name).Some? ==> ParseJointOperand(name).value.Err?
  {
    if "JOINT_" <= name { JointTextFails(name, INDEXED_PREFIXES[8], MAX_JOINTS); }
    if "jpos_" <= name { JointTextFails(name, INDEXED_PREFIXES[5], MAX_JOINTS); }
    if "jstart_" <= name { JointTextFails(name, INDEXED_PREFIXES[6], MAX_JOINTS); }
    if "jtarget_" <= name { JointTextFails(name, INDEXED_PREFIXES[7], MAX_JOINTS); }
  }

  /** Exactly which accepted names can be used: those outside the joint
      namespaces denote what they declare, the others never resolve. */
  lemma AcceptedSymbolResolves(env: Environment, i: nat)
    requires DeclarationsOk(env) && ReaderRejectsNames(env.reader)
    requires i < |env.symbols|
    ensures var name := env.symbols[i].name;
            if JointPrefixed(name) then ParseOperand(env, name).Err?
            else ParseOperand(env, name) == Ok(SymbolOperand(env.symbols[i]))
  {
    var name := env.symbols[i].name;
    assert SymbolNameOk(env.symbols[i]);
    assert env.reader(name).None?;
    AcceptedNameIsNotKeyword(name);
    AcceptedNameIsNotAxis(name);
    AcceptedNameAgainstJoints(name);
    UniqueSymbolIsFound(env.symbols, i);
  }
}
