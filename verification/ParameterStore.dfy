/** Printing and parsing the persistent parameter file
    (src/ParameterStore.cpp 48-206, src/include/memory/Memory.h 164-201). */
module ParameterStore {

  import opened Text
  import opened Doubles
  import opened ParameterText

  datatype Unit = Inch | Millimetre

  function UnitName(unit: Unit): string { if unit == Inch then "inch" else "mm" }

  const SIGNATURE := "NGC_PARAMETERS"

  datatype Parameter = Parameter(address: nat, value: real)

  /** Text for doubles: which reals are doubles, and the two library conversions. */
  datatype Codec = Codec(isDouble: real -> bool, format: real -> string, parse: string -> Option<Number>)

  /** Seventeen significant digits identify a double, and are one word. */
  ghost predicate Faithful(codec: Codec) {
    && (forall r | codec.isDouble(r) :: codec.parse(codec.format(r)) == Some(Finite(r)) && IsWord(codec.format(r)))
    && (forall s, r | codec.parse(s) == Some(Finite(r)) :: codec.isDouble(r))
  }

  /** The configured unit and what memory knows of its addresses. */
  datatype Context = Context(unit: Unit, eligible: nat -> bool, coordinateSystem: nat, codec: Codec)

  datatype HeaderProblem = BadSignature | BadUnitLine | UnitMismatch(found: string)

  datatype EntryProblem =
    | BadFieldCount
    | BadNumber(text: string)
    | NonFiniteValue
    | IneligibleAddress(address: nat)
    | BadCoordinateSystem(value: real)
    | DuplicateAddress(address: nat)

  datatype Error =
    | HeaderError(line: nat, header: HeaderProblem)
    | EntryError(line: nat, entry: EntryProblem)
    | HeaderMissing

  datatype Header = Signature | UnitLine | Data

  datatype Progress = Progress(header: Header, parameters: seq<Parameter>)

  function Addresses(parameters: seq<Parameter>): set<nat> {
    set i | 0 <= i < |parameters| :: parameters[i].address
  }

  predicate LegalCoordinateSystem(value: real) {
    value.Floor as real == value && 1.0 <= value <= 9.0
  }

  // ----- parsing

  /** One entry; both numbers are read before either is complained about. */
  function CheckEntry(c: Context, line: nat, fields: seq<string>, parameters: seq<Parameter>): Result<Parameter, Error> {
    if |fields| != 2 then Err(EntryError(line, BadFieldCount))
    else
      var address := ParseUInt32(fields[0]);
      var value := c.codec.parse(fields[1]);
      if address.None? then Err(EntryError(line, BadNumber(fields[0])))
      else if value.None? then Err(EntryError(line, BadNumber(fields[1])))
      else if value.value.NonFinite? then Err(EntryError(line, NonFiniteValue))
      else if !c.eligible(address.value) then Err(EntryError(line, IneligibleAddress(address.value)))
      else if address.value == c.coordinateSystem && !LegalCoordinateSystem(value.value.r) then
        Err(EntryError(line, BadCoordinateSystem(value.value.r)))
      else if address.value in Addresses(parameters) then Err(EntryError(line, DuplicateAddress(address.value)))
      else Ok(Parameter(address.value, value.value.r))
  }

  function CheckFields(c: Context, line: nat, fields: seq<string>, p: Progress): Result<Progress, Error> {
    match p.header
    case Signature =>
      if fields != [SIGNATURE, "1"] then Err(HeaderError(line, BadSignature)) else Ok(p.(header := UnitLine))
    case UnitLine =>
      if |fields| != 2 || fields[0] != "unit" then Err(HeaderError(line, BadUnitLine))
      else if fields[1] != UnitName(c.unit) then Err(HeaderError(line, UnitMismatch(fields[1])))
      else Ok(p.(header := Data))
    case Data =>
      match CheckEntry(c, line, fields, p.parameters)
      case Err(e) => Err(e)
      case Ok(parameter) => Ok(p.(parameters := p.parameters + [parameter]))
  }

  function CheckLine(c: Context, number: nat, line: string, p: Progress): Result<Progress, Error> {
    if Content(line) == "" then Ok(p) else CheckFields(c, number, Fields(Content(line)), p)
  }

  /** The lines in order, numbered after the `done` ones before them. */
  function CheckLines(c: Context, done: nat, lines: seq<string>, p: Progress): Result<Progress, Error>
    decreases |lines|
  {
    if lines == [] then Ok(p)
    else
      match CheckLine(c, done + 1, lines[0], p)
      case Err(e) => Err(e)
      case Ok(next) => CheckLines(c, done + 1, lines[1..], next)
  }

  const START := Progress(Signature, [])

  function Finish(outcome: Result<Progress, Error>): Result<seq<Parameter>, Error> {
    match outcome
    case Err(e) => Err(e)
    case Ok(p) => if p.header != Data then Err(HeaderMissing) else Ok(Sort(p.parameters))
  }

  function Parse(c: Context, text: string): Result<seq<Parameter>, Error> {
    Finish(CheckLines(c, 0, Lines(text), START))
  }

  // ----- sorting

  function Insert(p: Parameter, sorted: seq<Parameter>): seq<Parameter>
    decreases |sorted|
  {
    if sorted == [] || p.address <= sorted[0].address then [p] + sorted
    else [sorted[0]] + Insert(p, sorted[1..])
  }

  function Sort(parameters: seq<Parameter>): seq<Parameter>
    decreases |parameters|
  {
    if parameters == [] then [] else Insert(parameters[0], Sort(parameters[1..]))
  }

  ghost predicate Ascending(s: seq<Parameter>) {
    forall i, j | 0 <= i < j < |s| :: s[i].address < s[j].address
  }

  ghost predicate DistinctAddresses(s: seq<Parameter>) {
    forall i, j | 0 <= i < j < |s| :: s[i].address != s[j].address
  }

  lemma {:induction false} InsertAscends(p: Parameter, s: seq<Parameter>)
    requires Ascending(s) && (forall i | 0 <= i < |s| :: s[i].address != p.address)
    ensures Ascending(Insert(p, s)) && |Insert(p, s)| == |s| + 1
    ensures forall q :: q in Insert(p, s) <==> q == p || q in s
    decreases |s|
  {
    if s != [] && p.address > s[0].address {
      InsertAscends(p, s[1..]);
      var r := Insert(p, s[1..]);
      forall i | 0 <= i < |r| ensures s[0].address < r[i].address {
        assert r[i] in r;
        if r[i] != p { assert r[i] in s[1..]; }
      }
      assert s == [s[0]] + s[1..];
    }
  }

  /** Sorting distinct addresses orders them strictly and keeps every parameter. */
  lemma {:induction false} SortAscends(s: seq<Parameter>)
    requires DistinctAddresses(s)
    ensures Ascending(Sort(s)) && |Sort(s)| == |s|
    ensures forall q :: q in Sort(s) <==> q in s
    decreases |s|
  {
    if s != [] {
      SortAscends(s[1..]);
      var r := Sort(s[1..]);
      forall i | 0 <= i < |r| ensures r[i].address != s[0].address {
        assert r[i] in r;
        assert r[i] in s[1..];
      }
      InsertAscends(s[0], r);
      assert s == [s[0]] + s[1..];
    }
  }

  lemma {:induction false} SortOfSorted(s: seq<Parameter>)
    requires Ascending(s)
    ensures Sort(s) == s
    decreases |s|
  {
    if s != [] {
      SortOfSorted(s[1..]);
      assert s == [s[0]] + s[1..];
    }
  }

  // ----- printing

  function FormatEntry(c: Context, p: Parameter): string {
    TwoWords(FormatNat(p.address), c.codec.format(p.value)) + "\n"
  }

  function FormatEntries(c: Context, ps: seq<Parameter>): string
    decreases |ps|
  {
    if ps == [] then "" else FormatEntry(c, ps[0]) + FormatEntries(c, ps[1..])
  }

  function Serialize(c: Context, parameters: seq<Parameter>): string {
    var entries := FormatEntries(c, Sort(parameters));
    Line(TwoWords(SIGNATURE, "1"), Line(TwoWords("unit", UnitName(c.unit)), Line("", entries)))
  }

  function Line(line: string, rest: string): string { line + "\n" + rest }

  // ----- what is storable

  /** A parameter the file format can carry for this memory. */
  ghost predicate Good(c: Context, p: Parameter) {
    && p.address < UINT32_LIMIT && c.eligible(p.address) && c.codec.isDouble(p.value)
    && (p.address == c.coordinateSystem ==> LegalCoordinateSystem(p.value))
  }

  ghost predicate Storable(c: Context, ps: seq<Parameter>) {
    DistinctAddresses(ps) && forall i | 0 <= i < |ps| :: Good(c, ps[i])
  }

  lemma {:induction false} AddressesOfAppend(ps: seq<Parameter>, p: Parameter)
    ensures Addresses(ps + [p]) == Addresses(ps) + {p.address}
  {
    var all := ps + [p];
    forall a ensures a in Addresses(all) <==> a in Addresses(ps) + {p.address} {
      if a in Addresses(ps) {
        var i :| 0 <= i < |ps| && ps[i].address == a;
        assert all[i].address == a;
      }
      if a == p.address { assert all[|ps|].address == a; }
    }
  }

  lemma EntryIsGood(c: Context, line: nat, fields: seq<string>, ps: seq<Parameter>)
    requires Faithful(c.codec) && Storable(c, ps) && CheckEntry(c, line, fields, ps).Ok?
    ensures Storable(c, ps + [CheckEntry(c, line, fields, ps).value])
  {
    var p := CheckEntry(c, line, fields, ps).value;
    assert forall i | 0 <= i < |ps| :: ps[i].address in Addresses(ps);
  }

  lemma {:induction false} CheckedLinesAreStorable(c: Context, done: nat, lines: seq<string>, p: Progress)
    requires Faithful(c.codec) && Storable(c, p.parameters)
    ensures CheckLines(c, done, lines, p).Ok? ==> Storable(c, CheckLines(c, done, lines, p).value.parameters)
    decreases |lines|
  {
    if lines != [] {
      var r := CheckLine(c, done + 1, lines[0], p);
      if r.Ok? {
        if Content(lines[0]) != "" && p.header == Data {
          EntryIsGood(c, done + 1, Fields(Content(lines[0])), p.parameters);
        }
        CheckedLinesAreStorable(c, done + 1, lines[1..], r.value);
      }
    }
  }

  lemma SortKeepsStorable(c: Context, ps: seq<Parameter>)
    requires Storable(c, ps)
    ensures Storable(c, Sort(ps)) && Ascending(Sort(ps))
  {
    SortAscends(ps);
    var r := Sort(ps);
    forall i | 0 <= i < |r| ensures Good(c, r[i]) {
      assert r[i] in r;
      assert r[i] in ps;
    }
  }

  /** Whatever text is accepted, the result is strictly ascending by address and
      holds only eligible addresses, doubles and a legal coordinate system. */
  lemma AcceptedIsStorable(c: Context, text: string)
    requires Faithful(c.codec) && Parse(c, text).Ok?
    ensures Storable(c, Parse(c, text).value) && Ascending(Parse(c, text).value)
  {
    CheckedLinesAreStorable(c, 0, Lines(text), START);
    SortKeepsStorable(c, CheckLines(c, 0, Lines(text), START).value.parameters);
  }

  // ----- the round trip

  lemma CheckFirstLine(c: Context, done: nat, line: string, rest: string, p: Progress)
    requires '\n' !in line
    ensures CheckLines(c, done, Lines(Line(line, rest)), p)
         == match CheckLine(c, done + 1, line, p)
            case Err(e) => Err(e)
            case Ok(next) => CheckLines(c, done + 1, Lines(rest), next)
  {
    LinesOfLine(line, rest);
  }

  lemma CheckWords(c: Context, done: nat, a: string, b: string, rest: string, p: Progress)
    requires IsWord(a) && IsWord(b)
    ensures CheckLines(c, done, Lines(Line(TwoWords(a, b), rest)), p)
         == match CheckFields(c, done + 1, [a, b], p)
            case Err(e) => Err(e)
            case Ok(next) => CheckLines(c, done + 1, Lines(rest), next)
  {
    ContentOfTwoWords(a, b);
    FieldsOfTwoWords(a, b);
    CheckFirstLine(c, done, TwoWords(a, b), rest, p);
  }

  lemma NumberIsWord(n: nat)
    ensures IsWord(FormatNat(n))
  {}

  lemma EntryReadsBack(c: Context, done: nat, p: Parameter, ps: seq<Parameter>, rest: string)
    requires Faithful(c.codec) && Good(c, p) && p.address !in Addresses(ps)
    ensures CheckLines(c, done, Lines(FormatEntry(c, p) + rest), Progress(Data, ps))
         == CheckLines(c, done + 1, Lines(rest), Progress(Data, ps + [p]))
  {
    var a, v := FormatNat(p.address), c.codec.format(p.value);
    NumberIsWord(p.address);
    UInt32RoundTrip(p.address);
    assert FormatEntry(c, p) + rest == Line(TwoWords(a, v), rest);
    CheckWords(c, done, a, v, rest, Progress(Data, ps));
    assert CheckEntry(c, done + 1, [a, v], ps) == Ok(p);
  }

  lemma BlankTextAddsNothing(c: Context, done: nat, p: Progress)
    ensures CheckLines(c, done, Lines(""), p) == Ok(p)
  {
    ContentOfEmpty();
    assert Lines("") == [""];
    assert CheckLine(c, done + 1, "", p) == Ok(p);
    assert CheckLines(c, done + 1, [], p) == Ok(p);
  }

  lemma FirstIsFresh(c: Context, before: seq<Parameter>, ps: seq<Parameter>)
    requires ps != [] && Storable(c, before + ps)
    ensures Good(c, ps[0]) && ps[0].address !in Addresses(before)
    ensures before + [ps[0]] + ps[1..] == before + ps
  {
    assert (before + ps)[|before|] == ps[0];
    assert forall i | 0 <= i < |before| :: (before + ps)[i] == before[i];
  }

  lemma {:induction false} EntriesReadBack(c: Context, done: nat, ps: seq<Parameter>, before: seq<Parameter>)
    requires Faithful(c.codec) && Storable(c, before + ps)
    ensures CheckLines(c, done, Lines(FormatEntries(c, ps)), Progress(Data, before)) == Ok(Progress(Data, before + ps))
    decreases |ps|
  {
    if ps == [] {
      assert before + ps == before;
      BlankTextAddsNothing(c, done, Progress(Data, before));
    } else {
      FirstIsFresh(c, before, ps);
      EntryReadsBack(c, done, ps[0], before, FormatEntries(c, ps[1..]));
      EntriesReadBack(c, done + 1, ps[1..], before + [ps[0]]);
    }
  }

  lemma HeaderWords(c: Context)
    ensures IsWord(SIGNATURE) && IsWord("1") && IsWord("unit") && IsWord(UnitName(c.unit))
  {
    assert IsWord("inch") && IsWord("mm");
  }

  lemma SignatureFits(c: Context, word: string, one: string)
    requires word == SIGNATURE && one == "1"
    ensures CheckFields(c, 1, [word, one], START) == Ok(Progress(UnitLine, []))
  {}

  lemma SignatureReadsBack(c: Context, word: string, one: string, rest: string)
    requires word == SIGNATURE && one == "1"
    ensures CheckLines(c, 0, Lines(Line(TwoWords(word, one), rest)), START)
         == CheckLines(c, 1, Lines(rest), Progress(UnitLine, []))
  {
    hide *;
    HeaderWords(c);
    SignatureFits(c, word, one);
    CheckWords(c, 0, word, one, rest, START);
  }

  lemma UnitReadsBack(c: Context, rest: string)
    ensures CheckLines(c, 1, Lines(Line(TwoWords("unit", UnitName(c.unit)), rest)), Progress(UnitLine, []))
         == CheckLines(c, 2, Lines(rest), Progress(Data, []))
  {
    HeaderWords(c);
    CheckWords(c, 1, "unit", UnitName(c.unit), rest, Progress(UnitLine, []));
    assert CheckFields(c, 2, ["unit", UnitName(c.unit)], Progress(UnitLine, [])) == Ok(Progress(Data, []));
  }

  lemma GapReadsBack(c: Context, rest: string)
    ensures CheckLines(c, 2, Lines(Line("", rest)), Progress(Data, []))
         == CheckLines(c, 3, Lines(rest), Progress(Data, []))
  {
    ContentOfEmpty();
    CheckFirstLine(c, 2, "", rest, Progress(Data, []));
  }

  lemma HeaderReadsBack(c: Context, entries: string)
    ensures CheckLines(c, 0, Lines(Line(TwoWords(SIGNATURE, "1"),
                                        Line(TwoWords("unit", UnitName(c.unit)), Line("", entries)))), START)
         == CheckLines(c, 3, Lines(entries), Progress(Data, []))
  {
    SignatureReadsBack(c, SIGNATURE, "1", Line(TwoWords("unit", UnitName(c.unit)), Line("", entries)));
    UnitReadsBack(c, Line("", entries));
    GapReadsBack(c, entries);
  }

  /** Printing and parsing: any list of storable parameters, in any order, comes
      back sorted by address. */
  lemma RoundTrip(c: Context, ps: seq<Parameter>)
    requires Faithful(c.codec) && Storable(c, ps)
    ensures Parse(c, Serialize(c, ps)) == Ok(Sort(ps))
    ensures Ascending(Sort(ps)) && (forall q :: q in Sort(ps) <==> q in ps)
  {
    SortAscends(ps);
    SortKeepsStorable(c, ps);
    HeaderReadsBack(c, FormatEntries(c, Sort(ps)));
    assert [] + Sort(ps) == Sort(ps);
    EntriesReadBack(c, 3, Sort(ps), []);
    SortOfSorted(Sort(ps));
  }

  /** Re-serializing any accepted text and parsing again gives the same parameters. */
  lemma ReserializedParsesTheSame(c: Context, text: string)
    requires Faithful(c.codec) && Parse(c, text).Ok?
    ensures Parse(c, Serialize(c, Parse(c, text).value)) == Parse(c, text)
  {
    AcceptedIsStorable(c, text);
    RoundTrip(c, Parse(c, text).value);
    SortOfSorted(Parse(c, text).value);
  }

  // ----- what is accepted

  /** The fields of the lines that say something. */
  function Rows(lines: seq<string>): seq<seq<string>>
    decreases |lines|
  {
    if lines == [] then []
    else (if Content(lines[0]) == "" then [] else [Fields(Content(lines[0]))]) + Rows(lines[1..])
  }

  predicate EntryRow(c: Context, row: seq<string>) {
    && |row| == 2
    && ParseUInt32(row[0]).Some? && c.eligible(ParseUInt32(row[0]).value)
    && c.codec.parse(row[1]).Some? && c.codec.parse(row[1]).value.Finite?
    && (ParseUInt32(row[0]).value == c.coordinateSystem ==> LegalCoordinateSystem(c.codec.parse(row[1]).value.r))
  }

  function RowParameter(c: Context, row: seq<string>): Parameter
    requires EntryRow(c, row)
  {
    Parameter(ParseUInt32(row[0]).value, c.codec.parse(row[1]).value.r)
  }

  /** Rows after the header: entries, with addresses not used before. */
  ghost predicate EntryRows(c: Context, before: seq<Parameter>, rows: seq<seq<string>>) {
    && (forall i | 0 <= i < |rows| :: EntryRow(c, rows[i]))
    && (forall i | 0 <= i < |rows| :: RowParameter(c, rows[i]).address !in Addresses(before))
    && (forall i, j | 0 <= i < j < |rows| :: RowParameter(c, rows[i]).address != RowParameter(c, rows[j]).address)
  }

  predicate UnitRow(c: Context, row: seq<string>) { row == ["unit", UnitName(c.unit)] }

  ghost predicate WellFormed(c: Context, p: Progress, rows: seq<seq<string>>) {
    match p.header
    case Signature =>
      |rows| >= 2 && rows[0] == [SIGNATURE, "1"] && UnitRow(c, rows[1]) && EntryRows(c, p.parameters, rows[2..])
    case UnitLine => |rows| >= 1 && UnitRow(c, rows[0]) && EntryRows(c, p.parameters, rows[1..])
    case Data => EntryRows(c, p.parameters, rows)
  }

  ghost predicate Completes(outcome: Result<Progress, Error>) { outcome.Ok? && outcome.value.header == Data }

  lemma EntryRowsStep(c: Context, before: seq<Parameter>, row: seq<string>, rest: seq<seq<string>>)
    requires EntryRow(c, row) && RowParameter(c, row).address !in Addresses(before)
    ensures EntryRows(c, before, [row] + rest) <==> EntryRows(c, before + [RowParameter(c, row)], rest)
  {
    AddressesOfAppend(before, RowParameter(c, row));
    var rows := [row] + rest;
    if EntryRows(c, before + [RowParameter(c, row)], rest) {
      forall i | 0 <= i < |rows|
        ensures EntryRow(c, rows[i]) && RowParameter(c, rows[i]).address !in Addresses(before)
      {
        if i > 0 { assert rows[i] == rest[i - 1]; }
      }
      forall i, j | 0 <= i < j < |rows|
        ensures RowParameter(c, rows[i]).address != RowParameter(c, rows[j]).address
      {
        assert rows[j] == rest[j - 1];
        if i > 0 { assert rows[i] == rest[i - 1]; }
      }
    }
    if EntryRows(c, before, rows) {
      forall i | 0 <= i < |rest|
        ensures EntryRow(c, rest[i]) && RowParameter(c, rest[i]).address !in Addresses(before + [RowParameter(c, row)])
      {
        assert rows[i + 1] == rest[i] && rows[0] == row;
      }
      forall i, j | 0 <= i < j < |rest|
        ensures RowParameter(c, rest[i]).address != RowParameter(c, rest[j]).address
      {
        assert rows[i + 1] == rest[i] && rows[j + 1] == rest[j];
      }
    }
  }

  lemma EntryMatchesRow(c: Context, line: nat, row: seq<string>, before: seq<Parameter>)
    ensures CheckEntry(c, line, row, before).Ok?
            <==> EntryRow(c, row) && RowParameter(c, row).address !in Addresses(before)
    ensures CheckEntry(c, line, row, before).Ok? ==> CheckEntry(c, line, row, before).value == RowParameter(c, row)
  {}

  /** One saying line: it completes exactly when it fits and the rest does. */
  lemma RowStep(c: Context, line: nat, row: seq<string>, p: Progress, rest: seq<seq<string>>)
    ensures var r := CheckFields(c, line, row, p);
            WellFormed(c, p, [row] + rest) <==> r.Ok? && WellFormed(c, r.value, rest)
  {
    var rows := [row] + rest;
    assert rows[0] == row && rows[1..] == rest;
    match p.header
    case Signature =>
      if rest != [] { assert rows[2..] == rest[1..] && rows[1] == rest[0]; }
    case UnitLine =>
    case Data =>
      EntryMatchesRow(c, line, row, p.parameters);
      if EntryRow(c, row) && RowParameter(c, row).address !in Addresses(p.parameters) {
        EntryRowsStep(c, p.parameters, row, rest);
      }
  }

  lemma {:induction false} CompletesExactly(c: Context, done: nat, lines: seq<string>, p: Progress)
    ensures Completes(CheckLines(c, done, lines, p)) <==> WellFormed(c, p, Rows(lines))
    decreases |lines|
  {
    if lines != [] {
      var r := CheckLine(c, done + 1, lines[0], p);
      if Content(lines[0]) == "" {
        assert Rows(lines) == Rows(lines[1..]);
      } else {
        RowStep(c, done + 1, Fields(Content(lines[0])), p, Rows(lines[1..]));
        assert Rows(lines) == [Fields(Content(lines[0]))] + Rows(lines[1..]);
      }
      assert WellFormed(c, p, Rows(lines)) <==> r.Ok? && WellFormed(c, r.value, Rows(lines[1..]));
      if r.Ok? {
        CompletesExactly(c, done + 1, lines[1..], r.value);
      }
    }
  }

  function RowParameters(c: Context, rows: seq<seq<string>>): seq<Parameter>
    requires forall i | 0 <= i < |rows| :: EntryRow(c, rows[i])
    decreases |rows|
  {
    if rows == [] then [] else [RowParameter(c, rows[0])] + RowParameters(c, rows[1..])
  }

  lemma {:induction false} DataRowsAreCollected(c: Context, done: nat, lines: seq<string>, before: seq<Parameter>)
    requires EntryRows(c, before, Rows(lines))
    ensures CheckLines(c, done, lines, Progress(Data, before))
         == Ok(Progress(Data, before + RowParameters(c, Rows(lines))))
    decreases |lines|
  {
    if lines == [] {
      assert before + [] == before;
    } else if Content(lines[0]) == "" {
      assert Rows(lines) == Rows(lines[1..]);
      DataRowsAreCollected(c, done + 1, lines[1..], before);
    } else {
      var row, rest := Fields(Content(lines[0])), Rows(lines[1..]);
      assert Rows(lines) == [row] + rest && Rows(lines)[0] == row;
      assert EntryRow(c, row) && RowParameter(c, row).address !in Addresses(before);
      EntryMatchesRow(c, done + 1, row, before);
      EntryRowsStep(c, before, row, rest);
      DataRowsAreCollected(c, done + 1, lines[1..], before + [RowParameter(c, row)]);
      assert RowParameters(c, Rows(lines)) == [RowParameter(c, row)] + RowParameters(c, rest);
      assert before + [RowParameter(c, row)] + RowParameters(c, rest) == before + RowParameters(c, Rows(lines));
    }
  }

  /** The rows that follow the header a parse still waits for. */
  function EntryPart(header: Header, rows: seq<seq<string>>): seq<seq<string>>
    requires |rows| >= if header == Signature then 2 else if header == UnitLine then 1 else 0
  {
    if header == Signature then rows[2..] else if header == UnitLine then rows[1..] else rows
  }

  lemma {:induction false} RowsAreCollected(c: Context, done: nat, lines: seq<string>, p: Progress)
    requires WellFormed(c, p, Rows(lines))
    ensures CheckLines(c, done, lines, p)
         == Ok(Progress(Data, p.parameters + RowParameters(c, EntryPart(p.header, Rows(lines)))))
    decreases |lines|
  {
    if p.header == Data {
      DataRowsAreCollected(c, done, lines, p.parameters);
    } else if Content(lines[0]) == "" {
      assert Rows(lines) == Rows(lines[1..]);
      RowsAreCollected(c, done + 1, lines[1..], p);
    } else {
      var row, rest := Fields(Content(lines[0])), Rows(lines[1..]);
      assert Rows(lines) == [row] + rest;
      RowStep(c, done + 1, row, p, rest);
      HeaderRow(c, done + 1, row, p, rest);
      RowsAreCollected(c, done + 1, lines[1..], CheckFields(c, done + 1, row, p).value);
    }
  }

  /** A header row that fits moves the parse on to the next header state. */
  lemma HeaderRow(c: Context, line: nat, row: seq<string>, p: Progress, rest: seq<seq<string>>)
    requires p.header != Data && CheckFields(c, line, row, p).Ok?
    requires WellFormed(c, p, [row] + rest) && WellFormed(c, CheckFields(c, line, row, p).value, rest)
    ensures var next := CheckFields(c, line, row, p).value;
            next.parameters == p.parameters && EntryPart(p.header, [row] + rest) == EntryPart(next.header, rest)
  {}

  /** A text is accepted if and only if its lines, comments and blanks aside, are
      the signature, the configured unit, and entries that each hold an eligible
      address and a finite, legal value, with no address twice; the result is
      those entries sorted. */
  lemma AcceptedExactly(c: Context, text: string)
    ensures Parse(c, text).Ok? <==> WellFormed(c, START, Rows(Lines(text)))
    ensures Parse(c, text).Ok? ==> Parse(c, text).value == Sort(RowParameters(c, Rows(Lines(text))[2..]))
  {
    CompletesExactly(c, 0, Lines(text), START);
    if Parse(c, text).Ok? {
      RowsAreCollected(c, 0, Lines(text), START);
      assert [] + RowParameters(c, Rows(Lines(text))[2..]) == RowParameters(c, Rows(Lines(text))[2..]);
    }
  }
}
