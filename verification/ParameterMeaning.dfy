/** What a parameter file says, line by line, what a refusal asserts of it, and
    what a saved one looks like (src/ParameterStore.cpp 17-46 and 78-176). */
module ParameterMeaning {

  import opened Text
  import opened Doubles
  import opened ParameterText
  import opened ParameterStore
  import opened ParameterFile

  // ----- words

  lemma FindShift(s: string, k: nat, t: string, blank: bool, i: nat)
    requires k <= |s| && t == s[k..] && i <= |t|
    ensures FindBlank(s, blank, k + i) == k + FindBlank(t, blank, i)
  {
    var at := FindBlank(t, blank, i);
    forall j | k + i <= j < k + at ensures IsBlank(s[j]) != blank { assert s[j] == t[j - k]; }
    FindBlankIs(s, blank, k + i, k + at);
  }

  lemma FindSkips(s: string, k: nat)
    requires k <= |s| && forall i | 0 <= i < k :: IsBlank(s[i])
    ensures FindBlank(s, false, 0) == FindBlank(s, false, k)
  {
    FindBlankIs(s, false, 0, FindBlank(s, false, k));
  }

  lemma FieldsUnfold(s: string)
    ensures var first := FindBlank(s, false, 0);
            var end := FindBlank(s, true, first);
            Fields(s) == if first == |s| then [] else [s[first..end]] + Fields(s[end..])
  {}

  /** Leading blanks are no part of any word. */
  lemma LeadingBlanks(s: string, k: nat, t: string)
    requires k <= |s| && t == s[k..] && forall i | 0 <= i < k :: IsBlank(s[i])
    ensures Fields(s) == Fields(t)
  {
    FindSkips(s, k);
    FindShift(s, k, t, false, 0);
    var first := FindBlank(t, false, 0);
    FindShift(s, k, t, true, first);
    ShiftedFields(s, k, t, first, FindBlank(t, true, first));
  }

  lemma ShiftedFields(s: string, k: nat, t: string, first: nat, end: nat)
    requires k <= |s| && t == s[k..] && first == FindBlank(t, false, 0) && end == FindBlank(t, true, first)
    requires FindBlank(s, false, 0) == k + first && FindBlank(s, true, k + first) == k + end
    ensures Fields(s) == Fields(t)
  {
    hide Fields, FindBlank, IsBlank;
    if first < |t| {
      FieldsFrom(s, k + first, k + end);
      FieldsFrom(t, first, end);
      SliceShift(s, k, t, first, end);
    } else {
      FieldsUnfold(s);
      FieldsUnfold(t);
    }
  }

  lemma FieldsFrom(s: string, first: nat, end: nat)
    requires first == FindBlank(s, false, 0) < |s| && end == FindBlank(s, true, first)
    ensures end <= |s| && Fields(s) == [s[first..end]] + Fields(s[end..])
  {
    hide Fields, FindBlank, IsBlank;
    FieldsUnfold(s);
  }

  lemma SliceShift(s: string, k: nat, t: string, i: nat, j: nat)
    requires k <= |s| && t == s[k..] && i <= j <= |t|
    ensures s[k + i..k + j] == t[i..j] && s[k + j..] == t[j..]
  {}

  /** A run of characters without a blank is one word. */
  lemma WordIsField(word: string)
    requires word != "" && forall i | 0 <= i < |word| :: !IsBlank(word[i])
    ensures Fields(word) == [word]
  {
    FindBlankIs(word, false, 0, 0);
    FindBlankIs(word, true, 0, |word|);
    assert word[0..|word|] == word && word[|word|..] == "";
    assert Fields("") == [];
  }

  predicate Joined(s: string, a: string, c: char, b: string) { s == a + [c] + b }

  /** The first word of `a` is the first word of `a` with a blank and more behind it. */
  lemma FirstWordStands(s: string, a: string, c: char, b: string, first: nat, end: nat)
    requires Joined(s, a, c, b) && IsBlank(c)
    requires first == FindBlank(a, false, 0) < |a| && end == FindBlank(a, true, first)
    ensures first < end <= |a| && end <= |s|
    ensures Fields(s) == [a[first..end]] + Fields(s[end..]) && Joined(s[end..], a[end..], c, b)
  {
    FindWithin(s, a, c, b, false, 0);
    FindWithin(s, a, c, b, true, first);
    FieldsUnfold(s);
    hide Fields, FindBlank, IsBlank;
    SliceWithin(s, a, c, b, first, end);
  }

  lemma FindWithin(s: string, a: string, c: char, b: string, blank: bool, i: nat)
    requires Joined(s, a, c, b) && i <= |a| && (FindBlank(a, blank, i) < |a| || IsBlank(c) == blank)
    ensures |a| < |s| && FindBlank(s, blank, i) == FindBlank(a, blank, i)
  {
    hide IsBlank;
    var at := FindBlank(a, blank, i);
    forall j | i <= j < at ensures IsBlank(s[j]) != blank { assert s[j] == a[j]; }
    assert s[at] == if at < |a| then a[at] else c;
    FindBlankIs(s, blank, i, at);
  }

  lemma SliceWithin(s: string, a: string, c: char, b: string, i: nat, j: nat)
    requires Joined(s, a, c, b) && i <= j <= |a|
    ensures j <= |s| && s[i..j] == a[i..j] && Joined(s[j..], a[j..], c, b)
  {
    assert s[j..] == a[j..] + [c] + b;
  }

  /** Blanks alone in front of a blank are no words. */
  lemma BlanksAhead(s: string, a: string, c: char, b: string)
    requires Joined(s, a, c, b) && IsBlank(c) && forall i | 0 <= i < |a| :: IsBlank(a[i])
    ensures Fields(s) == Fields(b)
  {
    hide Fields, IsBlank;
    assert s[|a| + 1..] == b;
    forall i | 0 <= i < |a| + 1 ensures IsBlank(s[i]) { assert s[i] == if i < |a| then a[i] else c; }
    LeadingBlanks(s, |a| + 1, b);
  }

  /** A blank ends a word, and the words on both sides stand. */
  lemma {:induction false} BlankSeparates(s: string, a: string, c: char, b: string)
    requires Joined(s, a, c, b) && IsBlank(c)
    ensures Fields(s) == Fields(a) + Fields(b)
    decreases |a|
  {
    hide Joined, Fields, FindBlank, IsBlank;
    FieldsUnfold(a);
    var first := FindBlank(a, false, 0);
    if first == |a| {
      BlanksAhead(s, a, c, b);
    } else {
      var end := FindBlank(a, true, first);
      FirstWordStands(s, a, c, b, first, end);
      BlankSeparates(s[end..], a[end..], c, b);
    }
  }

  lemma {:induction false} TrailingBlanks(s: string, k: nat)
    requires k <= |s| && forall i | k <= i < |s| :: IsBlank(s[i])
    ensures Fields(s[..k]) == Fields(s)
    decreases |s|
  {
    if k == |s| {
      assert s[..k] == s;
    } else {
      var n := |s| - 1;
      var shorter := s[..n];
      TrailingBlanks(shorter, k);
      assert shorter[..k] == s[..k];
      assert s == shorter + [s[n]] + "";
      BlankSeparates(s, shorter, s[n], "");
      assert Fields("") == [];
    }
  }

  lemma TrimIs(s: string)
    ensures var first := FindBlank(s, false, 0);
            if first == |s| then Trim(s) == "" && Fields(s) == []
            else
              var last := AfterLastNonBlank(s, |s|);
              first < last <= |s| && Trim(s) == s[first..last] && Trim(s) != "" && Fields(s) != []
  {}

  ghost predicate BlankOutside(s: string, first: nat, last: nat) {
    forall i | 0 <= i < |s| && !(first <= i < last) :: IsBlank(s[i])
  }

  lemma BlankTail(s: string, first: nat, last: nat, t: string)
    requires first <= last <= |s| && BlankOutside(s, first, last) && t == s[first..]
    ensures forall i | last - first <= i < |t| :: IsBlank(t[i])
    ensures forall i | 0 <= i < first :: IsBlank(s[i])
    ensures s[first..last] == t[..last - first]
  {
    hide IsBlank;
    forall i | last - first <= i < |t| ensures IsBlank(t[i]) { assert t[i] == s[first + i]; }
  }

  lemma CutFields(s: string, first: nat, last: nat)
    requires first <= last <= |s| && BlankOutside(s, first, last)
    ensures Fields(s[first..last]) == Fields(s)
  {
    hide *;
    var t := s[first..];
    BlankTail(s, first, last, t);
    LeadingBlanks(s, first, t);
    TrailingBlanks(t, last - first);
  }

  /** Trimming takes no word away. */
  lemma TrimmedFields(s: string)
    ensures Fields(Trim(s)) == Fields(s) && (Trim(s) == "" <==> Fields(s) == [])
  {
    assert Fields("") == [];
    TrimIs(s);
    var first := FindBlank(s, false, 0);
    if first < |s| {
      assert BlankOutside(s, first, AfterLastNonBlank(s, |s|));
      hide *;
      CutFields(s, first, AfterLastNonBlank(s, |s|));
    }
  }

  // ----- lines

  /** The words of a line. */
  function Row(line: string): seq<string> { if Content(line) == "" then [] else Fields(Content(line)) }

  /** What follows a `#` says nothing; what precedes it says its words. */
  lemma LineSays(a: string, b: string)
    requires '#' !in a
    ensures Row(a) == Fields(a) && Row(a + "#" + b) == Fields(a)
  {
    var line := a + "#" + b;
    assert line[0..|a|] == a && a[0..|a|] == a;
    FindIs(line, '#', 0, |a|);
    FindIs(a, '#', 0, |a|);
    assert line[..|a|] == a && a[..|a|] == a;
    TrimmedFields(a);
    assert Fields("") == [];
  }

  /** The rows of a text are those of its lines, silent lines left out. */
  lemma TextSays(line: string, rest: string)
    requires '\n' !in line
    ensures Rows(Lines(line + "\n" + rest)) == (if Row(line) == [] then [] else [Row(line)]) + Rows(Lines(rest))
    ensures Rows(Lines(line)) == if Row(line) == [] then [] else [Row(line)]
  {
    LinesOfLine(line, rest);
    assert line[0..|line|] == line;
    FindIs(line, '\n', 0, |line|);
    RowIsSilent(line);
    assert Rows([]) == [];
    assert ([line] + Lines(rest))[1..] == Lines(rest);
  }

  lemma RowIsSilent(line: string)
    ensures Row(line) == [] <==> Content(line) == ""
  {
    TrimmedFields(line[..Find(line, '#', 0)]);
    TrimmedFields(Content(line));
    assert Fields("") == [];
  }

  /** A whole coordinate system, G54 to G59.3. */
  lemma CoordinateSystemIsLegal(value: real)
    ensures LegalCoordinateSystem(value) <==> exists n: int :: IsSystem(n, value)
  {
    if LegalCoordinateSystem(value) {
      assert IsSystem(value.Floor, value);
    }
  }

  predicate IsSystem(n: int, value: real) { 1 <= n <= 9 && value == n as real }

  // ----- a saved file

  /** The printed entries, one to a line. */
  ghost predicate Prints(c: Context, ps: seq<Parameter>, text: string)
    decreases |ps|
  {
    if ps == [] then text == ""
    else exists rest :: text == FormatNat(ps[0].address) + " " + c.codec.format(ps[0].value) + "\n" + rest
                        && Prints(c, ps[1..], rest)
  }

  lemma {:induction false} EntriesPrint(c: Context, ps: seq<Parameter>)
    ensures Prints(c, ps, FormatEntries(c, ps))
    decreases |ps|
  {
    if ps != [] {
      EntriesPrint(c, ps[1..]);
      var rest := FormatEntries(c, ps[1..]);
      assert FormatEntries(c, ps) == FormatNat(ps[0].address) + " " + c.codec.format(ps[0].value) + "\n" + rest;
    }
  }

  /** A saved file: the signature, the unit by its name, an empty line, and the
      parameters in order of their addresses, each a number, a blank and a value. */
  lemma SavedText(c: Context, ps: seq<Parameter>)
    ensures exists entries ::
              && Prints(c, Sort(ps), entries)
              && Serialize(c, ps) == (if c.unit == Inch then "NGC_PARAMETERS 1\nunit inch\n\n"
                                      else "NGC_PARAMETERS 1\nunit mm\n\n") + entries
  {
    var entries := FormatEntries(c, Sort(ps));
    EntriesPrint(c, Sort(ps));
    assert SIGNATURE == "NGC_PARAMETERS";
    var first, second := TwoWords(SIGNATURE, "1"), TwoWords("unit", UnitName(c.unit));
    assert Line(first, Line(second, Line("", entries))) == (first + "\n" + second + "\n\n") + entries;
    HeaderText(c, first, second);
  }

  lemma HeaderText(c: Context, first: string, second: string)
    requires first == "NGC_PARAMETERS" + " " + "1" && second == "unit" + " " + UnitName(c.unit)
    ensures first + "\n" + second + "\n\n" ==
            if c.unit == Inch then "NGC_PARAMETERS 1\nunit inch\n\n" else "NGC_PARAMETERS 1\nunit mm\n\n"
  {}

  // ----- refusals

  /** An earlier line gives the same address. */
  ghost predicate GivenBefore(lines: seq<string>, n: nat, address: nat)
    requires n <= |lines|
  {
    var rows := Rows(lines[..n]);
    exists i | 2 <= i < |rows| :: rows[i] != [] && ParseUInt32(rows[i][0]) == Some(address)
  }

  predicate IsSignature(row: seq<string>) { row == ["NGC_PARAMETERS", "1"] }

  predicate NamesUnit(row: seq<string>) { |row| == 2 && row[0] == "unit" }

  predicate NamesOther(c: Context, row: seq<string>, found: string) {
    row == ["unit", found] && found != (if c.unit == Inch then "inch" else "mm")
  }

  /** What each refusal asserts of the line with that number, counted from 1. */
  ghost predicate Defect(c: Context, lines: seq<string>, error: Error) {
    match error
    case HeaderMissing => |Rows(lines)| < 2
    case HeaderError(number, problem) =>
      && 0 < number <= |lines| && Row(lines[number - 1]) != []
      && var row := Row(lines[number - 1]);
         (match problem
          case BadSignature => |Rows(lines[..number - 1])| == 0 && !IsSignature(row)
          case BadUnitLine => |Rows(lines[..number - 1])| == 1 && !NamesUnit(row)
          case UnitMismatch(found) => |Rows(lines[..number - 1])| == 1 && NamesOther(c, row, found))
    case EntryError(number, problem) =>
      && 0 < number <= |lines| && Row(lines[number - 1]) != [] && |Rows(lines[..number - 1])| >= 2
      && var row := Row(lines[number - 1]);
         if |row| != 2 then problem == BadFieldCount
         else EntryDefect(c, lines, number - 1, row[0], row[1], problem)
  }

  /** What is wrong with an address and a value. */
  ghost predicate EntryDefect(c: Context, lines: seq<string>, n: nat, address: string, value: string, problem: EntryProblem)
    requires n <= |lines|
  {
    match problem
    case BadFieldCount => false
    case BadNumber(text) =>
      (text == address && ParseUInt32(address).None?) || (text == value && c.codec.parse(value).None?)
    case NonFiniteValue => c.codec.parse(value) == Some(NonFinite)
    case IneligibleAddress(a) => ParseUInt32(address) == Some(a) && !c.eligible(a)
    case BadCoordinateSystem(v) =>
      && ParseUInt32(address) == Some(c.coordinateSystem) && c.codec.parse(value) == Some(Finite(v))
      && !exists n: int :: IsSystem(n, v)
    case DuplicateAddress(a) => ParseUInt32(address) == Some(a) && GivenBefore(lines, n, a)
  }

  /** How far the parse of the first `n` lines has got. */
  ghost predicate Reached(c: Context, lines: seq<string>, n: nat, p: Progress)
    requires n <= |lines|
  {
    var rows := Rows(lines[..n]);
    match p.header
    case Signature => |rows| == 0 && p.parameters == []
    case UnitLine => |rows| == 1 && p.parameters == []
    case Data =>
      && |rows| >= 2
      && forall q | q in p.parameters :: GivenBefore(lines, n, q.address)
  }

  lemma RowsUnfold(lines: seq<string>)
    requires lines != []
    ensures Rows(lines) == (if Row(lines[0]) == [] then [] else [Row(lines[0])]) + Rows(lines[1..])
  {
    RowIsSilent(lines[0]);
  }

  lemma {:induction false} RowsAppend(lines: seq<string>, line: string)
    ensures Rows(lines + [line]) == Rows(lines) + if Row(line) == [] then [] else [Row(line)]
    decreases |lines|
  {
    assert Rows([]) == [];
    hide Rows, Row;
    var all := lines + [line];
    RowsUnfold(all);
    if lines == [] {
      assert all[1..] == [];
    } else {
      RowsUnfold(lines);
      assert all[0] == lines[0] && all[1..] == lines[1..] + [line];
      RowsAppend(lines[1..], line);
    }
  }

  lemma StillGiven(lines: seq<string>, n: nat, address: nat)
    requires n < |lines| && GivenBefore(lines, n, address)
    ensures GivenBefore(lines, n + 1, address)
  {
    assert lines[..n + 1] == lines[..n] + [lines[n]];
    RowsAppend(lines[..n], lines[n]);
    var rows := Rows(lines[..n]);
    var i :| 2 <= i < |rows| && rows[i] != [] && ParseUInt32(rows[i][0]) == Some(address);
    assert Rows(lines[..n + 1])[i] == rows[i];
  }

  lemma NowGiven(lines: seq<string>, n: nat, address: nat)
    requires n < |lines| && |Rows(lines[..n])| >= 2 && Row(lines[n]) != []
    requires ParseUInt32(Row(lines[n])[0]) == Some(address)
    ensures GivenBefore(lines, n + 1, address)
  {
    assert lines[..n + 1] == lines[..n] + [lines[n]];
    RowsAppend(lines[..n], lines[n]);
    assert Rows(lines[..n + 1])[|Rows(lines[..n])|] == Row(lines[n]);
  }

  lemma EntryRefused(c: Context, lines: seq<string>, n: nat, p: Progress)
    requires n < |lines| && Reached(c, lines, n, p) && p.header == Data && Row(lines[n]) != []
    requires CheckEntry(c, n + 1, Row(lines[n]), p.parameters).Err?
    ensures Defect(c, lines, CheckEntry(c, n + 1, Row(lines[n]), p.parameters).error)
  {
    hide GivenBefore, ParseUInt32, Rows, Row;
    var row := Row(lines[n]);
    if |row| == 2 && c.codec.parse(row[1]).Some? && c.codec.parse(row[1]).value.Finite? {
      CoordinateSystemIsLegal(c.codec.parse(row[1]).value.r);
    }
  }

  lemma EntryTaken(c: Context, lines: seq<string>, n: nat, p: Progress)
    requires n < |lines| && Reached(c, lines, n, p) && p.header == Data && Row(lines[n]) != []
    requires CheckEntry(c, n + 1, Row(lines[n]), p.parameters).Ok?
    ensures Reached(c, lines, n + 1, p.(parameters := p.parameters + [CheckEntry(c, n + 1, Row(lines[n]), p.parameters).value]))
  {
    var taken := CheckEntry(c, n + 1, Row(lines[n]), p.parameters).value;
    assert lines[..n + 1] == lines[..n] + [lines[n]];
    RowsAppend(lines[..n], lines[n]);
    NowGiven(lines, n, taken.address);
    forall q | q in p.parameters + [taken] ensures GivenBefore(lines, n + 1, q.address) {
      if q in p.parameters { StillGiven(lines, n, q.address); }
    }
    hide GivenBefore, CheckEntry, Row;
  }

  lemma LineReaches(c: Context, lines: seq<string>, n: nat, p: Progress)
    requires n < |lines| && Reached(c, lines, n, p)
    ensures var r := CheckLine(c, n + 1, lines[n], p);
            if r.Ok? then Reached(c, lines, n + 1, r.value) else Defect(c, lines, r.error)
  {
    RowIsSilent(lines[n]);
    if Content(lines[n]) == "" {
      SilentLine(c, lines, n, p);
    } else if p.header == Data {
      assert Row(lines[n]) == Fields(Content(lines[n]));
      if CheckEntry(c, n + 1, Row(lines[n]), p.parameters).Ok? {
        EntryTaken(c, lines, n, p);
      } else {
        EntryRefused(c, lines, n, p);
      }
      hide CheckEntry, Row, Reached, Defect;
    } else {
      HeaderLine(c, lines, n, p);
    }
  }

  lemma SilentLine(c: Context, lines: seq<string>, n: nat, p: Progress)
    requires n < |lines| && Reached(c, lines, n, p) && Row(lines[n]) == []
    ensures Reached(c, lines, n + 1, p)
  {
    assert lines[..n + 1] == lines[..n] + [lines[n]];
    RowsAppend(lines[..n], lines[n]);
    forall q | q in p.parameters && p.header == Data ensures GivenBefore(lines, n + 1, q.address) {
      StillGiven(lines, n, q.address);
    }
    hide GivenBefore, Row;
  }

  lemma HeaderLine(c: Context, lines: seq<string>, n: nat, p: Progress)
    requires n < |lines| && Reached(c, lines, n, p) && p.header != Data && Row(lines[n]) != []
    ensures var r := CheckFields(c, n + 1, Row(lines[n]), p);
            if r.Ok? then Reached(c, lines, n + 1, r.value) else Defect(c, lines, r.error)
  {
    hide Row, Rows, CheckFields, EntryDefect, GivenBefore, IsSignature, NamesUnit, NamesOther;
    if p.header == Signature { SignatureFields(c, n + 1, Row(lines[n]), p); } else { UnitFields(c, n + 1, Row(lines[n]), p); }
    assert lines[..n + 1] == lines[..n] + [lines[n]];
    RowsAppend(lines[..n], lines[n]);
  }

  lemma SignatureFields(c: Context, number: nat, row: seq<string>, p: Progress)
    requires p.header == Signature
    ensures CheckFields(c, number, row, p) ==
            if IsSignature(row) then Ok(p.(header := UnitLine)) else Err(HeaderError(number, BadSignature))
  {
    assert SIGNATURE == "NGC_PARAMETERS";
  }

  lemma UnitFields(c: Context, number: nat, row: seq<string>, p: Progress)
    requires p.header == UnitLine
    ensures var r := CheckFields(c, number, row, p);
            match r
            case Ok(next) => next == p.(header := Data)
            case Err(e) =>
              || (!NamesUnit(row) && e == HeaderError(number, BadUnitLine))
              || (NamesUnit(row) && NamesOther(c, row, row[1]) && e == HeaderError(number, UnitMismatch(row[1])))
  {}

  lemma {:induction false} LinesReach(c: Context, lines: seq<string>, n: nat, p: Progress)
    requires n <= |lines| && Reached(c, lines, n, p)
    ensures var r := CheckLines(c, n, lines[n..], p);
            if r.Ok? then Reached(c, lines, |lines|, r.value) else Defect(c, lines, r.error)
    decreases |lines| - n
  {
    hide CheckLine, Reached, Defect;
    if n < |lines| {
      LineReaches(c, lines, n, p);
      assert lines[n..][0] == lines[n] && lines[n..][1..] == lines[n + 1..];
      var r := CheckLine(c, n + 1, lines[n], p);
      if r.Ok? { LinesReach(c, lines, n + 1, r.value); }
    }
  }

  /** Every refused text has the defect the refusal names, on the line it names:
      the first two lines that say anything are the signature and the unit, all
      others entries. */
  lemma RefusalIsInText(c: Context, text: string)
    requires Parse(c, text).Err?
    ensures Defect(c, Lines(text), Parse(c, text).error)
  {
    var lines := Lines(text);
    assert lines[..0] == [] && lines[0..] == lines && lines[..|lines|] == lines;
    assert Reached(c, lines, 0, START) by { assert Rows([]) == []; }
    LinesReach(c, lines, 0, START);
  }

  // ----- saving

  /** A refused save names an eligible cell that is not finite, or the active
      coordinate system with its illegal value. */
  lemma {:induction false} SaveRefusalIsThere(c: Context, addresses: seq<nat>, values: map<nat, Number>)
    requires (forall a | a in addresses :: a in values) && Save(c, addresses, values).Err?
    ensures match Save(c, addresses, values).error
            case NonFiniteParameter(a) => a in addresses && c.eligible(a) && values[a] == NonFinite
            case IllegalSystem(v) =>
              && c.coordinateSystem in addresses && c.eligible(c.coordinateSystem)
              && values[c.coordinateSystem] == Finite(v) && !LegalCoordinateSystem(v)
            case _ => false
    decreases |addresses|
  {
    hide Serialize, LegalCoordinateSystem;
    assert addresses != [] && addresses == [addresses[0]] + addresses[1..];
    if c.eligible(addresses[0]) {
      assert Persistent(c, addresses, values)[1..] == Persistent(c, addresses[1..], values);
    } else {
      assert Persistent(c, addresses, values) == Persistent(c, addresses[1..], values);
    }
    if Save(c, addresses[1..], values).Err? {
      SaveRefusalIsThere(c, addresses[1..], values);
    }
  }
}
