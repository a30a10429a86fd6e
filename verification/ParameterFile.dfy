/** The parsing loop over one text, and saving memory to a file and loading it
    back (src/ParameterStore.cpp 78-164 and 178-215,
    src/include/memory/Memory.h 164-201). */
module ParameterFile {

  import opened Text
  import opened Doubles
  import opened ParameterText
  import opened ParameterStore

  lemma FindInTail(text: string, start: nat, tail: string)
    requires start <= |text| && tail == text[start..]
    ensures Find(tail, '\n', 0) == Find(text, '\n', start) - start
  {
    var end := Find(text, '\n', start);
    assert tail[0..end - start] == text[start..end];
    FindIs(tail, '\n', 0, end - start);
  }

  lemma LinesFromFront(text: string, start: nat, tail: string)
    requires start <= |text| && tail == text[start..]
    ensures var end := Find(text, '\n', start);
            Lines(tail) == (if end == |text| then [text[start..end]]
                            else [text[start..end]] + Lines(text[end + 1..]))
  {
    var end := Find(text, '\n', start);
    FindInTail(text, start, tail);
    assert tail[..end - start] == text[start..end];
    if end < |text| {
      assert tail[end - start + 1..] == text[end + 1..];
    } else {
      assert tail == text[start..end];
    }
  }

  /** One line that says something: the header states in order, then entries. */
  method ParseFields(c: Context, lineNumber: nat, fields: seq<string>, state: Header, result: seq<Parameter>)
    returns (error: Option<Error>, newState: Header, newResult: seq<Parameter>)
    ensures CheckFields(c, lineNumber, fields, Progress(state, result))
         == if error.Some? then Err(error.value) else Ok(Progress(newState, newResult))
  {
    error, newState, newResult := None, state, result;
    match state
    case Signature =>
      if fields != [SIGNATURE, "1"] {
        error := Some(HeaderError(lineNumber, BadSignature));
      }
      newState := UnitLine;
    case UnitLine =>
      if |fields| != 2 || fields[0] != "unit" {
        error := Some(HeaderError(lineNumber, BadUnitLine));
      } else if fields[1] != UnitName(c.unit) {
        error := Some(HeaderError(lineNumber, UnitMismatch(fields[1])));
      }
      newState := Data;
    case Data =>
      var entry := CheckEntry(c, lineNumber, fields, result);
      if entry.Err? {
        error := Some(entry.error);
      } else {
        newResult := result + [entry.value];
      }
  }

  /** A line without its newline: comment and blanks off, then its fields. */
  method ParseLine(c: Context, lineNumber: nat, line: string, state: Header, result: seq<Parameter>)
    returns (error: Option<Error>, newState: Header, newResult: seq<Parameter>)
    ensures CheckLine(c, lineNumber, line, Progress(state, result))
         == if error.Some? then Err(error.value) else Ok(Progress(newState, newResult))
  {
    error, newState, newResult := None, state, result;
    var content := Content(line);
    if content != "" {
      var fields := Tokens(content);
      error, newState, newResult := ParseFields(c, lineNumber, fields, state, result);
    }
  }

  /** The outcome of the lines from a cursor on. */
  function Remaining(c: Context, text: string, start: nat, done: nat, p: Progress): Result<Progress, Error>
    requires start <= |text|
  {
    CheckLines(c, done, Lines(text[start..]), p)
  }

  lemma CheckHead(c: Context, done: nat, line: string, rest: seq<string>, p: Progress)
    ensures var r := CheckLine(c, done + 1, line, p);
            CheckLines(c, done, [line] + rest, p) == (if r.Err? then r else CheckLines(c, done + 1, rest, r.value))
  {
    assert ([line] + rest)[1..] == rest;
  }

  lemma CheckSole(c: Context, done: nat, line: string, p: Progress)
    ensures CheckLines(c, done, [line], p) == CheckLine(c, done + 1, line, p)
  {
    assert [line] + [] == [line];
    CheckHead(c, done, line, [], p);
  }

  lemma LastFromFront(c: Context, text: string, start: nat, done: nat, p: Progress)
    requires start <= |text| && Find(text, '\n', start) == |text|
    ensures Remaining(c, text, start, done, p) == CheckLine(c, done + 1, text[start..|text|], p)
  {
    LinesFromFront(text, start, text[start..]);
    CheckSole(c, done, text[start..|text|], p);
  }

  lemma NextFromFront(c: Context, text: string, start: nat, end: nat, done: nat, p: Progress)
    requires start <= end < |text| && Find(text, '\n', start) == end
    ensures var r := CheckLine(c, done + 1, text[start..end], p);
            Remaining(c, text, start, done, p)
              == (if r.Err? then r else Remaining(c, text, end + 1, done + 1, r.value))
  {
    LinesFromFront(text, start, text[start..]);
    CheckHead(c, done, text[start..end], Lines(text[end + 1..]), p);
  }

  /** What is left to check at a cursor: this line, then the text after it. */
  lemma CheckFromFront(c: Context, text: string, start: nat, end: nat, done: nat, p: Progress)
    requires start <= end <= |text| && Find(text, '\n', start) == end
    ensures var r := CheckLine(c, done + 1, text[start..end], p);
            Remaining(c, text, start, done, p)
              == (if r.Err? || end == |text| then r else Remaining(c, text, end + 1, done + 1, r.value))
  {
    if end == |text| {
      LastFromFront(c, text, start, done, p);
    } else {
      NextFromFront(c, text, start, end, done, p);
    }
  }

  lemma WholeText(c: Context, text: string)
    ensures Parse(c, text) == Finish(Remaining(c, text, 0, 0, START))
  {
    assert text[0..] == text;
  }

  /** The loop of parsePersistentParameters: cursors into one text, the header
      state and the list so far. */
  method ParseLines(c: Context, text: string) returns (error: Option<Error>, state: Header, result: seq<Parameter>)
    ensures Remaining(c, text, 0, 0, Progress(Signature, []))
         == if error.Some? then Err(error.value) else Ok(Progress(state, result))
  {
    hide *;
    ghost var all := Remaining(c, text, 0, 0, Progress(Signature, []));
    error, state, result := None, Signature, [];
    var lineNumber := 0;
    var start := 0;
    while start <= |text|
      invariant start <= |text| && error.None?
      invariant all == Remaining(c, text, start, lineNumber, Progress(state, result))
      decreases |text| - start
    {
      var end := Find(text, '\n', start);
      CheckFromFront(c, text, start, end, lineNumber, Progress(state, result));
      lineNumber := lineNumber + 1;
      error, state, result := ParseLine(c, lineNumber, text[start..end], state, result);
      if error.Some? || end == |text| {
        return;
      }
      start := end + 1;
    }
  }

  method ParsePersistentParameters(c: Context, text: string) returns (r: Result<seq<Parameter>, Error>)
    ensures r == Parse(c, text)
  {
    WholeText(c, text);
    var error, state, result := ParseLines(c, text);
    if error.Some? {
      return Err(error.value);
    }
    if state != Data {
      return Err(HeaderMissing);
    }
    return Ok(Sort(result));
  }

  // ----- memory and file

  datatype StoreError = Rejected(parse: Error) | NonFiniteParameter(address: nat) | IllegalSystem(value: real) | NotApplied

  function Persistent(c: Context, addresses: seq<nat>, values: map<nat, Number>): seq<(nat, Number)>
    requires forall a | a in addresses :: a in values
    decreases |addresses|
  {
    if addresses == [] then []
    else
      (if c.eligible(addresses[0]) then [(addresses[0], values[addresses[0]])] else [])
      + Persistent(c, addresses[1..], values)
  }

  /** The checks of savePersistentParameters, in order. */
  function Finites(c: Context, ps: seq<(nat, Number)>): Result<seq<Parameter>, StoreError>
    decreases |ps|
  {
    if ps == [] then Ok([])
    else if ps[0].1.NonFinite? then Err(NonFiniteParameter(ps[0].0))
    else if ps[0].0 == c.coordinateSystem && !LegalCoordinateSystem(ps[0].1.r) then Err(IllegalSystem(ps[0].1.r))
    else
      match Finites(c, ps[1..])
      case Err(e) => Err(e)
      case Ok(rest) => Ok([Parameter(ps[0].0, ps[0].1.r)] + rest)
  }

  datatype ApplyError = InvalidDataAddress | WriteError

  /** The first entry that may not be written, in the order of the checks. */
  function FirstDefect(eligible: nat -> bool, entries: seq<(nat, Number)>): (e: Option<ApplyError>)
    ensures e.None? <==> forall p | p in entries :: eligible(p.0) && p.1.Finite?
    decreases |entries|
  {
    if entries == [] then None
    else
      assert entries == [entries[0]] + entries[1..];
      if !eligible(entries[0].0) then Some(InvalidDataAddress)
      else if entries[0].1.NonFinite? then Some(WriteError)
      else FirstDefect(eligible, entries[1..])
  }

  function Stored(values: map<nat, Number>, entries: seq<(nat, Number)>): map<nat, Number>
    decreases |entries|
  {
    if entries == [] then values else Stored(values[entries[0].0 := entries[0].1], entries[1..])
  }

  function Entries(ps: seq<Parameter>): seq<(nat, Number)> {
    seq(|ps|, i requires 0 <= i < |ps| => (ps[i].address, Finite(ps[i].value)))
  }

  lemma {:induction false} EntriesAreWritten(values: map<nat, Number>, ps: seq<Parameter>)
    ensures Stored(values, Entries(ps)) == Written(values, ps)
    decreases |ps|
  {
    if ps != [] {
      assert Entries(ps)[1..] == Entries(ps[1..]);
      EntriesAreWritten(values[ps[0].address := Finite(ps[0].value)], ps[1..]);
    }
  }

  function Written(values: map<nat, Number>, ps: seq<Parameter>): map<nat, Number>
    decreases |ps|
  {
    if ps == [] then values
    else Written(values[ps[0].address := Finite(ps[0].value)], ps[1..])
  }

  function Save(c: Context, addresses: seq<nat>, values: map<nat, Number>): Result<string, StoreError>
    requires forall a | a in addresses :: a in values
  {
    match Finites(c, Persistent(c, addresses, values))
    case Err(e) => Err(e)
    case Ok(ps) => Ok(Serialize(c, ps))
  }

  function Load(c: Context, text: string, values: map<nat, Number>): Result<map<nat, Number>, StoreError> {
    match Parse(c, text)
    case Err(e) => Err(Rejected(e))
    case Ok(ps) =>
      if FirstDefect(c.eligible, Entries(ps)).Some? then Err(NotApplied) else Ok(Stored(values, Entries(ps)))
  }

  /** What parses is never refused afterwards. */
  lemma AcceptedIsApplied(c: Context, text: string, values: map<nat, Number>)
    requires Faithful(c.codec) && Parse(c, text).Ok?
    ensures Load(c, text, values) == Ok(Written(values, Parse(c, text).value))
  {
    var ps := Parse(c, text).value;
    AcceptedIsStorable(c, text);
    EntriesAreWritten(values, ps);
    assert forall i | 0 <= i < |ps| :: Entries(ps)[i] == (ps[i].address, Finite(ps[i].value)) && Good(c, ps[i]);
  }

  // ----- saving then loading

  ghost predicate NoRepeats(addresses: seq<nat>) {
    forall i, j | 0 <= i < j < |addresses| :: addresses[i] != addresses[j]
  }

  /** Memory cells hold doubles and addresses fit 32 bits. */
  ghost predicate Representable(c: Context, addresses: seq<nat>, values: map<nat, Number>) {
    && (forall a | a in addresses :: a in values && a < UINT32_LIMIT)
    && (forall a | a in addresses && values[a].Finite? :: c.codec.isDouble(values[a].r))
  }

  /** One more good parameter, whose address the list behind it does not have. */
  lemma SavedHead(c: Context, p: Parameter, tail: seq<Parameter>, rest: seq<nat>)
    requires Good(c, p) && Storable(c, tail) && p.address !in rest
    requires forall q | q in tail :: q.address in rest
    ensures Storable(c, [p] + tail)
  {
    hide Good;
    var all := [p] + tail;
    forall i, j | 0 <= i < j < |all| ensures all[i].address != all[j].address {
      assert all[j] == tail[j - 1];
      assert tail[j - 1] in tail;
      if i > 0 { assert all[i] == tail[i - 1]; }
    }
    forall i | 0 <= i < |all| ensures Good(c, all[i]) {
      if i > 0 { assert all[i] == tail[i - 1]; }
    }
  }

  /** The saved list names exactly the eligible addresses, with their values. */
  lemma {:induction false} SavedList(c: Context, addresses: seq<nat>, values: map<nat, Number>)
    requires NoRepeats(addresses) && Representable(c, addresses, values)
    requires Finites(c, Persistent(c, addresses, values)).Ok?
    ensures var ps := Finites(c, Persistent(c, addresses, values)).value;
            && Storable(c, ps)
            && (forall p | p in ps :: p.address in addresses && c.eligible(p.address) && values[p.address] == Finite(p.value))
            && (forall a | a in addresses && c.eligible(a) ::
                  values[a].Finite? && Parameter(a, values[a].r) in ps)
    decreases |addresses|
  {
    if addresses != [] {
      var rest := addresses[1..];
      assert addresses == [addresses[0]] + rest;
      assert NoRepeats(rest) && Representable(c, rest, values);
      if c.eligible(addresses[0]) {
        assert Persistent(c, addresses, values)[1..] == Persistent(c, rest, values);
        SavedList(c, rest, values);
        var tail := Finites(c, Persistent(c, rest, values)).value;
        SavedHead(c, Parameter(addresses[0], values[addresses[0]].r), tail, rest);
      } else {
        assert Persistent(c, addresses, values) == Persistent(c, rest, values);
        SavedList(c, rest, values);
      }
    }
  }

  lemma {:induction false} WrittenCells(values: map<nat, Number>, ps: seq<Parameter>, a: nat)
    requires DistinctAddresses(ps)
    ensures (forall p | p in ps && p.address == a :: a in Written(values, ps) && Written(values, ps)[a] == Finite(p.value))
    ensures (forall p | p in ps :: p.address != a) ==>
              (a in Written(values, ps) <==> a in values)
              && (a in values ==> Written(values, ps)[a] == values[a])
    decreases |ps|
  {
    if ps != [] {
      var next := values[ps[0].address := Finite(ps[0].value)];
      assert ps == [ps[0]] + ps[1..];
      WrittenCells(next, ps[1..], a);
      if ps[0].address == a {
        forall p | p in ps[1..] ensures p.address != a {
          var i :| 0 <= i < |ps[1..]| && ps[1..][i] == p;
          assert ps[i + 1] == p;
        }
      }
    }
  }

  /** Saving succeeds exactly when every eligible cell is finite and the active
      coordinate system legal; the text loads into any memory of the same
      layout, giving each eligible address the saved value and leaving every
      other cell alone. */
  lemma SaveThenLoad(c: Context, addresses: seq<nat>, values: map<nat, Number>, other: map<nat, Number>)
    requires Faithful(c.codec) && NoRepeats(addresses) && Representable(c, addresses, values)
    requires Save(c, addresses, values).Ok?
    ensures var loaded := Load(c, Save(c, addresses, values).value, other);
            && loaded.Ok?
            && (forall a | a in addresses && c.eligible(a) :: a in loaded.value && loaded.value[a] == values[a])
            && (forall a: nat | !(a in addresses && c.eligible(a)) ::
                  (a in loaded.value <==> a in other) && (a in other ==> loaded.value[a] == other[a]))
  {
    var ps := Finites(c, Persistent(c, addresses, values)).value;
    SavedList(c, addresses, values);
    RoundTrip(c, ps);
    SortAscends(ps);
    var sorted := Sort(ps);
    AcceptedIsApplied(c, Save(c, addresses, values).value, other);
    forall a: nat
      ensures a in addresses && c.eligible(a) ==>
                a in Written(other, sorted) && Written(other, sorted)[a] == values[a]
      ensures !(a in addresses && c.eligible(a)) ==>
                (a in Written(other, sorted) <==> a in other)
                && (a in other ==> Written(other, sorted)[a] == other[a])
    {
      WrittenCells(other, sorted, a);
      if a in addresses && c.eligible(a) { assert Parameter(a, values[a].r) in sorted; }
    }
  }

  lemma {:induction false} SaveSucceedsExactly(c: Context, addresses: seq<nat>, values: map<nat, Number>)
    requires forall a | a in addresses :: a in values
    ensures Save(c, addresses, values).Ok? <==>
              forall a | a in addresses && c.eligible(a) ::
                values[a].Finite? && (a == c.coordinateSystem ==> LegalCoordinateSystem(values[a].r))
    decreases |addresses|
  {
    if addresses != [] {
      assert addresses == [addresses[0]] + addresses[1..];
      SaveSucceedsExactly(c, addresses[1..], values);
      if c.eligible(addresses[0]) {
        assert Persistent(c, addresses, values)[1..] == Persistent(c, addresses[1..], values);
      } else {
        assert Persistent(c, addresses, values) == Persistent(c, addresses[1..], values);
      }
    }
  }

  // ----- memory as the object it is

  /** The parameter cells of Memory; `eligible` is isPersistentParameter. */
  class ParameterMemory {
    const eligible: nat -> bool
    var values: map<nat, Number>

    constructor (eligible: nat -> bool, initial: map<nat, Number>)
      ensures this.eligible == eligible && values == initial
    {
      this.eligible, values := eligible, initial;
    }

    /** All entries are checked before any is written: either none is written,
        and the error is that of the first bad one, or all are. */
    method ApplyPersistentParameters(entries: seq<(nat, Number)>) returns (error: Option<ApplyError>)
      modifies this
      ensures error == FirstDefect(eligible, entries)
      ensures error.Some? ==> values == old(values)
      ensures error.None? ==> values == Stored(old(values), entries)
    {
      for i := 0 to |entries|
        invariant FirstDefect(eligible, entries[i..]) == FirstDefect(eligible, entries)
      {
        assert entries[i..][0] == entries[i] && entries[i..][1..] == entries[i + 1..];
        if !eligible(entries[i].0) {
          return Some(InvalidDataAddress);
        }
        if entries[i].1.NonFinite? {
          return Some(WriteError);
        }
      }
      for i := 0 to |entries|
        invariant Stored(values, entries[i..]) == Stored(old(values), entries)
      {
        assert entries[i..][0] == entries[i] && entries[i..][1..] == entries[i + 1..];
        values := values[entries[i].0 := entries[i].1];
      }
      error := None;
    }

    /** Loads all parameters or leaves memory as it was. */
    method LoadPersistentParameters(c: Context, text: string) returns (error: Option<StoreError>)
      requires c.eligible == eligible
      modifies this
      ensures Load(c, text, old(values)) == if error.None? then Ok(values) else Err(error.value)
      ensures error.Some? ==> values == old(values)
    {
      var parameters := ParsePersistentParameters(c, text);
      if parameters.Err? {
        return Some(Rejected(parameters.error));
      }
      var refused := ApplyPersistentParameters(Entries(parameters.value));
      error := if refused.Some? then Some(NotApplied) else None;
    }
  }
}
