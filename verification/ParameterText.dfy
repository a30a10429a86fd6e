/** The text layer of the parameter file: lines, comments, trimming and fields
    (src/ParameterStore.cpp 17-46 and 87-99). */
module ParameterText {

  predicate IsBlank(c: char) { c == ' ' || c == '\t' || c == '\r' }

  // ----- searching

  /** std::string_view::find, from `start`; the length stands for npos. */
  function Find(s: string, c: char, start: nat): (r: nat)
    requires start <= |s|
    ensures start <= r <= |s| && c !in s[start..r] && (r < |s| ==> s[r] == c)
    decreases |s| - start
  {
    if start == |s| || s[start] == c then start
    else
      var r := Find(s, c, start + 1);
      assert s[start..r] == [s[start]] + s[start + 1..r];
      r
  }

  /** The first position from `start` whose character is blank, or is not. */
  function FindBlank(s: string, blank: bool, start: nat): (r: nat)
    requires start <= |s|
    ensures start <= r <= |s| && (forall i | start <= i < r :: IsBlank(s[i]) != blank)
    ensures r < |s| ==> IsBlank(s[r]) == blank
    decreases |s| - start
  {
    if start == |s| || IsBlank(s[start]) == blank then start else FindBlank(s, blank, start + 1)
  }

  /** One past the last position before `end` that is not blank. */
  function AfterLastNonBlank(s: string, end: nat): (r: nat)
    requires end <= |s|
    ensures r <= end && (forall i | r <= i < end :: IsBlank(s[i])) && (r > 0 ==> !IsBlank(s[r - 1]))
  {
    if end == 0 || !IsBlank(s[end - 1]) then end else AfterLastNonBlank(s, end - 1)
  }

  lemma {:induction false} FindIs(s: string, c: char, start: nat, at: nat)
    requires start <= at <= |s| && c !in s[start..at] && (at < |s| ==> s[at] == c)
    ensures Find(s, c, start) == at
    decreases |s| - start
  {
    if start < at {
      assert s[start] in s[start..at];
      assert s[start + 1..at] == s[start..at][1..];
      FindIs(s, c, start + 1, at);
    }
  }

  lemma {:induction false} FindBlankIs(s: string, blank: bool, start: nat, at: nat)
    requires start <= at <= |s| && (forall i | start <= i < at :: IsBlank(s[i]) != blank)
    requires at < |s| ==> IsBlank(s[at]) == blank
    ensures FindBlank(s, blank, start) == at
    decreases |s| - start
  {
    if start < at {
      FindBlankIs(s, blank, start + 1, at);
    }
  }

  // ----- lines

  /** The pieces of a text between newlines; a final newline opens a last empty one. */
  function Lines(text: string): (lines: seq<string>)
    ensures lines != []
    decreases |text|
  {
    var end := Find(text, '\n', 0);
    if end == |text| then [text] else [text[..end]] + Lines(text[end + 1..])
  }

  lemma LinesOfLine(line: string, rest: string)
    requires '\n' !in line
    ensures Lines(line + "\n" + rest) == [line] + Lines(rest)
  {
    var text := line + "\n" + rest;
    assert text[0..|line|] == line;
    FindIs(text, '\n', 0, |line|);
    assert text[..|line|] == line && text[|line| + 1..] == rest;
  }

  /** What a line says once its comment and outer blanks are gone. */
  function Content(line: string): string { Trim(line[..Find(line, '#', 0)]) }

  function Trim(s: string): string {
    var first := FindBlank(s, false, 0);
    if first == |s| then "" else s[first..AfterLastNonBlank(s, |s|)]
  }

  /** Trimming removes blanks only, and leaves none at either end. */
  lemma TrimIsTight(s: string)
    ensures exists i, j | 0 <= i <= j <= |s| ::
              Trim(s) == s[i..j] && (forall k | 0 <= k < i || j <= k < |s| :: IsBlank(s[k]))
    ensures Trim(s) != "" ==> !IsBlank(Trim(s)[0]) && !IsBlank(Trim(s)[|Trim(s)| - 1])
  {
    var first := FindBlank(s, false, 0);
    if first == |s| {
      assert Trim(s) == s[|s|..|s|];
    } else {
      var last := AfterLastNonBlank(s, |s|);
      assert first < last;
      assert Trim(s) == s[first..last];
    }
  }

  // ----- fields

  /** The maximal runs of non-blank characters. */
  function Fields(s: string): seq<string>
    decreases |s|
  {
    var first := FindBlank(s, false, 0);
    if first == |s| then []
    else
      var end := FindBlank(s, true, first);
      [s[first..end]] + Fields(s[end..])
  }

  /** A word is what a field can be and what survives a comment search. */
  predicate IsWord(s: string) {
    s != "" && forall i | 0 <= i < |s| :: !IsBlank(s[i]) && s[i] != '#' && s[i] != '\n'
  }

  function TwoWords(a: string, b: string): string { a + " " + b }

  lemma TwoWordsCharacters(a: string, b: string)
    requires IsWord(a) && IsWord(b)
    ensures forall i | 0 <= i < |TwoWords(a, b)| :: TwoWords(a, b)[i] != '#' && TwoWords(a, b)[i] != '\n'
  {
    var s := TwoWords(a, b);
    forall i | 0 <= i < |s| ensures s[i] != '#' && s[i] != '\n' {
      if i < |a| { assert s[i] == a[i]; } else if i > |a| { assert s[i] == b[i - |a| - 1]; }
    }
  }

  /** Nothing of two words is comment or outer blank. */
  lemma ContentOfTwoWords(a: string, b: string)
    requires IsWord(a) && IsWord(b)
    ensures Content(TwoWords(a, b)) == TwoWords(a, b)
    ensures '\n' !in TwoWords(a, b)
  {
    var s := TwoWords(a, b);
    TwoWordsCharacters(a, b);
    assert s[0] == a[0] && s[|s| - 1] == b[|b| - 1];
    FindIs(s, '#', 0, |s|);
    assert s[..|s|] == s;
    FindBlankIs(s, false, 0, 0);
    assert Trim(s) == s[0..|s|];
  }

  lemma FieldsOfSecond(b: string)
    requires IsWord(b)
    ensures Fields(" " + b) == [b]
  {
    var tail := " " + b;
    assert forall i | 1 <= i < |tail| :: tail[i] == b[i - 1];
    FindBlankIs(tail, false, 0, 1);
    FindBlankIs(tail, true, 1, |tail|);
    assert tail[1..|tail|] == b && tail[|tail|..] == "";
    assert Fields("") == [];
  }

  /** Two words and the blank between them read back as two fields. */
  lemma FieldsOfTwoWords(a: string, b: string)
    requires IsWord(a) && IsWord(b)
    ensures Fields(TwoWords(a, b)) == [a, b]
  {
    var s := TwoWords(a, b);
    assert forall i | 0 <= i < |a| :: s[i] == a[i];
    assert s[|a|] == ' ';
    FindBlankIs(s, false, 0, 0);
    FindBlankIs(s, true, 0, |a|);
    assert s[0..|a|] == a;
    assert s[|a|..] == " " + b;
    FieldsOfSecond(b);
  }

  lemma ContentOfEmpty()
    ensures Content("") == ""
  {}

  lemma FindAfterCut(s: string, blank: bool, first: nat, cut: string)
    requires first <= |s| && cut == s[first..]
    ensures FindBlank(s, blank, first) == first + FindBlank(cut, blank, 0)
  {
    var end := FindBlank(cut, blank, 0);
    forall i | first <= i < first + end ensures IsBlank(s[i]) != blank {
      assert s[i] == cut[i - first];
    }
    FindBlankIs(s, blank, first, first + end);
  }

  /** Cutting the leading blanks first finds the same first field and rest. */
  lemma FieldsAfterCut(s: string, first: nat, cut: string, end: nat)
    requires first == FindBlank(s, false, 0) < |s| && cut == s[first..]
    requires end == FindBlank(cut, true, 0)
    ensures Fields(s) == [cut[..end]] + Fields(cut[end..])
  {
    FindAfterCut(s, true, first, cut);
    assert s[first..first + end] == cut[..end] && s[first + end..] == cut[end..];
  }

  /** The tokenizing loop: `remaining` is cut from the front (lines 28-46). */
  method Tokens(line: string) returns (result: seq<string>)
    ensures result == Fields(line)
  {
    result := [];
    var remaining := line;
    while remaining != ""
      invariant Fields(line) == result + Fields(remaining)
      decreases |remaining|
    {
      var first := FindBlank(remaining, false, 0);
      if first == |remaining| {
        break;
      }
      ghost var was := remaining;
      remaining := remaining[first..];
      var end := FindBlank(remaining, true, 0);
      FieldsAfterCut(was, first, remaining, end);
      assert !IsBlank(remaining[0]);
      result := result + [remaining[..end]];
      if end == |remaining| {
        assert remaining[end..] == "";
        assert Fields("") == [];
        return;
      }
      remaining := remaining[end..];
    }
    assert Fields(remaining) == [];
  }
}
