/** The laws of the tokenizer: how newlines, comments, separators and words make
    the lines of a program text (src/DigitalIoProgram.cpp 211-240). Together they
    fix the lines of every text. */
module DigitalIoText {
  import opened Text
  import opened DigitalIoLanguage
  import opened DigitalIoCompiler

  /** The line a text of one line makes, when it holds any word. */
  function OneLine(text: string, number: nat): seq<Line> {
    if LineTokens(text) == [] then [] else [Line(number, LineTokens(text))]
  }

  lemma {:induction false} ScanIs(s: string, from: nat, stop: char -> bool, k: nat)
    requires from <= k <= |s| && (forall i | from <= i < k :: !stop(s[i])) && (k < |s| ==> stop(s[k]))
    ensures Scan(s, from, stop) == k
    decreases |s| - from
  {}

  /** A newline ends a line; what follows it is counted on. */
  lemma NewlineEndsLine(a: string, b: string, number: nat)
    requires '\n' !in a
    ensures LinesFrom(a + "\n" + b, number) == OneLine(a, number + 1) + LinesFrom(b, number + 1)
  {
    var text := a + "\n" + b;
    ScanIs(text, 0, IsNewline, |a|);
    assert text[..|a|] == a && text[|a| + 1..] == b;
  }

  /** The last line needs no newline. */
  lemma LastLine(a: string, number: nat)
    requires '\n' !in a
    ensures LinesFrom(a, number) == OneLine(a, number + 1)
  {
    ScanIs(a, 0, IsNewline, |a|);
    assert a[..|a|] == a;
    if a == "" { NoTokens(); }
  }

  lemma NoTokens()
    ensures LineTokens("") == []
  {
    assert ""[..0] == "";
  }

  /** Whatever follows a `#` or a `;` says nothing. */
  lemma CommentSaysNothing(a: string, mark: char, b: string)
    requires mark == '#' || mark == ';'
    ensures LineTokens(a + [mark] + b) == LineTokens(a)
  {
    var line := a + [mark] + b;
    var k := Scan(a, 0, IsComment);
    ScanIs(line, 0, IsComment, k);
    assert line[..k] == a[..k];
  }

  /** Nothing in a text is a comment mark. */
  predicate Uncommented(text: string) { '#' !in text && ';' !in text }

  lemma UncommentedIsWhole(text: string)
    requires Uncommented(text)
    ensures LineTokens(text) == WordsFrom(text, 0)
  {
    ScanIs(text, 0, IsComment, |text|);
    assert text[..|text|] == text;
  }

  predicate Blank(c: char) { c in " ,\t\r\n" || c as int == 11 || c as int == 12 }

  lemma BlankIsSeparator(c: char)
    ensures Blank(c) <==> IsSeparator(c)
  {}

  lemma {:induction false} WordsOfSuffix(s: string, from: nat, t: string)
    requires from <= |s| && t == s[from..]
    ensures WordsFrom(s, from) == WordsFrom(t, 0)
  {
    WordsShift(s, from, t, 0);
  }

  /** The words from a position: the next one, and those behind it. */
  lemma WordsUnfold(s: string, from: nat)
    requires from <= |s|
    ensures var start := Scan(s, from, IsWordChar);
            WordsFrom(s, from) ==
            if start == |s| then []
            else [s[start..Scan(s, start, IsSeparator)]] + WordsFrom(s, Scan(s, start, IsSeparator))
  {}

  /** A word is not empty and holds no blank and no comma. */
  lemma {:induction false} WordsAreWords(s: string, from: nat)
    requires from <= |s|
    ensures forall w | w in WordsFrom(s, from) :: w != "" && forall c | c in w :: !IsSeparator(c)
    decreases |s| - from
  {
    var start := Scan(s, from, IsWordChar);
    if start < |s| {
      WordsAreWords(s, Scan(s, start, IsSeparator));
    }
  }

  lemma {:induction false} WordsShift(s: string, from: nat, t: string, i: nat)
    requires from <= |s| && t == s[from..] && i <= |t|
    ensures WordsFrom(s, from + i) == WordsFrom(t, i)
    decreases |t| - i
  {
    hide IsSeparator, IsWordChar, WordsFrom, Scan;
    WordsUnfold(t, i);
    WordsUnfold(s, from + i);
    var start := Scan(t, i, IsWordChar);
    ScanShift(s, from, t, i, IsWordChar);
    if start < |t| {
      var end := Scan(t, start, IsSeparator);
      ScanShift(s, from, t, start, IsSeparator);
      assert s[from + start..from + end] == t[start..end];
      WordsShift(s, from, t, end);
    }
  }

  lemma ScanShift(s: string, from: nat, t: string, i: nat, stop: char -> bool)
    requires from <= |s| && t == s[from..] && i <= |t|
    ensures Scan(s, from + i, stop) == from + Scan(t, i, stop)
  {
    var k := Scan(t, i, stop);
    forall j | from + i <= j < from + k ensures !stop(s[j]) { assert s[j] == t[j - from]; }
    ScanIs(s, from + i, stop, from + k);
  }

  predicate Joined(s: string, a: string, c: char, b: string) { s == a + [c] + b }

  lemma ScanWithin(s: string, a: string, c: char, b: string, i: nat, stop: char -> bool)
    requires Joined(s, a, c, b) && i <= |a| && (Scan(a, i, stop) < |a| || stop(c))
    ensures i <= |s| && Scan(s, i, stop) == Scan(a, i, stop)
  {
    var k := Scan(a, i, stop);
    forall j | i <= j < k ensures !stop(s[j]) { assert s[j] == a[j]; }
    assert s[k] == if k < |a| then a[k] else c;
    ScanIs(s, i, stop, k);
  }

  lemma ScanBeyond(s: string, a: string, c: char, b: string, i: nat, stop: char -> bool)
    requires Joined(s, a, c, b) && i <= |a| && Scan(a, i, stop) == |a| && !stop(c)
    ensures i <= |s| == |a| + 1 + |b| && Scan(s, i, stop) == Scan(s, |a| + 1, stop)
  {
    var k := Scan(s, |a| + 1, stop);
    forall j | i <= j < k ensures !stop(s[j]) {
      assert j <= |a| ==> s[j] == if j < |a| then a[j] else c;
    }
    ScanIs(s, i, stop, k);
  }

  lemma SliceWithin(s: string, a: string, c: char, b: string, i: nat, j: nat)
    requires Joined(s, a, c, b) && i <= j <= |a|
    ensures j <= |s| && s[i..j] == a[i..j]
  {}

  lemma WordsAhead(s: string, a: string, c: char, b: string, i: nat)
    requires Joined(s, a, c, b) && IsSeparator(c) && i <= |a| && Scan(a, i, IsWordChar) == |a|
    ensures i <= |s| && WordsFrom(s, i) == WordsFrom(b, 0)
  {
    assert s[|a| + 1..] == b;
    WordsOfSuffix(s, |a| + 1, b);
    ScanBeyond(s, a, c, b, i, IsWordChar);
    hide *;
    WordsUnfold(s, i);
    WordsUnfold(s, |a| + 1);
  }

  lemma {:induction false} WordsAround(s: string, a: string, c: char, b: string, i: nat)
    requires Joined(s, a, c, b) && IsSeparator(c) && i <= |a|
    ensures i <= |s| && WordsFrom(s, i) == WordsFrom(a, i) + WordsFrom(b, 0)
    decreases |a| - i
  {
    hide *;
    WordsUnfold(a, i);
    var start := Scan(a, i, IsWordChar);
    if start < |a| {
      ScanWithin(s, a, c, b, i, IsWordChar);
      ScanWithin(s, a, c, b, start, IsSeparator);
      WordsUnfold(s, i);
      var end := Scan(a, start, IsSeparator);
      SliceWithin(s, a, c, b, start, end);
      WordMoves(a, start);
      WordsAround(s, a, c, b, end);
    } else {
      WordsAhead(s, a, c, b, i);
    }
  }

  lemma WordMoves(a: string, start: nat)
    requires start < |a| && IsWordChar(a[start])
    ensures Scan(a, start, IsSeparator) > start
  {}

  /** A blank or comma ends a word, and the words on both sides stand. */
  lemma BlankSeparates(a: string, c: char, b: string)
    requires Uncommented(a) && Blank(c)
    ensures LineTokens(a + [c] + b) == LineTokens(a) + LineTokens(b)
  {
    UncommentedIsWhole(a);
    var said := b[..Scan(b, 0, IsComment)];
    var line := a + [c] + b;
    ScanIs(line, 0, IsComment, |a| + 1 + |said|);
    assert line[..|a| + 1 + |said|] == a + [c] + said;
    BlankIsSeparator(c);
    WordsAround(a + [c] + said, a, c, said, 0);
  }

  /** Anything without blanks, commas or comment marks is one word. */
  lemma WordStands(word: string)
    requires word != "" && Uncommented(word) && forall c | c in word :: !Blank(c)
    ensures LineTokens(word) == [word]
  {
    UncommentedIsWhole(word);
    forall i | 0 <= i < |word| ensures !IsSeparator(word[i]) { BlankIsSeparator(word[i]); }
    ScanIs(word, 0, IsWordChar, 0);
    ScanIs(word, 0, IsSeparator, |word|);
    assert word[0..|word|] == word;
  }

  predicate IsWord(w: string) { w != "" && Uncommented(w) && forall c | c in w :: !Blank(c) }

  lemma OneMoreWord(word: string, c: char, rest: string)
    requires IsWord(word) && Blank(c)
    ensures LineTokens(word + [c] + rest) == [word] + LineTokens(rest)
  {
    hide LineTokens, Blank;
    WordStands(word);
    BlankSeparates(word, c, rest);
  }

  /** A whole instruction as it is usually written. */
  lemma InstructionReads(op: string, d: string, x: string, y: string)
    requires IsWord(op) && IsWord(d) && IsWord(x) && IsWord(y)
    ensures LineTokens(op + " " + d + "," + x + "," + y) == [op, d, x, y]
  {
    assert Blank(' ') && Blank(',');
    hide LineTokens, Blank, IsWord;
    WordStandsAlone(y);
    var three := x + [','] + y;
    OneMoreWord(x, ',', y);
    var two := d + [','] + three;
    OneMoreWord(d, ',', three);
    OneMoreWord(op, ' ', two);
    assert op + " " + d + "," + x + "," + y == op + [' '] + two;
  }

  lemma WordStandsAlone(word: string)
    requires IsWord(word)
    ensures LineTokens(word) == [word]
  {
    WordStands(word);
  }
}
