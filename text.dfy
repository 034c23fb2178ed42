/** Counting over already-decoded text: the `isWord` scan shared by the
    stream counters, its reference definition (split on separators and drop
    the empty pieces), and the lines that `Files.lines` yields. */
module Text {
  import opened Io
  import opened Seqs

  const LF: CodeUnit := 0x0A
  const CR: CodeUnit := 0x0D

  predicate IsLineFeed(c: CodeUnit) { c == LF }

  predicate IsLineTerminator(c: CodeUnit) { c == LF || c == CR }

  /** Java's regular-expression class `\s` (without Unicode classes):
      space, tab, line feed, vertical tab, form feed, carriage return. */
  predicate IsRegexSpace(c: CodeUnit) { c == 0x20 || 0x09 <= c <= 0x0D }

  // ---------------------------------------------------------------------
  // The isWord scan

  /** Words seen so far, and whether the last unit was inside a word. */
  datatype WordScan = WordScan(words: nat, isWord: bool)

  const Start := WordScan(0, false)

  /** One step of the loop: a separator ends the current word, anything
      else starts a new word when not already inside one. */
  function WordStep(st: WordScan, c: CodeUnit, isSpace: CodeUnit -> bool): (st': WordScan)
    ensures st'.words == st.words + (if !isSpace(c) && !st.isWord then 1 else 0)
    ensures st'.isWord == !isSpace(c)
  {
    if isSpace(c) then
      (if st.isWord then WordScan(st.words, false) else st)
    else
      (if !st.isWord then WordScan(st.words + 1, true) else st)
  }

  function Scan(st: WordScan, u: seq<CodeUnit>, isSpace: CodeUnit -> bool): WordScan
  {
    if u == [] then st else WordStep(Scan(st, u[..|u| - 1], isSpace), u[|u| - 1], isSpace)
  }

  /** Number of words of `u`: whitespace-or-start to non-whitespace
      transitions. */
  function WordCount(u: seq<CodeUnit>, isSpace: CodeUnit -> bool): nat
  {
    Scan(Start, u, isSpace).words
  }

  lemma ScanPrefix(st: WordScan, u: seq<CodeUnit>, i: nat, isSpace: CodeUnit -> bool)
    requires i < |u|
    ensures Scan(st, u[..i + 1], isSpace) == WordStep(Scan(st, u[..i], isSpace), u[i], isSpace)
  {
    assert u[..i + 1][..i] == u[..i];
  }

  /** The scan can be resumed: scanning `a + b` is scanning `b` from the
      state `a` left. */
  lemma {:induction false} ScanAppend(st: WordScan, a: seq<CodeUnit>, b: seq<CodeUnit>, isSpace: CodeUnit -> bool)
    ensures Scan(st, a + b, isSpace) == Scan(Scan(st, a, isSpace), b, isSpace)
    decreases |b|
  {
    if b == [] {
      assert a + b == a;
    } else {
      assert (a + b)[..|a + b| - 1] == a + b[..|b| - 1];
      ScanAppend(st, a, b[..|b| - 1], isSpace);
    }
  }

  /** Words counted before a scan only add to those it counts itself. */
  lemma {:induction false} ScanShift(w: nat, inside: bool, u: seq<CodeUnit>, isSpace: CodeUnit -> bool)
    ensures Scan(WordScan(w, inside), u, isSpace)
         == WordScan(w + Scan(WordScan(0, inside), u, isSpace).words, Scan(WordScan(0, inside), u, isSpace).isWord)
    decreases |u|
  {
    if u != [] {
      ScanShift(w, inside, u[..|u| - 1], isSpace);
    }
  }

  /** A non-empty run of separators ends whatever word was open. */
  lemma {:induction false} ScanSeparators(st: WordScan, t: seq<CodeUnit>, isSpace: CodeUnit -> bool)
    requires t != [] && forall i :: 0 <= i < |t| ==> isSpace(t[i])
    ensures Scan(st, t, isSpace) == WordScan(st.words, false)
    decreases |t|
  {
    if |t| > 1 {
      ScanSeparators(st, t[..|t| - 1], isSpace);
    }
  }

  // ---------------------------------------------------------------------
  // Reference definition: split on separators, keep the non-empty pieces

  /** The pieces between separators; there is always one more piece than
      there are separators. */
  function Split(u: seq<CodeUnit>, isSpace: CodeUnit -> bool): (pieces: seq<seq<CodeUnit>>)
    ensures |pieces| == CountWhere(u, isSpace) + 1
  {
    if u == [] then [[]]
    else
      var pieces := Split(u[..|u| - 1], isSpace);
      var c := u[|u| - 1];
      if isSpace(c) then pieces + [[]]
      else pieces[..|pieces| - 1] + [pieces[|pieces| - 1] + [c]]
  }

  predicate NotEmpty(piece: seq<CodeUnit>) { piece != [] }

  /** What `split` followed by a filter on empty strings keeps. */
  function Tokens(u: seq<CodeUnit>, isSpace: CodeUnit -> bool): seq<seq<CodeUnit>>
  {
    Filter(Split(u, isSpace), NotEmpty)
  }

  /** The pieces with the empty ones at the end removed. */
  function DropTrailingEmpty(pieces: seq<seq<CodeUnit>>): (kept: seq<seq<CodeUnit>>)
    ensures |kept| <= |pieces| && kept == pieces[..|kept|]
    ensures kept == [] || kept[|kept| - 1] != []
    ensures forall k :: |kept| <= k < |pieces| ==> pieces[k] == []
  {
    if pieces != [] && pieces[|pieces| - 1] == [] then DropTrailingEmpty(pieces[..|pieces| - 1]) else pieces
  }

  /** `String.split` on a separator class: the pieces between separators
      without the empty ones at the end, except that an empty string splits
      into itself.  Dropping the empty strings afterwards leaves exactly the
      tokens, since the trailing pieces it removes are empty anyway. */
  function JavaSplit(u: seq<CodeUnit>, isSpace: CodeUnit -> bool): (pieces: seq<seq<CodeUnit>>)
    ensures u == [] ==> pieces == [[]]
    ensures u != [] ==> && |pieces| <= |Split(u, isSpace)|
                        && pieces == Split(u, isSpace)[..|pieces|]
                        && (pieces == [] || pieces[|pieces| - 1] != [])
                        && forall k :: |pieces| <= k < |Split(u, isSpace)| ==> Split(u, isSpace)[k] == []
    ensures Filter(pieces, NotEmpty) == Tokens(u, isSpace)
  {
    if u == [] then [[]]
    else
      DropTrailingEmptyKeepsTokens(Split(u, isSpace));
      DropTrailingEmpty(Split(u, isSpace))
  }

  lemma {:induction false} DropTrailingEmptyKeepsTokens(pieces: seq<seq<CodeUnit>>)
    ensures Filter(DropTrailingEmpty(pieces), NotEmpty) == Filter(pieces, NotEmpty)
    decreases |pieces|
  {
    if pieces != [] && pieces[|pieces| - 1] == [] {
      var init := pieces[..|pieces| - 1];
      DropTrailingEmptyKeepsTokens(init);
      assert pieces == init + [[]];
      FilterSnoc(init, [], NotEmpty);
    }
  }

  /** "a " splits into the one piece "a" in Java, where keeping every piece
      gives "a" and an empty one. */
  lemma JavaSplitDropsTrailingSeparator()
    ensures var u: seq<CodeUnit> := [0x61, 0x20];
            JavaSplit(u, IsRegexSpace) == [[0x61]] && |Split(u, IsRegexSpace)| == 2
  {
    var u: seq<CodeUnit> := [0x61, 0x20];
    var a: seq<CodeUnit> := [0x61];
    assert u[..1] == a && a[..0] == [];
    assert !IsRegexSpace(a[0]);
    assert Split(a, IsRegexSpace) == [[] + [0x61]];
    assert [] + [0x61 as CodeUnit] == [0x61];
    assert Split(u, IsRegexSpace) == Split(a, IsRegexSpace) + [[]];
    assert u[..|u| - 1] == a && IsRegexSpace(u[|u| - 1]);
    var pieces: seq<seq<CodeUnit>> := [[0x61], []];
    assert Split(u, IsRegexSpace) == pieces;
    assert pieces[..1] == [[0x61]];
    assert DropTrailingEmpty([[0x61]]) == [[0x61]];
  }

  /** The scan counts exactly the tokens of the reference definition, and it
      is inside a word exactly when the last piece is not empty. */
  lemma {:induction false} WordCountIsTokenCount(u: seq<CodeUnit>, isSpace: CodeUnit -> bool)
    ensures WordCount(u, isSpace) == |Tokens(u, isSpace)|
    ensures var pieces := Split(u, isSpace); Scan(Start, u, isSpace).isWord == (pieces[|pieces| - 1] != [])
    decreases |u|
  {
    if u != [] {
      var u' := u[..|u| - 1];
      var c := u[|u| - 1];
      WordCountIsTokenCount(u', isSpace);
      var pieces := Split(u', isSpace);
      var k := |pieces|;
      assert pieces == pieces[..k - 1] + [pieces[k - 1]];
      FilterSnoc(pieces[..k - 1], pieces[k - 1], NotEmpty);
      if isSpace(c) {
        FilterSnoc(pieces, [], NotEmpty);
      } else {
        FilterSnoc(pieces[..k - 1], pieces[k - 1] + [c], NotEmpty);
      }
    }
  }

  // ---------------------------------------------------------------------
  // Lines as `Files.lines` yields them

  /** Index of the first line terminator, or the length when there is none. */
  function FirstTerminator(u: seq<CodeUnit>): (i: nat)
    ensures i <= |u|
    ensures forall j :: 0 <= j < i ==> !IsLineTerminator(u[j])
    ensures i < |u| ==> IsLineTerminator(u[i])
  {
    if u == [] || IsLineTerminator(u[0]) then 0 else 1 + FirstTerminator(u[1..])
  }

  /** Where the next line starts: after "\r\n" as one terminator, after a
      lone "\r" or "\n" otherwise. */
  function NextLineStart(u: seq<CodeUnit>, i: nat): (next: nat)
    requires i < |u| && IsLineTerminator(u[i])
    ensures i < next <= |u|
    ensures forall j :: i <= j < next ==> IsLineTerminator(u[j])
  {
    if u[i] == CR && i + 1 < |u| && u[i + 1] == LF then i + 2 else i + 1
  }

  /** The lines, without their terminators; a last line without a
      terminator still counts, an empty text has no line. */
  function ReadLines(u: seq<CodeUnit>): (lines: seq<seq<CodeUnit>>)
    ensures u != [] ==> lines != []
    decreases |u|
  {
    if u == [] then []
    else
      var i := FirstTerminator(u);
      if i == |u| then [u]
      else [u[..i]] + ReadLines(u[NextLineStart(u, i)..])
  }

  /** No line holds a terminator: "\n", "\r" and "\r\n" only separate. */
  lemma {:induction false} LinesHoldNoTerminator(u: seq<CodeUnit>)
    ensures var lines := ReadLines(u);
            forall k, j :: 0 <= k < |lines| && 0 <= j < |lines[k]| ==> !IsLineTerminator(lines[k][j])
    decreases |u|
  {
    if u != [] && FirstTerminator(u) < |u| {
      var i := FirstTerminator(u);
      LinesHoldNoTerminator(u[NextLineStart(u, i)..]);
      ReadLinesStep(u);
    }
  }

  /** Words of the text path: each line split on `\s` as Java splits,
      empty strings dropped, counted over all lines.  A line contributes its
      tokens. */
  function LineWords(lines: seq<seq<CodeUnit>>): (n: nat)
    ensures lines != [] ==> n == |Tokens(lines[0], IsRegexSpace)| + LineWords(lines[1..])
  {
    if lines == [] then 0
    else
      |Filter(JavaSplit(lines[0], IsRegexSpace), NotEmpty)| + LineWords(lines[1..])
  }

  /** A non-empty run of separators splits the word count in two. */
  lemma WordCountAcrossSeparators(a: seq<CodeUnit>, t: seq<CodeUnit>, rest: seq<CodeUnit>, isSpace: CodeUnit -> bool)
    requires t != [] && forall i :: 0 <= i < |t| ==> isSpace(t[i])
    ensures WordCount(a + t + rest, isSpace) == WordCount(a, isSpace) + WordCount(rest, isSpace)
  {
    var sa := Scan(Start, a, isSpace);
    ScanAppend(Start, a + t, rest, isSpace);
    ScanAppend(Start, a, t, isSpace);
    ScanSeparators(sa, t, isSpace);
    ScanShift(sa.words, false, rest, isSpace);
  }

  /** One step of `ReadLines`, spelled out. */
  lemma ReadLinesStep(u: seq<CodeUnit>)
    requires u != [] && FirstTerminator(u) < |u|
    ensures ReadLines(u) == [u[..FirstTerminator(u)]] + ReadLines(u[NextLineStart(u, FirstTerminator(u))..])
  {
  }

  lemma LineWordsCons(line: seq<CodeUnit>, lines: seq<seq<CodeUnit>>)
    ensures LineWords([line] + lines) == |Tokens(line, IsRegexSpace)| + LineWords(lines)
  {
    assert ([line] + lines)[1..] == lines;
  }

  /** The step of the induction below: a line, its terminator, the rest. */
  lemma LineWordsStep(a: seq<CodeUnit>, t: seq<CodeUnit>, rest: seq<CodeUnit>)
    requires t != [] && forall k :: 0 <= k < |t| ==> IsRegexSpace(t[k])
    requires LineWords(ReadLines(rest)) == WordCount(rest, IsRegexSpace)
    ensures LineWords([a] + ReadLines(rest)) == WordCount(a + t + rest, IsRegexSpace)
  {
    WordCountIsTokenCount(a, IsRegexSpace);
    LineWordsCons(a, ReadLines(rest));
    WordCountAcrossSeparators(a, t, rest, IsRegexSpace);
  }

  /** A line terminator, "\r\n" included, is made of `\s` units. */
  lemma TerminatorIsSpace(u: seq<CodeUnit>, i: nat)
    requires i < |u| && IsLineTerminator(u[i])
    ensures var t := u[i..NextLineStart(u, i)];
            t != [] && forall k :: 0 <= k < |t| ==> IsRegexSpace(t[k])
  {
  }

  /** Splitting into lines first changes nothing: line terminators are
      themselves `\s`, so the text path counts the runs of non-`\s` units
      of the whole text. */
  lemma {:induction false} LineWordsAreWordRuns(u: seq<CodeUnit>)
    ensures LineWords(ReadLines(u)) == WordCount(u, IsRegexSpace)
    decreases |u|
  {
    if u != [] {
      var i := FirstTerminator(u);
      if i == |u| {
        WordCountIsTokenCount(u, IsRegexSpace);
        LineWordsCons(u, []);
      } else {
        var next := NextLineStart(u, i);
        LineWordsAreWordRuns(u[next..]);
        ReadLinesStep(u);
        SplitThree(u, i, next);
        TerminatorIsSpace(u, i);
        LineWordsStep(u[..i], u[i..next], u[next..]);
      }
    }
  }

  /** The first line feed, and those after it. */
  lemma CountLineFeedsAfterFirst(u: seq<CodeUnit>, i: nat)
    requires i < |u| && u[i] == LF && forall j :: 0 <= j < i ==> u[j] != LF
    ensures CountWhere(u, IsLineFeed) == 1 + CountWhere(u[i + 1..], IsLineFeed)
  {
    var line := u[..i + 1];
    assert u == line + u[i + 1..];
    assert line == u[..i] + [u[i]];
    CountWhereExtremes(u[..i], IsLineFeed);
    CountWhereAppend(u[..i], [u[i]], IsLineFeed);
    CountWhereAppend(line, u[i + 1..], IsLineFeed);
  }

  /** The step of the induction below: a line ended by a line feed. */
  lemma LineCountStep(u: seq<CodeUnit>)
    requires u != [] && FirstTerminator(u) < |u| && u[FirstTerminator(u)] == LF
    requires var rest := u[FirstTerminator(u) + 1..];
             |ReadLines(rest)| == CountWhere(rest, IsLineFeed) + (if rest != [] && rest[|rest| - 1] != LF then 1 else 0)
    ensures |ReadLines(u)| == CountWhere(u, IsLineFeed) + (if u[|u| - 1] != LF then 1 else 0)
  {
    var i := FirstTerminator(u);
    var rest := u[i + 1..];
    assert NextLineStart(u, i) == i + 1;
    ReadLinesCountStep(u);
    CountLineFeedsAfterFirst(u, i);
    assert (if rest != [] && rest[|rest| - 1] != LF then 1 else 0) == (if u[|u| - 1] != LF then 1 else 0) by {
      if rest != [] {
        assert u[|u| - 1] == rest[|rest| - 1];
      }
    }
  }

  /** One step of `ReadLines`, counted. */
  lemma ReadLinesCountStep(u: seq<CodeUnit>)
    requires u != [] && FirstTerminator(u) < |u|
    ensures |ReadLines(u)| == 1 + |ReadLines(u[NextLineStart(u, FirstTerminator(u))..])|
  {
    ReadLinesStep(u);
  }

  /** Without carriage returns, the text path counts one line per line
      feed plus one for a last line that lacks it, so it differs from the
      line-feed count of the fallback and of the stream counter. */
  lemma {:induction false} LineCountWithoutCarriageReturns(u: seq<CodeUnit>)
    requires forall j :: 0 <= j < |u| ==> u[j] != CR
    ensures |ReadLines(u)| == CountWhere(u, IsLineFeed) + (if u != [] && u[|u| - 1] != LF then 1 else 0)
    decreases |u|
  {
    if u != [] {
      var i := FirstTerminator(u);
      if i == |u| {
        CountWhereExtremes(u, IsLineFeed);
      } else {
        assert u[i] != CR;
        LineCountWithoutCarriageReturns(u[i + 1..]);
        LineCountStep(u);
      }
    }
  }
}
