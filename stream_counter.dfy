/** `countingAndPrinting`, the single-pass counter of standard input, which
    `ProcessingTheInputFromPipeline` and `ProcessingTheInputFromFD` carry in
    identical copies: the bytes are counted first, the stream is rewound, and
    one walk over the decoded characters counts lines, words and characters.
    The four counts come back in the fixed order lines, words, chars, bytes,
    with every zero removed. */
module StreamCounter {
  import opened Io
  import opened Seqs
  import Text

  /** Size of the buffer the byte count reads into. */
  const STREAM_BUFFER_SIZE: nat := 2048

  /** Which metrics are requested. */
  datatype Flags = Flags(lines: bool, words: bool, chars: bool, bytes: bool)

  /** The list the counter returns, or the `IOException` it throws. */
  datatype StreamResult = Values(counts: seq<int>) | Failed

  /** The four counts in their fixed order; a metric that is not requested
      stays 0.  Lines are line feeds, words are the whitespace-or-start to
      non-whitespace transitions under `isWhitespace` (standing for
      `Character.isWhitespace`), characters are decoded code units. */
  function Counts(input: Input, flags: Flags, isWhitespace: CodeUnit -> bool): (counts: seq<int>)
    ensures |counts| == 4 && forall i :: 0 <= i < 4 ==> counts[i] >= 0
  {
    [ if flags.lines then CountWhere(input.decoded, Text.IsLineFeed) else 0,
      if flags.words then Text.WordCount(input.decoded, isWhitespace) else 0,
      if flags.chars then |input.decoded| else 0,
      if flags.bytes then |input.raw.bytes| else 0 ]
  }

  predicate NonZero(x: int) { x != 0 }

  /** The `filter(e -> e != 0)` of the result: what is left is positive when
      the counts are not negative, and there are at most four values. */
  function DropZeros(counts: seq<int>): (kept: seq<int>)
    ensures |kept| <= |counts|
    ensures forall i :: 0 <= i < |kept| ==> kept[i] != 0
  {
    Filter(counts, NonZero)
  }

  /** The result of `countingAndPrinting` on an input: a read error on the
      stream, in the byte count or in the character walk, is thrown. */
  function CountingResult(input: Input, flags: Flags, isWhitespace: CodeUnit -> bool): StreamResult
  {
    if Fails(input.raw) then Failed else Values(DropZeros(Counts(input, flags, isWhitespace)))
  }

  /** The word branch of the walk: whitespace closes the current word, any
      other character opens one (and counts it) when none is open.  This is
      one step of the `isWord` scan. */
  method WordTransition(numberOfWords: nat, isWord: bool, c: CodeUnit, isWhitespace: CodeUnit -> bool)
      returns (numberOfWords': nat, isWord': bool)
    ensures Text.WordScan(numberOfWords', isWord') == Text.WordStep(Text.WordScan(numberOfWords, isWord), c, isWhitespace)
  {
    numberOfWords', isWord' := numberOfWords, isWord;
    if isWhitespace(c) {
      if isWord' {
        isWord' := false;
      }
    } else {
      if !isWord' {
        isWord' := true;
        numberOfWords' := numberOfWords' + 1;
      }
    }
  }

  /** The counters after `k` characters of `u`. */
  ghost predicate WalkedSoFar(u: seq<CodeUnit>, k: nat, flags: Flags, isWhitespace: CodeUnit -> bool,
                              numberOfLines: nat, numberOfWords: nat, isWord: bool, numberOfChars: nat)
    requires k <= |u|
  {
    && numberOfLines == (if flags.lines then CountWhere(u[..k], Text.IsLineFeed) else 0)
    && (flags.words ==> Text.Scan(Text.Start, u[..k], isWhitespace) == Text.WordScan(numberOfWords, isWord))
    && (!flags.words ==> numberOfWords == 0)
    && numberOfChars == (if flags.chars then k else 0)
  }

  /** The body of the walk for one character: each requested counter takes
      it into account. */
  method CountCharacter(ghost u: seq<CodeUnit>, ghost k: nat, c: CodeUnit, flags: Flags, isWhitespace: CodeUnit -> bool,
                        numberOfLines: nat, numberOfWords: nat, isWord: bool, numberOfChars: nat)
      returns (numberOfLines': nat, numberOfWords': nat, isWord': bool, numberOfChars': nat)
    requires k < |u| && c == u[k]
    requires WalkedSoFar(u, k, flags, isWhitespace, numberOfLines, numberOfWords, isWord, numberOfChars)
    ensures WalkedSoFar(u, k + 1, flags, isWhitespace, numberOfLines', numberOfWords', isWord', numberOfChars')
  {
    CountWherePrefix(u, k, Text.IsLineFeed);
    Text.ScanPrefix(Text.Start, u, k, isWhitespace);
    numberOfLines', numberOfWords', isWord', numberOfChars' := numberOfLines, numberOfWords, isWord, numberOfChars;
    if flags.lines && c == Text.LF {
      numberOfLines' := numberOfLines' + 1;
    }
    if flags.words {
      numberOfWords', isWord' := WordTransition(numberOfWords', isWord', c, isWhitespace);
    }
    if flags.chars {
      numberOfChars' := numberOfChars' + 1;
    }
  }

  /** The walk over the decoded characters, with the counters of the
      requested metrics; `ok` is false when the reader throws. */
  method WalkCharacters(input: Input, flags: Flags, isWhitespace: CodeUnit -> bool)
      returns (ok: bool, numberOfLines: nat, numberOfWords: nat, numberOfChars: nat)
    ensures ok == !Fails(input.raw)
    ensures ok ==> numberOfLines == (if flags.lines then CountWhere(input.decoded, Text.IsLineFeed) else 0)
    ensures ok ==> numberOfWords == (if flags.words then Text.WordCount(input.decoded, isWhitespace) else 0)
    ensures ok ==> numberOfChars == (if flags.chars then |input.decoded| else 0)
  {
    numberOfLines, numberOfWords, numberOfChars := 0, 0, 0;
    var reader := new CharReader.Open(input);
    var isWord := false;
    while true
      invariant reader.Valid() && reader.units == input.decoded && reader.fails == Fails(input.raw)
      invariant WalkedSoFar(input.decoded, reader.next, flags, isWhitespace, numberOfLines, numberOfWords, isWord, numberOfChars)
      decreases |input.decoded| - reader.next
    {
      ghost var k := reader.next;
      var c := reader.Read();
      if c.CharIoError? {
        return false, numberOfLines, numberOfWords, numberOfChars;
      }
      if c.NoMoreUnits? {
        break;
      }
      numberOfLines, numberOfWords, isWord, numberOfChars :=
        CountCharacter(input.decoded, k, c.c, flags, isWhitespace, numberOfLines, numberOfWords, isWord, numberOfChars);
    }
    assert input.decoded[..reader.next] == input.decoded;
    ok := true;
  }

  /** What `execTheTasksWithCountingInParallelWithParallelStreams` returns
      in both variants: the list, or an empty list once the error has been
      reported. */
  function ListOrEmpty(r: StreamResult): (counts: seq<int>)
    ensures r.Failed? ==> counts == []
    ensures r.Values? ==> counts == r.counts
  {
    if r.Failed? then [] else r.counts
  }

  /** The stream is marked, its bytes are counted when requested, it is
      rewound, and the characters are walked from the start. */
  method CountingAndPrinting(input: Input, flags: Flags, isWhitespace: CodeUnit -> bool) returns (r: StreamResult)
    ensures r == CountingResult(input, flags, isWhitespace)
  {
    var numberOfBytes := 0;
    var stream := new Channel.Open(input.raw);
    if flags.bytes {
      var buffer := new byte[STREAM_BUFFER_SIZE];
      while true
        invariant stream.Valid() && stream.source == input.raw
        invariant numberOfBytes == stream.position
        decreases |input.raw.bytes| - stream.position
      {
        var readBytes := stream.Read(buffer);
        if readBytes.IoError? {
          return Failed;
        }
        if readBytes.EndOfStream? {
          break;
        }
        numberOfBytes := numberOfBytes + readBytes.n;
      }
    }
    stream.Reset();
    var ok, numberOfLines, numberOfWords, numberOfChars := WalkCharacters(input, flags, isWhitespace);
    if !ok {
      return Failed;
    }
    assert [numberOfLines, numberOfWords, numberOfChars, numberOfBytes] == Counts(input, flags, isWhitespace);
    return Values(DropZeros([numberOfLines, numberOfWords, numberOfChars, numberOfBytes]));
  }

  // ---------------------------------------------------------------------
  // Properties

  /** When every requested metric counted something, the list holds exactly
      the requested counts, in the order lines, words, chars, bytes. */
  lemma RequestedCountsKeepTheirOrder(input: Input, flags: Flags, isWhitespace: CodeUnit -> bool)
    requires forall i :: 0 <= i < 4 ==> Counts(input, flags, isWhitespace)[i] != 0
    ensures DropZeros(Counts(input, flags, isWhitespace)) == Counts(input, flags, isWhitespace)
  {
    FilterKeepsAll(Counts(input, flags, isWhitespace), NonZero);
  }

  /** The list holds only positive counts, one per requested metric that
      counted something, each taken from the four counts. */
  lemma KeptCountsArePositive(input: Input, flags: Flags, isWhitespace: CodeUnit -> bool)
    ensures var counts := Counts(input, flags, isWhitespace);
            var kept := DropZeros(counts);
            && |kept| == CountWhere(counts, NonZero)
            && multiset(kept) <= multiset(counts)
            && forall i :: 0 <= i < |kept| ==> kept[i] > 0
  {
    var counts := Counts(input, flags, isWhitespace);
    FilterKeepsOnlyMembers(counts, NonZero);
  }

  /** A requested metric that counted 0 disappears, so a position in the list
      does not say which metric it is: on an empty input nothing at all is
      returned, whatever was requested. */
  lemma EmptyInputGivesNoValues(input: Input, flags: Flags, isWhitespace: CodeUnit -> bool)
    requires input.decoded == [] && input.raw.bytes == [] && !Fails(input.raw)
    ensures CountingResult(input, flags, isWhitespace) == Values([])
  {
    var c := Counts(input, flags, isWhitespace);
    assert forall i :: 0 <= i < 4 ==> !NonZero(c[i]);
    CountWhereExtremes(c, NonZero);
  }

  /** The word count of the walk is the number of non-empty pieces between
      whitespace characters: what `split` and a filter on empty strings
      would give. */
  lemma WalkWordsAreTokens(input: Input, isWhitespace: CodeUnit -> bool)
    ensures Text.WordCount(input.decoded, isWhitespace) == |Text.Tokens(input.decoded, isWhitespace)|
  {
    Text.WordCountIsTokenCount(input.decoded, isWhitespace);
  }
}
