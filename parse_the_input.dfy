/** The per-file counters of `ParseTheInput`: lines, characters, words and
    bytes of one file, with the raw-byte scans they fall back to.  Every
    scan reads through a 1 MiB buffer whose reads may be cut anywhere; each
    counter is proved to give the count over the whole file regardless. */
module ParseTheInput {
  import opened Io
  import opened Seqs
  import Utils
  import Text

  /** Capacity of the buffers the byte scans refill. */
  const BUFFER_SIZE: nat := 1048576

  /** What a counter hands back: a count (-1 is the "unavailable" sentinel),
      or the process ends through `System.exit(code)`. */
  datatype Tally = Count(value: int) | Exit(code: int)

  // ---------------------------------------------------------------------
  // Byte classes

  predicate IsNewline(b: byte) { b == 0x0A }

  /** The character heuristic for binary files, tested as the Java code does on
      the signed byte for the low range and on `b & 0xFF` for the high one. */
  function CountsAsChar(b: byte): (r: bool)
    ensures r <==> (0x09 <= b <= 0x7E) || b >= 0x80
  {
    var v := Signed(b);
    (v >= 0x9 && v <= 0x7E) || b as int >= 0x80
  }

  /** The bytes the character heuristic skips: controls below tab, and DEL. */
  predicate IsSkippedControl(b: byte) { b <= 0x08 || b == 0x7F }

  predicate IsPrintable(b: byte) { 0x21 <= b <= 0x7E }

  predicate IsSeparator(b: byte) { 0x09 <= b <= 0x0D || b == 0x20 }

  // ---------------------------------------------------------------------
  // Specification of the scans

  function NewlineCount(s: seq<byte>): nat { CountWhere(s, IsNewline) }

  function BinaryCharCount(s: seq<byte>): nat { CountWhere(s, CountsAsChar) }

  /** Words counted so far, and the `inWord` flag. */
  datatype WordState = WordState(words: nat, inWord: bool)

  const Fresh := WordState(0, false)

  /** One byte of the binary word scan, as the Java code tests it on the signed
      byte: a printable byte opens a word (counting it) when none is open, a
      separator closes it, any other byte leaves the state alone. */
  function WordStep(st: WordState, b: byte): (st': WordState)
    ensures st'.words == st.words + (if IsPrintable(b) && !st.inWord then 1 else 0)
    ensures st'.inWord == if IsPrintable(b) then true else if IsSeparator(b) then false else st.inWord
  {
    var v := Signed(b);
    if v >= 0x21 && v <= 0x7E then
      (if !st.inWord then WordState(st.words + 1, true) else st)
    else if v == 0x9 || v == 0xA || v == 0xB || v == 0xC || v == 0xD || v == 0x20 then
      WordState(st.words, false)
    else
      st
  }

  function ScanBytes(st: WordState, s: seq<byte>): WordState
  {
    if s == [] then st else WordStep(ScanBytes(st, s[..|s| - 1]), s[|s| - 1])
  }

  function BinaryWordCount(s: seq<byte>): nat { ScanBytes(Fresh, s).words }

  lemma ScanBytesPrefix(st: WordState, s: seq<byte>, i: nat)
    requires i < |s|
    ensures ScanBytes(st, s[..i + 1]) == WordStep(ScanBytes(st, s[..i]), s[i])
  {
    assert s[..i + 1][..i] == s[..i];
  }

  /** The `inWord` flag carries over: scanning `a + b` is scanning `b` from
      the state `a` left. */
  lemma {:induction false} ScanBytesAppend(st: WordState, a: seq<byte>, b: seq<byte>)
    ensures ScanBytes(st, a + b) == ScanBytes(ScanBytes(st, a), b)
    decreases |b|
  {
    if b == [] {
      assert a + b == a;
    } else {
      assert (a + b)[..|a + b| - 1] == a + b[..|b| - 1];
      ScanBytesAppend(st, a, b[..|b| - 1]);
    }
  }

  // ---------------------------------------------------------------------
  // Chunked accumulation: what the loops compute buffer by buffer

  /** The counts of the chunks, added up one buffer at a time. */
  function CountChunks(chunks: seq<seq<byte>>, p: byte -> bool): nat
  {
    if chunks == [] then 0 else CountChunks(chunks[..|chunks| - 1], p) + CountWhere(chunks[|chunks| - 1], p)
  }

  lemma {:induction false} CountChunksIsCountOfConcat(chunks: seq<seq<byte>>, p: byte -> bool)
    ensures CountChunks(chunks, p) == CountWhere(Concat(chunks), p)
    decreases |chunks|
  {
    if chunks != [] {
      var init := chunks[..|chunks| - 1];
      CountChunksIsCountOfConcat(init, p);
      CountWhereAppend(Concat(init), chunks[|chunks| - 1], p);
    }
  }

  /** The word scan run chunk after chunk with `inWord` kept between them. */
  function ScanChunks(st: WordState, chunks: seq<seq<byte>>): WordState
  {
    if chunks == [] then st else ScanBytes(ScanChunks(st, chunks[..|chunks| - 1]), chunks[|chunks| - 1])
  }

  lemma {:induction false} ScanChunksIsScanOfConcat(st: WordState, chunks: seq<seq<byte>>)
    ensures ScanChunks(st, chunks) == ScanBytes(st, Concat(chunks))
    decreases |chunks|
  {
    if chunks != [] {
      var init := chunks[..|chunks| - 1];
      ScanChunksIsScanOfConcat(st, init);
      ScanBytesAppend(st, Concat(init), chunks[|chunks| - 1]);
    }
  }

  /** The lengths of the reads, summed. */
  function SumLengths(chunks: seq<seq<byte>>): nat
  {
    if chunks == [] then 0 else SumLengths(chunks[..|chunks| - 1]) + |chunks[|chunks| - 1]|
  }

  lemma {:induction false} SumLengthsIsLengthOfConcat(chunks: seq<seq<byte>>)
    ensures SumLengths(chunks) == |Concat(chunks)|
    decreases |chunks|
  {
    if chunks != [] {
      SumLengthsIsLengthOfConcat(chunks[..|chunks| - 1]);
    }
  }

  // ---------------------------------------------------------------------
  // Properties of the scans

  /** Every byte is either counted by the character heuristic or is one of
      the skipped controls, so the count never exceeds the byte count. */
  lemma {:induction false} BinaryCharCountComplement(s: seq<byte>)
    ensures BinaryCharCount(s) + CountWhere(s, IsSkippedControl) == |s|
    decreases |s|
  {
    if s != [] {
      BinaryCharCountComplement(s[..|s| - 1]);
    }
  }

  predicate IsSignificant(b: byte) { IsPrintable(b) || IsSeparator(b) }

  /** Reference for the binary word count: delete the bytes the scan ignores
      and count the printable bytes that start a run of printable bytes. */
  function RunStarts(t: seq<byte>): nat
  {
    if t == [] then 0
    else RunStarts(t[..|t| - 1])
         + (if IsPrintable(t[|t| - 1]) && (|t| == 1 || !IsPrintable(t[|t| - 2])) then 1 else 0)
  }

  lemma RunStartsSnoc(t: seq<byte>, b: byte)
    ensures RunStarts(t + [b]) == RunStarts(t) + (if IsPrintable(b) && (t == [] || !IsPrintable(t[|t| - 1])) then 1 else 0)
  {
    assert (t + [b])[..|t|] == t;
  }

  /** The scan counts exactly the runs of printable bytes once the ignored
      bytes are deleted, and `inWord` says whether the last kept byte is
      printable. */
  lemma {:induction false} BinaryWordCountIsRunStarts(s: seq<byte>)
    ensures BinaryWordCount(s) == RunStarts(Filter(s, IsSignificant))
    ensures var t := Filter(s, IsSignificant); ScanBytes(Fresh, s).inWord == (t != [] && IsPrintable(t[|t| - 1]))
    decreases |s|
  {
    if s != [] {
      var s' := s[..|s| - 1];
      BinaryWordCountIsRunStarts(s');
      var t' := Filter(s', IsSignificant);
      var b := s[|s| - 1];
      assert s' + [b] == s;
      FilterSnoc(s', b, IsSignificant);
      var t := Filter(s, IsSignificant);
      assert ScanBytes(Fresh, s) == WordStep(ScanBytes(Fresh, s'), b);
      if IsSignificant(b) {
        assert t == t' + [b];
        RunStartsSnoc(t', b);
      } else {
        assert t == t';
      }
    }
  }

  // ---------------------------------------------------------------------
  // The counters

  /** The inner loop of the scans: how many of the first `n` bytes of the
      buffer pass the test. */
  method CountInBuffer(buffer: array<byte>, n: nat, p: byte -> bool) returns (count: nat)
    requires n <= buffer.Length
    ensures count == CountWhere(buffer[..n], p)
  {
    count := 0;
    for i := 0 to n
      invariant count == CountWhere(buffer[..i], p)
    {
      CountWherePrefix(buffer[..n], i, p);
      assert buffer[..n][..i] == buffer[..i] && buffer[..n][..i + 1] == buffer[..i + 1];
      if p(buffer[i]) {
        count := count + 1;
      }
    }
  }

  /** The inner loop of the word fallback: the scan resumed from `st` over
      the first `n` bytes of the buffer. */
  method ScanInBuffer(buffer: array<byte>, n: nat, st: WordState) returns (st': WordState)
    requires n <= buffer.Length
    ensures st' == ScanBytes(st, buffer[..n])
  {
    st' := st;
    for i := 0 to n
      invariant st' == ScanBytes(st, buffer[..i])
    {
      ScanBytesPrefix(st, buffer[..n], i);
      assert buffer[..n][..i] == buffer[..i] && buffer[..n][..i + 1] == buffer[..i + 1];
      var b := buffer[i];
      var v := Signed(b);
      if v >= 0x21 && v <= 0x7E {
        if !st'.inWord {
          st' := WordState(st'.words + 1, true);
        }
      } else if v == 0x9 || v == 0xA || v == 0xB || v == 0xC || v == 0xD || v == 0x20 {
        st' := st'.(inWord := false);
      }
    }
  }

  /** A read appends its chunk: the chunks so far still spell the prefix
      of the file that has been read. */
  lemma ReadAppendsChunk(s: seq<byte>, chunks: seq<seq<byte>>, start: nat, end: nat)
    requires start <= end <= |s| && Concat(chunks) == s[..start]
    ensures Concat(chunks + [s[start..end]]) == s[..end]
  {
    assert (chunks + [s[start..end]])[..|chunks|] == chunks;
    assert s[..end] == s[..start] + s[start..end];
  }

  /** The chunks with one more read appended. */
  function AddChunk(chunks: seq<seq<byte>>, chunk: seq<byte>): (chunks': seq<seq<byte>>)
    ensures |chunks'| == |chunks| + 1 && chunks'[..|chunks|] == chunks && chunks'[|chunks|] == chunk
  {
    chunks + [chunk]
  }

  /** The raw-byte fallback of `countTheNumberOfLines`: the number of 0x0A
      bytes, added up read by read for every way the reads are cut; an I/O
      error ends the process with status 0.  The count is unbounded here;
      `CountNewlineBytesAsWritten` keeps the Java code's `int` counter. */
  method CountNewlineBytes(file: Source) returns (r: Tally)
    ensures r == if Fails(file) then Exit(0) else Count(NewlineCount(file.bytes))
  {
    var channel := new Channel.Open(file);
    var buffer := new byte[BUFFER_SIZE];
    var count := 0;
    ghost var chunks: seq<seq<byte>> := [];
    while true
      invariant channel.Valid() && channel.source == file
      invariant Concat(chunks) == file.bytes[..channel.position]
      invariant count == CountChunks(chunks, IsNewline)
      decreases |file.bytes| - channel.position
    {
      ghost var start := channel.position;
      var got := channel.Read(buffer);
      if got.IoError? {
        return Exit(0);
      }
      if got.EndOfStream? {
        break;
      }
      var inChunk := CountInBuffer(buffer, got.n, IsNewline);
      count := count + inChunk;
      ReadAppendsChunk(file.bytes, chunks, start, channel.position);
      chunks := AddChunk(chunks, buffer[..got.n]);
    }
    CountChunksIsCountOfConcat(chunks, IsNewline);
    assert file.bytes[..channel.position] == file.bytes;
    return Count(count);
  }

  // ---------------------------------------------------------------------
  // The Java code's `int` newline counter

  const INT_MIN: int := -0x8000_0000
  const INT_MAX: int := 0x7FFF_FFFF

  /** Java's `int`: the value brought into range by steps of 2^32, as
      two's complement arithmetic wraps it. */
  function ToInt32(x: int): (v: int)
    ensures INT_MIN <= v <= INT_MAX
    ensures INT_MIN <= x <= INT_MAX ==> v == x
    decreases WrapDistance(x)
  {
    if x > INT_MAX then ToInt32(x - 0x1_0000_0000)
    else if x < INT_MIN then ToInt32(x + 0x1_0000_0000)
    else x
  }

  function WrapDistance(x: int): nat
  {
    if x < INT_MIN then 0x2_0000_0000 - x else if x > INT_MAX then x + 0x1_0000_0000 else 0
  }

  /** A value in range that differs from `x` by whole turns of 2^32 is what
      `x` wraps to. */
  lemma {:induction false} WrapsTo(v: int, x: int, turns: int)
    requires INT_MIN <= v <= INT_MAX && x == v + 0x1_0000_0000 * turns
    ensures ToInt32(x) == v
    decreases if turns < 0 then -turns else turns
  {
    if turns > 0 {
      WrapsTo(v, x - 0x1_0000_0000, turns - 1);
    } else if turns < 0 {
      WrapsTo(v, x + 0x1_0000_0000, turns + 1);
    }
  }

  /** The inner loop with the `int` counter of the Java code: `count++` wraps
      from `INT_MAX` to `INT_MIN`, so the exact sum and the counter differ
      by whole turns of 2^32. */
  method CountNewlinesInBufferAsWritten(buffer: array<byte>, n: nat, count0: int)
      returns (count: int, ghost turns: nat)
    requires n <= buffer.Length && INT_MIN <= count0 <= INT_MAX
    ensures INT_MIN <= count <= INT_MAX
    ensures count0 + CountWhere(buffer[..n], IsNewline) == count + 0x1_0000_0000 * turns
  {
    count, turns := count0, 0;
    for i := 0 to n
      invariant INT_MIN <= count <= INT_MAX
      invariant count0 + CountWhere(buffer[..i], IsNewline) == count + 0x1_0000_0000 * turns
    {
      CountWherePrefix(buffer[..n], i, IsNewline);
      assert buffer[..n][..i] == buffer[..i] && buffer[..n][..i + 1] == buffer[..i + 1];
      if buffer[i] == 0x0A {
        if count == INT_MAX {
          count, turns := INT_MIN, turns + 1;
        } else {
          count := count + 1;
        }
      }
    }
  }

  /** The fallback as written: the newline count is kept in an `int` and
      widened to `long` only at the end, so it is the exact count wrapped
      into 32 bits. */
  method CountNewlineBytesAsWritten(file: Source) returns (r: Tally)
    ensures r == if Fails(file) then Exit(0) else Count(ToInt32(NewlineCount(file.bytes)))
  {
    var channel := new Channel.Open(file);
    var buffer := new byte[BUFFER_SIZE];
    var count := 0;
    ghost var turns := 0;
    while true
      invariant channel.Valid() && channel.source == file
      invariant INT_MIN <= count <= INT_MAX
      invariant NewlineCount(file.bytes[..channel.position]) == count + 0x1_0000_0000 * turns
      decreases |file.bytes| - channel.position
    {
      ghost var start := channel.position;
      var got := channel.Read(buffer);
      if got.IoError? {
        return Exit(0);
      }
      if got.EndOfStream? {
        break;
      }
      ghost var more;
      count, more := CountNewlinesInBufferAsWritten(buffer, got.n, count);
      turns := turns + more;
      CountAcross(file.bytes, start, channel.position, IsNewline);
    }
    assert file.bytes[..channel.position] == file.bytes;
    WrapsTo(count, NewlineCount(file.bytes), turns);
    return Count(count);
  }

  /** The counts of two successive stretches of the file add up. */
  lemma CountAcross(s: seq<byte>, start: nat, end: nat, p: byte -> bool)
    requires start <= end <= |s|
    ensures CountWhere(s[..end], p) == CountWhere(s[..start], p) + CountWhere(s[start..end], p)
  {
    assert s[..end] == s[..start] + s[start..end];
    CountWhereAppend(s[..start], s[start..end], p);
  }

  /** 2^31 line feeds followed by a 0xFF byte, which is never valid UTF-8
      and so sends `countTheNumberOfLines` to the fallback: the `int`
      counter reports a negative number of lines. */
  lemma NewlineCountOverflows()
    ensures var s := seq(0x8000_0000, _ => 0x0A as byte) + [0xFF];
            NewlineCount(s) == 0x8000_0000 && ToInt32(NewlineCount(s)) == INT_MIN
  {
    var lf := seq(0x8000_0000, _ => 0x0A as byte);
    assert forall i :: 0 <= i < |lf| ==> IsNewline(lf[i]);
    CountWhereExtremes(lf, IsNewline);
    CountWhereAppend(lf, [0xFF], IsNewline);
    WrapsTo(INT_MIN, 0x8000_0000, 1);
  }

  // ---------------------------------------------------------------------
  // Characters, words and bytes

  /** The binary branch of `countTheNumberOfChars`: the bytes the heuristic
      counts, added up read by read; an I/O error gives the -1 sentinel. */
  method CountCharBytes(file: Source) returns (r: Tally)
    ensures r == if Fails(file) then Count(-1) else Count(BinaryCharCount(file.bytes))
  {
    var channel := new Channel.Open(file);
    var buffer := new byte[BUFFER_SIZE];
    var numberOfChars := 0;
    ghost var chunks: seq<seq<byte>> := [];
    while true
      invariant channel.Valid() && channel.source == file
      invariant Concat(chunks) == file.bytes[..channel.position]
      invariant numberOfChars == CountChunks(chunks, CountsAsChar)
      decreases |file.bytes| - channel.position
    {
      ghost var start := channel.position;
      var got := channel.Read(buffer);
      if got.IoError? {
        return Count(-1);
      }
      if got.EndOfStream? {
        break;
      }
      var inChunk := CountInBuffer(buffer, got.n, CountsAsChar);
      numberOfChars := numberOfChars + inChunk;
      ReadAppendsChunk(file.bytes, chunks, start, channel.position);
      chunks := AddChunk(chunks, buffer[..got.n]);
    }
    CountChunksIsCountOfConcat(chunks, CountsAsChar);
    assert file.bytes[..channel.position] == file.bytes;
    return Count(numberOfChars);
  }

  /** The raw-byte fallback of `countTheNumberOfWords`: the word scan run
      read by read with `inWord` kept across refills; an I/O error ends the
      process with status 0. */
  method CountWordBytes(file: Source) returns (r: Tally)
    ensures r == if Fails(file) then Exit(0) else Count(BinaryWordCount(file.bytes))
  {
    var channel := new Channel.Open(file);
    var buffer := new byte[BUFFER_SIZE];
    var st := Fresh;
    ghost var chunks: seq<seq<byte>> := [];
    while true
      invariant channel.Valid() && channel.source == file
      invariant Concat(chunks) == file.bytes[..channel.position]
      invariant st == ScanChunks(Fresh, chunks)
      decreases |file.bytes| - channel.position
    {
      ghost var start := channel.position;
      var got := channel.Read(buffer);
      if got.IoError? {
        return Exit(0);
      }
      if got.EndOfStream? {
        break;
      }
      st := ScanInBuffer(buffer, got.n, st);
      ReadAppendsChunk(file.bytes, chunks, start, channel.position);
      chunks := AddChunk(chunks, buffer[..got.n]);
    }
    ScanChunksIsScanOfConcat(Fresh, chunks);
    assert file.bytes[..channel.position] == file.bytes;
    return Count(st.words);
  }

  /** `countTheNumberOfBytes`: the lengths of the reads, summed; opening or
      reading failures give the -1 sentinel. */
  method CountBytes(file: Source) returns (r: Tally)
    ensures r == BytesOf(file)
  {
    var stream := new Channel.Open(file);
    var bytes := new byte[BUFFER_SIZE];
    var bytesCount := 0;
    ghost var chunks: seq<seq<byte>> := [];
    while true
      invariant stream.Valid() && stream.source == file
      invariant Concat(chunks) == file.bytes[..stream.position]
      invariant bytesCount == SumLengths(chunks)
      decreases |file.bytes| - stream.position
    {
      ghost var start := stream.position;
      var byteRead := stream.Read(bytes);
      if byteRead.IoError? {
        return Count(-1);
      }
      if byteRead.EndOfStream? {
        break;
      }
      bytesCount := bytesCount + byteRead.n;
      ReadAppendsChunk(file.bytes, chunks, start, stream.position);
      chunks := AddChunk(chunks, bytes[..byteRead.n]);
    }
    SumLengthsIsLengthOfConcat(chunks);
    return Count(bytesCount);
  }

  /** The text branch of `countTheNumberOfChars`: one count per code unit
      the reader delivers; a failure while reading gives -1. */
  method CountDecodedChars(input: Input) returns (r: Tally)
    ensures r == if Fails(input.raw) then Count(-1) else Count(|input.decoded|)
  {
    var reader := new CharReader.Open(input);
    var numberOfChars := 0;
    while true
      invariant reader.Valid() && reader.units == input.decoded && reader.fails == Fails(input.raw)
      invariant numberOfChars == reader.next
      decreases |reader.units| - reader.next
    {
      var c := reader.Read();
      if c.CharIoError? {
        return Count(-1);
      }
      if c.NoMoreUnits? {
        break;
      }
      numberOfChars := numberOfChars + 1;
    }
    return Count(numberOfChars);
  }

  // ---------------------------------------------------------------------
  // The four counters of a file

  /** `countTheNumberOfLines`: the lines `Files.lines` yields; a file that is
      not well-formed UTF-8 falls back to counting 0x0A bytes; any I/O error,
      on opening or while reading, ends the process with status 0. */
  function LinesOf(input: Input): Tally
  {
    if Fails(input.raw) then Exit(0)
    else if !input.wellFormed then Count(NewlineCount(input.raw.bytes))
    else Count(|Text.ReadLines(input.decoded)|)
  }

  /** `countTheNumberOfWords`: the `\s`-separated tokens of every line; a
      file that is not well-formed falls back to the binary word scan; a
      file that cannot be opened gives -1; a file that opens but whose reads
      fail, from the first one on or later, ends the process with status 0
      (`Files.lines` only opens the file, the reading error goes to the
      fallback, which meets it again). */
  function WordsOf(input: Input): Tally
  {
    if !input.raw.opens then Count(-1)
    else if Fails(input.raw) then Exit(0)
    else if !input.wellFormed then Count(BinaryWordCount(input.raw.bytes))
    else Count(Text.LineWords(Text.ReadLines(input.decoded)))
  }

  /** `countTheNumberOfChars`, given the classification of the file: the
      byte heuristic when it is binary, the decoded code units otherwise;
      -1 on any I/O error. */
  function CharsOf(input: Input, binary: bool): Tally
  {
    if Fails(input.raw) then Count(-1)
    else if binary then Count(BinaryCharCount(input.raw.bytes))
    else Count(|input.decoded|)
  }

  /** `countTheNumberOfBytes`: the length of the file, or -1. */
  function BytesOf(file: Source): Tally
  {
    if Fails(file) then Count(-1) else Count(|file.bytes|)
  }

  method CountLines(input: Input) returns (r: Tally)
    ensures r == LinesOf(input)
  {
    if Fails(input.raw) {
      return Exit(0);
    }
    if input.wellFormed {
      return Count(|Text.ReadLines(input.decoded)|);
    }
    r := CountNewlineBytes(input.raw);
  }

  method CountWords(input: Input) returns (r: Tally)
    ensures r == WordsOf(input)
  {
    if !input.raw.opens {
      return Count(-1);
    }
    if input.wellFormed && !Fails(input.raw) {
      return Count(Text.LineWords(Text.ReadLines(input.decoded)));
    }
    r := CountWordBytes(input.raw);
  }

  /** The classifier picks the branch: the byte heuristic exactly when
      `isBinaryFile` says binary. */
  method CountChars(input: Input) returns (r: Tally, ghost inspected: seq<byte>)
    ensures Utils.FirstRead(input.raw, inspected)
    ensures r == CharsOf(input, Utils.HasDisqualifyingByte(inspected))
  {
    var binary;
    binary, inspected := Utils.IsBinaryFile(input.raw);
    if !binary {
      r := CountDecodedChars(input);
    } else {
      r := CountCharBytes(input.raw);
    }
  }

  // ---------------------------------------------------------------------
  // Properties of the four counters

  /** The -1 sentinel: the line counter never returns it (its errors end
      the process), the word counter returns it exactly when the file cannot
      be opened, the character and byte counters exactly when reading fails.
      Every other count is not negative. */
  lemma SentinelMeansUnreadable(input: Input, binary: bool)
    ensures LinesOf(input).Count? ==> LinesOf(input).value >= 0
    ensures WordsOf(input) == Count(-1) <==> !input.raw.opens
    ensures input.raw.opens && Fails(input.raw) ==> WordsOf(input) == Exit(0)
    ensures CharsOf(input, binary) == Count(-1) <==> Fails(input.raw)
    ensures BytesOf(input.raw) == Count(-1) <==> Fails(input.raw)
    ensures forall t :: t in [LinesOf(input), WordsOf(input), CharsOf(input, binary), BytesOf(input.raw)] && t.Count? ==> t.value >= -1
  {
  }

  /** On a binary file the character heuristic counts at most one character
      per byte. */
  lemma BinaryCharsAtMostBytes(input: Input)
    requires !Fails(input.raw)
    ensures CharsOf(input, true).value <= |input.raw.bytes|
    ensures CharsOf(input, true).value == |input.raw.bytes| - CountWhere(input.raw.bytes, IsSkippedControl)
  {
    BinaryCharCountComplement(input.raw.bytes);
  }

  /** On well-formed text the word counter counts the runs of non-`\s`
      characters of the whole text: splitting into lines first changes
      nothing. */
  lemma TextWordsAreWordRuns(input: Input)
    requires input.wellFormed && !Fails(input.raw)
    ensures WordsOf(input) == Count(Text.WordCount(input.decoded, Text.IsRegexSpace))
  {
    Text.LineWordsAreWordRuns(input.decoded);
  }

  /** On well-formed text without carriage returns the line counter counts
      the line feeds, plus one for a last line that lacks its own: unlike
      the fallback, which counts line feeds only. */
  lemma TextLinesCountAnUnterminatedLastLine(input: Input)
    requires input.wellFormed && !Fails(input.raw)
    requires forall j :: 0 <= j < |input.decoded| ==> input.decoded[j] != Text.CR
    ensures LinesOf(input) == Count(CountWhere(input.decoded, Text.IsLineFeed)
                                    + (if input.decoded != [] && input.decoded[|input.decoded| - 1] != Text.LF then 1 else 0))
  {
    Text.LineCountWithoutCarriageReturns(input.decoded);
  }
}
