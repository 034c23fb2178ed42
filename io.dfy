/** The environment the counters read from: files and standard input as byte
    sources that may fail, a byte channel whose reads deliver any number of
    bytes up to the buffer size, and a reader of already-decoded characters. */
module Io {

  /** An unsigned byte; Java's signed `byte` is recovered with `Signed`. */
  newtype byte = x: int | 0 <= x < 0x100

  /** A UTF-16 code unit, the value `Reader.read()` returns. */
  newtype CodeUnit = x: int | 0 <= x < 0x1_0000

  datatype Option<T> = None | Some(value: T)

  /** The value Java sees when it compares a `byte`: two's complement. */
  function Signed(b: byte): (v: int)
    ensures -0x80 <= v < 0x80
    ensures v == b as int || v == b as int - 0x100
    ensures v < 0 <==> b >= 0x80
  {
    if b < 0x80 then b as int else b as int - 0x100
  }

  /** A file or stream: its bytes, the offset from which every read throws
      an I/O error (`None`: no read fails), and whether it can be opened at
      all.  A file that opens but whose first read throws is
      `Source(bytes, Some(0), true)`; one that cannot be opened has
      `opens == false`, and every read of it throws as well. */
  datatype Source = Source(bytes: seq<byte>, failsFrom: Option<nat>, opens: bool)

  /** A read that starts at `position` throws. */
  predicate FailsAt(s: Source, position: nat)
  {
    !s.opens || (s.failsFrom.Some? && s.failsFrom.value <= position)
  }

  /** Reading `s` through to its end meets the I/O error. */
  predicate Fails(s: Source)
  {
    FailsAt(s, |s.bytes|)
  }

  /** A file as the counters see it.  `decoded` is what a UTF-8
      `InputStreamReader` delivers (malformed input replaced, and only what
      precedes a fault); `wellFormed` says whether a strict UTF-8 decoder, as
      `Files.lines` uses, accepts the bytes, in which case `decoded` is also
      what it yields.  Decoding itself is not modelled. */
  datatype Input = Input(raw: Source, decoded: seq<CodeUnit>, wellFormed: bool)

  /** Outcome of one `read(buffer)`: a count of bytes, end of stream (-1),
      or a thrown `IOException`. */
  datatype ReadResult = Got(n: nat) | EndOfStream | IoError

  /** An open byte channel or input stream over a source. */
  class Channel {
    const source: Source
    var position: nat

    ghost predicate Valid()
      reads this
    {
      position <= |source.bytes|
    }

    constructor Open(s: Source)
      ensures Valid() && source == s && position == 0
    {
      source := s;
      position := 0;
    }

    /** Fills a prefix of `buffer` with the next bytes.  As Java's contract
        allows, a read may deliver fewer bytes than the buffer holds: the
        count is chosen freely between 1 and what the buffer and the source
        allow, so every property proved of a caller holds for every way the
        reads can be chunked. */
    method Read(buffer: array<byte>) returns (r: ReadResult)
      requires Valid() && buffer.Length > 0
      modifies this, buffer
      ensures Valid()
      ensures r.IoError? <==> FailsAt(source, old(position))
      ensures r.EndOfStream? <==> !FailsAt(source, old(position)) && old(position) == |source.bytes|
      ensures r.Got? ==> 0 < r.n <= buffer.Length && position == old(position) + r.n
                         && buffer[..r.n] == source.bytes[old(position)..position]
      ensures !r.Got? ==> position == old(position)
    {
      if FailsAt(source, position) {
        return IoError;
      }
      if position == |source.bytes| {
        return EndOfStream;
      }
      var n :| 0 < n <= buffer.Length && position + n <= |source.bytes|;
      forall i | 0 <= i < n {
        buffer[i] := source.bytes[position + i];
      }
      position := position + n;
      r := Got(n);
    }

    /** `InputStream.reset()` back to a mark set at the start. */
    method Reset()
      modifies this
      ensures Valid() && position == 0
    {
      position := 0;
    }
  }

  /** Outcome of one `Reader.read()`: a code unit, end of stream (-1), or a
      thrown `IOException`. */
  datatype CharRead = Unit(c: CodeUnit) | NoMoreUnits | CharIoError

  /** A `BufferedReader` over an `InputStreamReader`.  A reader over a failing
      source yields the units decoded before the fault and then throws. */
  class CharReader {
    const units: seq<CodeUnit>
    const fails: bool
    var next: nat

    ghost predicate Valid()
      reads this
    {
      next <= |units|
    }

    constructor Open(input: Input)
      ensures Valid() && units == input.decoded && fails == Fails(input.raw) && next == 0
    {
      units := input.decoded;
      fails := Fails(input.raw);
      next := 0;
    }

    method Read() returns (r: CharRead)
      requires Valid()
      modifies this
      ensures Valid()
      ensures old(next) < |units| ==> r == Unit(units[old(next)]) && next == old(next) + 1
      ensures old(next) == |units| ==> r == (if fails then CharIoError else NoMoreUnits) && next == old(next)
    {
      if next < |units| {
        r := Unit(units[next]);
        next := next + 1;
      } else if fails {
        r := CharIoError;
      } else {
        r := NoMoreUnits;
      }
    }
  }
}
