/** The binary-file classifier of `Utils.isBinaryFile`: one read of at most
    5120 bytes, and "binary" as soon as one of them is disqualifying. */
module Utils {
  import opened Io

  /** Capacity of the buffer that the single read fills. */
  const PREFIX_SIZE: nat := 5120

  /** The Java test, made on Java's signed byte.  Because a byte of
      0x80 or more is negative there, `< 0x09` also catches every such byte. */
  function Disqualifies(b: byte): (r: bool)
    ensures r <==> b <= 0x08 || (0x0E <= b <= 0x1F) || b == 0x7F || b >= 0x80
  {
    var v := Signed(b);
    v < 0x09 || (v > 0x0D && v < 0x20) || v == 0x7F
  }

  predicate HasDisqualifyingByte(s: seq<byte>)
  {
    exists i :: 0 <= i < |s| && Disqualifies(s[i])
  }

  /** What the single read may have delivered: a prefix of the file of at
      most 5120 bytes, empty exactly when the file is empty or cannot be
      opened or read. */
  ghost predicate FirstRead(file: Source, inspected: seq<byte>)
  {
    && |inspected| <= PREFIX_SIZE && |inspected| <= |file.bytes|
    && inspected == file.bytes[..|inspected|]
    && (inspected == [] <==> FailsAt(file, 0) || file.bytes == [])
  }

  function Min(a: nat, b: nat): nat { if a < b then a else b }

  /** The classification can be "binary" only if a disqualifying byte lies in
      the first 5120 bytes. */
  predicate BinaryPossible(file: Source)
  {
    !FailsAt(file, 0) && HasDisqualifyingByte(file.bytes[..Min(PREFIX_SIZE, |file.bytes|)])
  }

  /** The classification can be "text" only if the read may have stopped
      before any disqualifying byte: the very first byte is enough. */
  predicate TextPossible(file: Source)
  {
    FailsAt(file, 0) || file.bytes == [] || !Disqualifies(file.bytes[0])
  }

  /** `Utils.isBinaryFile`: the result is an existential test over the bytes
      the one read delivered; an empty file, a file that cannot be opened or
      read gives false, never an error. */
  method IsBinaryFile(file: Source) returns (binary: bool, ghost inspected: seq<byte>)
    ensures FirstRead(file, inspected)
    ensures binary == HasDisqualifyingByte(inspected)
    ensures binary ==> BinaryPossible(file)
    ensures !binary ==> TextPossible(file)
  {
    var channel := new Channel.Open(file);
    var buffer := new byte[PREFIX_SIZE];
    var r := channel.Read(buffer);
    if r.Got? {
      inspected := file.bytes[..r.n];
      assert buffer[..r.n] == inspected;
      for i := 0 to r.n
        invariant forall k :: 0 <= k < i ==> !Disqualifies(inspected[k])
      {
        if Disqualifies(buffer[i]) {
          assert inspected[i] == buffer[i];
          PrefixMonotone(file.bytes, i + 1, Min(PREFIX_SIZE, |file.bytes|));
          return true, inspected;
        }
      }
      return false, inspected;
    }
    return false, [];
  }

  /** A disqualifying byte in a shorter prefix is one in every longer one. */
  lemma PrefixMonotone(s: seq<byte>, k: nat, m: nat)
    requires k <= m <= |s|
    requires HasDisqualifyingByte(s[..k])
    ensures HasDisqualifyingByte(s[..m])
  {
    var i :| 0 <= i < k && Disqualifies(s[..k][i]);
    assert s[..m][i] == s[i];
  }

  /** The test is existential: reordering the inspected bytes never changes
      the classification. */
  lemma {:induction false} OrderIrrelevant(s: seq<byte>, t: seq<byte>)
    requires multiset(s) == multiset(t)
    ensures HasDisqualifyingByte(s) == HasDisqualifyingByte(t)
  {
    if HasDisqualifyingByte(s) {
      var i :| 0 <= i < |s| && Disqualifies(s[i]);
      assert s[i] in multiset(t);
      var j :| 0 <= j < |t| && t[j] == s[i];
    }
    if HasDisqualifyingByte(t) {
      var j :| 0 <= j < |t| && Disqualifies(t[j]);
      assert t[j] in multiset(s);
      var i :| 0 <= i < |s| && s[i] == t[j];
    }
  }

  /** A consequence of the signed comparison: UTF-8 text with any non-ASCII
      character ("é" is 0xC3 0xA9) is classified binary, whichever
      way the first read is cut, as long as it reaches that character. */
  lemma NonAsciiTextIsBinary(file: Source, inspected: seq<byte>)
    requires FirstRead(file, inspected)
    requires exists i :: 0 <= i < |inspected| && inspected[i] >= 0x80
    ensures HasDisqualifyingByte(inspected)
  {
    var i :| 0 <= i < |inspected| && inspected[i] >= 0x80;
    assert Disqualifies(inspected[i]);
  }
}
