/** The text of a count as `printf("%-9s", value)` writes it: the decimal
    digits of the value, left-justified and padded with spaces to nine
    characters, never cut when longer.  Only values that are not negative
    are ever printed. */
module Format {

  /** The column width of `%-9s`. */
  const WIDTH: nat := 9

  function DigitChar(d: nat): (c: char)
    requires d < 10
    ensures '0' <= c <= '9'
  {
    ('0' as int + d) as char
  }

  predicate IsDigit(c: char) { '0' <= c <= '9' }

  function DigitValue(c: char): (d: nat)
    requires IsDigit(c)
    ensures d < 10
  {
    c as int - '0' as int
  }

  /** `Long.toString` of a value that is not negative: its decimal digits,
      without leading zeros. */
  function Decimal(n: nat): (s: string)
    ensures 1 <= |s|
    ensures forall i :: 0 <= i < |s| ==> IsDigit(s[i])
    ensures |s| > 1 ==> s[0] != '0'
  {
    if n < 10 then [DigitChar(n)] else Decimal(n / 10) + [DigitChar(n % 10)]
  }

  /** Reads a string of digits back as a number. */
  function ParseDecimal(s: string): nat
    requires forall i :: 0 <= i < |s| ==> IsDigit(s[i])
  {
    if s == [] then 0 else ParseDecimal(s[..|s| - 1]) * 10 + DigitValue(s[|s| - 1])
  }

  lemma {:induction false} DecimalRoundTrip(n: nat)
    ensures ParseDecimal(Decimal(n)) == n
  {
    if n >= 10 {
      DecimalRoundTrip(n / 10);
      var s := Decimal(n);
      assert s[..|s| - 1] == Decimal(n / 10);
    }
  }

  function Pow10(k: nat): (p: nat)
    ensures p >= 1
  {
    if k == 0 then 1 else 10 * Pow10(k - 1)
  }

  /** A value has at most `k` digits exactly when it is below 10^k. */
  lemma {:induction false} DecimalLength(n: nat, k: nat)
    requires k >= 1
    ensures |Decimal(n)| <= k <==> n < Pow10(k)
    decreases k
  {
    if n >= 10 && k > 1 {
      DecimalLength(n / 10, k - 1);
    }
  }

  lemma Pow10Eight()
    ensures Pow10(8) == 100_000_000
  {
    assert Pow10(4) == 10_000;
  }

  function Spaces(k: nat): (s: string)
    ensures |s| == k && forall i :: 0 <= i < k ==> s[i] == ' '
  {
    seq(k, _ => ' ')
  }

  /** `%-9s`: left-justified in nine characters, longer text kept whole. */
  function Pad(s: string): (cell: string)
    ensures |cell| == if |s| < WIDTH then WIDTH else |s|
    ensures cell[..|s|] == s
    ensures forall i :: |s| <= i < |cell| ==> cell[i] == ' '
  {
    if |s| < WIDTH then s + Spaces(WIDTH - |s|) else s
  }

  function Cell(n: nat): string
  {
    Pad(Decimal(n))
  }

  /** A cell is followed by at least one space exactly when its value has at
      most eight digits: from 10^8 on, the digits of the next cell, or the
      file name, follow with nothing in between. */
  lemma CellEndsWithSpace(n: nat)
    ensures var cell := Cell(n); cell[|cell| - 1] == ' ' <==> n < 100_000_000
  {
    DecimalLength(n, 8);
    Pow10Eight();
    var d := Decimal(n);
    assert |d| >= WIDTH ==> Cell(n)[|Cell(n)| - 1] == d[|d| - 1];
  }

  /** The cells of a row, side by side. */
  function Cells(values: seq<nat>): string
  {
    if values == [] then "" else Cells(values[..|values| - 1]) + Cell(values[|values| - 1])
  }

  /** A row grows by its last cell. */
  lemma CellsSnoc(values: seq<nat>, v: nat)
    ensures Cells(values + [v]) == Cells(values) + Cell(v)
  {
    assert (values + [v])[..|values|] == values;
  }

  // ---------------------------------------------------------------------
  // Reading a row back

  /** The digits at the front of `s`. */
  function LeadingDigits(s: string): (n: nat)
    ensures n <= |s|
    ensures forall i :: 0 <= i < n ==> IsDigit(s[i])
    ensures n < |s| ==> !IsDigit(s[n])
  {
    if s == [] || !IsDigit(s[0]) then 0 else 1 + LeadingDigits(s[1..])
  }

  /** The numbers of a row of cells, read from the left: runs of digits,
      with the spaces between them skipped. */
  function ReadNumbers(s: string): seq<nat>
    requires forall i :: 0 <= i < |s| ==> IsDigit(s[i]) || s[i] == ' '
    decreases |s|
  {
    if s == [] then []
    else if s[0] == ' ' then ReadNumbers(s[1..])
    else
      var n := LeadingDigits(s);
      [ParseDecimal(s[..n])] + ReadNumbers(s[n..])
  }

  function CellsFrom(values: seq<nat>): string
  {
    if values == [] then "" else Cell(values[0]) + CellsFrom(values[1..])
  }

  lemma {:induction false} CellsFromIsCells(values: seq<nat>)
    ensures CellsFrom(values) == Cells(values)
    decreases |values|
  {
    if values != [] {
      var init := values[..|values| - 1];
      var last := values[|values| - 1];
      CellsFromIsCells(values[1..]);
      if |values| > 1 {
        CellsFromIsCells(init);
        CellsFromIsCells(init[1..]);
        assert values[1..][..|values| - 2] == init[1..];
        assert init[0] == values[0];
      } else {
        assert values == [last];
      }
    }
  }

  lemma {:induction false} CellCharacters(n: nat)
    ensures forall i :: 0 <= i < |Cell(n)| ==> IsDigit(Cell(n)[i]) || Cell(n)[i] == ' '
  {
    var d := Decimal(n);
    assert forall i :: 0 <= i < |d| ==> Cell(n)[i] == d[i];
  }

  lemma {:induction false} CellsFromCharacters(values: seq<nat>)
    ensures forall i :: 0 <= i < |CellsFrom(values)| ==> IsDigit(CellsFrom(values)[i]) || CellsFrom(values)[i] == ' '
    decreases |values|
  {
    if values != [] {
      CellCharacters(values[0]);
      CellsFromCharacters(values[1..]);
    }
  }

  /** Spaces in front of a row are skipped. */
  lemma {:induction false} ReadNumbersSkipsSpaces(k: nat, rest: string)
    requires forall i :: 0 <= i < |rest| ==> IsDigit(rest[i]) || rest[i] == ' '
    ensures forall i :: 0 <= i < |Spaces(k) + rest| ==> IsDigit((Spaces(k) + rest)[i]) || (Spaces(k) + rest)[i] == ' '
    ensures ReadNumbers(Spaces(k) + rest) == ReadNumbers(rest)
    decreases k
  {
    if k > 0 {
      assert (Spaces(k) + rest)[1..] == Spaces(k - 1) + rest;
      ReadNumbersSkipsSpaces(k - 1, rest);
    } else {
      assert Spaces(k) + rest == rest;
    }
  }

  /** One cell of a value below 10^8, then the rest of the row. */
  lemma ReadNumbersCell(n: nat, rest: string)
    requires n < 100_000_000
    requires forall i :: 0 <= i < |rest| ==> IsDigit(rest[i]) || rest[i] == ' '
    ensures forall i :: 0 <= i < |Cell(n) + rest| ==> IsDigit((Cell(n) + rest)[i]) || (Cell(n) + rest)[i] == ' '
    ensures ReadNumbers(Cell(n) + rest) == [n] + ReadNumbers(rest)
  {
    var d := Decimal(n);
    DecimalLength(n, 8);
    Pow10Eight();
    var pad := WIDTH - |d|;
    assert Cell(n) == d + Spaces(pad);
    var s := d + (Spaces(pad) + rest);
    assert Cell(n) + rest == s;
    ReadNumbersSkipsSpaces(pad, rest);
    CellCharacters(n);
    LeadingDigitsOfNumber(d, Spaces(pad) + rest);
    assert s[..|d|] == d && s[|d|..] == Spaces(pad) + rest;
    DecimalRoundTrip(n);
  }

  lemma {:induction false} LeadingDigitsOfNumber(d: string, rest: string)
    requires forall i :: 0 <= i < |d| ==> IsDigit(d[i])
    requires rest != [] && !IsDigit(rest[0])
    ensures LeadingDigits(d + rest) == |d|
    decreases |d|
  {
    if d != [] {
      assert (d + rest)[1..] == d[1..] + rest;
      LeadingDigitsOfNumber(d[1..], rest);
    } else {
      assert d + rest == rest;
    }
  }

  /** A row of cells whose values are all below 10^8 reads back as those
      values: the columns stay apart. */
  lemma {:induction false} CellsReadBack(values: seq<nat>)
    requires forall i :: 0 <= i < |values| ==> values[i] < 100_000_000
    ensures forall i :: 0 <= i < |Cells(values)| ==> IsDigit(Cells(values)[i]) || Cells(values)[i] == ' '
    ensures ReadNumbers(Cells(values)) == values
    decreases |values|
  {
    CellsFromIsCells(values);
    CellsFromCharacters(values);
    if values != [] {
      CellsReadBack(values[1..]);
      CellsFromIsCells(values[1..]);
      ReadNumbersCell(values[0], CellsFrom(values[1..]));
    }
  }

  /** From 10^8 on, a cell is its digits alone, so the next value follows
      with nothing in between and the two read back as a single number. */
  lemma {:induction false} LongValueRunsIntoTheNext(a: nat, b: nat)
    requires a >= 100_000_000
    ensures Cells([a, b]) == Decimal(a) + Cell(b)
    ensures forall i :: 0 <= i < |Cells([a, b])| ==> IsDigit(Cells([a, b])[i]) || Cells([a, b])[i] == ' '
    ensures |ReadNumbers(Cells([a, b]))| == 1
  {
    DecimalLength(a, 8);
    Pow10Eight();
    assert Cell(a) == Decimal(a);
    CellsSnoc([], a);
    assert [] + [a] == [a];
    CellsSnoc([a], b);
    assert [a] + [b] == [a, b];
    var db := Decimal(b);
    var pad := |Cell(b)| - |db|;
    assert Cell(b) == db + Spaces(pad);
    assert Cells([a, b]) == (Decimal(a) + db) + Spaces(pad);
    DigitsThenSpacesReadAsOne(Decimal(a) + db, pad);
  }

  /** Digits followed only by spaces read as one number. */
  lemma DigitsThenSpacesReadAsOne(d: string, k: nat)
    requires d != [] && forall i :: 0 <= i < |d| ==> IsDigit(d[i])
    ensures forall i :: 0 <= i < |d + Spaces(k)| ==> IsDigit((d + Spaces(k))[i]) || (d + Spaces(k))[i] == ' '
    ensures |ReadNumbers(d + Spaces(k))| == 1
  {
    var s := d + Spaces(k);
    if k == 0 {
      assert s == d;
      AllDigitsReadAsOne(d);
    } else {
      LeadingDigitsOfNumber(d, Spaces(k));
      assert s[|d|..] == Spaces(k) + [];
      ReadNumbersSkipsSpaces(k, []);
    }
  }

  lemma {:induction false} AllDigitsReadAsOne(s: string)
    requires s != [] && forall i :: 0 <= i < |s| ==> IsDigit(s[i])
    ensures LeadingDigits(s) == |s|
    ensures |ReadNumbers(s)| == 1
    decreases |s|
  {
    if |s| > 1 {
      AllDigitsReadAsOne(s[1..]);
    }
    assert s[|s|..] == [];
  }
}
