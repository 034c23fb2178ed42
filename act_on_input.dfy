/** `ActOnInputOptionsProcessingAsAService`: which metrics a run counts and
    in what order, one row of counts per file, the text of a row, and the
    column totals printed when more than one location was given. */
module ActOnInput {
  import opened Io
  import opened Seqs
  import Utils
  import Format
  import opened ParseTheInput
  import StreamCounter
  import FromPipeline
  import FromFd

  // ---------------------------------------------------------------------
  // Options

  /** The options in the order they are registered: lines, words, chars,
      bytes, help. */
  const REGISTERED: seq<string> := ["lines", "words", "chars", "bytes", "help"]

  /** Position of a name among the registered options. */
  function Rank(name: string): nat
  {
    if name == "lines" then 0 else if name == "words" then 1 else if name == "chars" then 2
    else if name == "bytes" then 3 else 4
  }

  /** `extractTypeOfTasksAndLocationsFromInput`: the long names of the
      options present on the command line, collected by walking the
      registered options, so the list follows the registration order, not
      the order of the command line, and holds each name once. */
  method ExtractOptions(present: set<string>) returns (options: seq<string>)
    ensures forall name :: name in options <==> name in present && name in REGISTERED
    ensures forall i, j :: 0 <= i < j < |options| ==> Rank(options[i]) < Rank(options[j])
  {
    options := [];
    for k := 0 to |REGISTERED|
      invariant forall name :: name in options <==> name in present && name in REGISTERED[..k]
      invariant forall i :: 0 <= i < |options| ==> options[i] in REGISTERED[..k]
      invariant forall i, j :: 0 <= i < j < |options| ==> Rank(options[i]) < Rank(options[j])
    {
      assert forall i :: 0 <= i < |REGISTERED| ==> Rank(REGISTERED[i]) == i;
      assert REGISTERED[..k + 1] == REGISTERED[..k] + [REGISTERED[k]];
      if REGISTERED[k] in present {
        options := options + [REGISTERED[k]];
      }
    }
    assert REGISTERED[..|REGISTERED|] == REGISTERED;
  }

  // ---------------------------------------------------------------------
  // One file

  datatype Metric = Lines | Words | Chars | Bytes | Help

  /** The `switch` of `executeTasks`; any other name prints the help page. */
  function MetricOf(name: string): Metric
  {
    if name == "lines" then Lines else if name == "words" then Words
    else if name == "chars" then Chars else if name == "bytes" then Bytes else Help
  }

  /** The columns of a row: lines, words and bytes when no option is given,
      otherwise one per option in the order of the list. */
  function Plan(options: seq<string>): (plan: seq<Metric>)
    ensures |plan| == if options == [] then 3 else |options|
    ensures options == [] ==> plan == [Lines, Words, Bytes]
    ensures options != [] ==> forall i :: 0 <= i < |plan| ==> plan[i] == MetricOf(options[i])
  {
    if options == [] then [Lines, Words, Bytes] else seq(|options|, i requires 0 <= i < |options| => MetricOf(options[i]))
  }

  /** What the classifier may answer on `file`, for some cut of its read. */
  ghost predicate Classifies(file: Source, binary: bool)
  {
    exists inspected :: Utils.FirstRead(file, inspected) && binary == Utils.HasDisqualifyingByte(inspected)
  }

  /** What one column gives: the tally of its counter, or the help page,
      which `printHelp` prints before ending the process with status 0. */
  datatype Column = Tallied(tally: Tally) | HelpPage

  /** The counter behind one column; `binary` is what the classifier said,
      used by the character count only. */
  function MetricColumn(m: Metric, input: Input, binary: bool): Column
  {
    match m
    case Lines => Tallied(LinesOf(input))
    case Words => Tallied(WordsOf(input))
    case Chars => Tallied(CharsOf(input, binary))
    case Bytes => Tallied(BytesOf(input.raw))
    case Help => HelpPage
  }

  predicate Counted(column: Column) { column.Tallied? && column.tally.Count? }

  /** A row of counts, or the end of the process: through a counter's
      `System.exit`, or after the help page. */
  datatype RowResult = Row(values: seq<int>) | Halt(code: int) | ShowsHelp

  /** The joined futures: the counts in column order, unless a column ended
      the process; the first such column in order decides how. */
  function Settle(columns: seq<Column>): (r: RowResult)
    ensures r.Row? ==> |r.values| == |columns| && forall i :: 0 <= i < |columns| ==> columns[i] == Tallied(Count(r.values[i]))
    ensures r.Row? <==> forall i :: 0 <= i < |columns| ==> Counted(columns[i])
  {
    if columns == [] then Row([])
    else if columns[0].HelpPage? then ShowsHelp
    else if columns[0].tally.Exit? then Halt(columns[0].tally.code)
    else
      match Settle(columns[1..])
      case Row(values) => Row([columns[0].tally.value] + values)
      case other => other
  }

  function RowOf(plan: seq<Metric>, input: Input, classified: seq<bool>): RowResult
    requires |classified| == |plan|
  {
    Settle(seq(|plan|, i requires 0 <= i < |plan| => MetricColumn(plan[i], input, classified[i])))
  }

  /** `executeTasks`: one counter per column, run one after the other (the
      futures are independent); `classified[i]` is the classifier's answer
      for a character column. */
  method ExecuteTasks(options: seq<string>, input: Input) returns (row: RowResult, ghost classified: seq<bool>)
    ensures |classified| == |Plan(options)|
    ensures forall i :: 0 <= i < |classified| && Plan(options)[i] == Chars ==> Classifies(input.raw, classified[i])
    ensures row == RowOf(Plan(options), input, classified)
  {
    var plan := Plan(options);
    var columns: seq<Column> := [];
    classified := [];
    for i := 0 to |plan|
      invariant |columns| == i && |classified| == i
      invariant forall k :: 0 <= k < i ==> columns[k] == MetricColumn(plan[k], input, classified[k])
      invariant forall k :: 0 <= k < i && plan[k] == Chars ==> Classifies(input.raw, classified[k])
    {
      var column: Column;
      ghost var binary := false;
      match plan[i] {
        case Lines =>
          var t := CountLines(input);
          column := Tallied(t);
        case Words =>
          var t := CountWords(input);
          column := Tallied(t);
        case Chars =>
          var t;
          ghost var inspected;
          t, inspected := CountChars(input);
          binary := Utils.HasDisqualifyingByte(inspected);
          column := Tallied(t);
        case Bytes =>
          var t := CountBytes(input.raw);
          column := Tallied(t);
        case Help =>
          column := HelpPage;
      }
      columns := columns + [column];
      classified := classified + [binary];
    }
    assert columns == seq(|plan|, i requires 0 <= i < |plan| => MetricColumn(plan[i], input, classified[i]));
    row := Settle(columns);
  }

  /** A row has one value per column, so `nCol` in the total is its length;
      and every way a row can end the process ends it with status 0, so it
      does not matter which counter gets there first. */
  lemma RowShape(options: seq<string>, input: Input, classified: seq<bool>)
    requires |classified| == |Plan(options)|
    ensures var r := RowOf(Plan(options), input, classified);
            && (r.Row? ==> |r.values| == (if options == [] then 3 else |options|))
            && (r.Halt? ==> r.code == 0)
  {
    var plan := Plan(options);
    var columns := seq(|plan|, i requires 0 <= i < |plan| => MetricColumn(plan[i], input, classified[i]));
    assert forall i :: 0 <= i < |columns| && columns[i].Tallied? && columns[i].tally.Exit? ==> columns[i].tally.code == 0;
    SettleHaltCode(columns);
  }

  lemma {:induction false} SettleHaltCode(columns: seq<Column>)
    requires forall i :: 0 <= i < |columns| && columns[i].Tallied? && columns[i].tally.Exit? ==> columns[i].tally.code == 0
    ensures Settle(columns).Halt? ==> Settle(columns).code == 0
    decreases |columns|
  {
    if columns != [] && Counted(columns[0]) {
      SettleHaltCode(columns[1..]);
    }
  }

  /** With `help` among the options no row of counts comes out of a file:
      the help page is printed, unless a counter before it ended the process
      first. */
  lemma HelpOptionGivesNoRow(options: seq<string>, input: Input, classified: seq<bool>)
    requires "help" in options && |classified| == |Plan(options)|
    ensures RowOf(Plan(options), input, classified).ShowsHelp? || RowOf(Plan(options), input, classified) == Halt(0)
  {
    var plan := Plan(options);
    var k :| 0 <= k < |options| && options[k] == "help";
    var columns := seq(|plan|, i requires 0 <= i < |plan| => MetricColumn(plan[i], input, classified[i]));
    assert !Counted(columns[k]);
    RowShape(options, input, classified);
  }

  // ---------------------------------------------------------------------
  // Printing a row

  /** The values `printf` is called on: those that are not negative. */
  function Printed(values: seq<int>): (shown: seq<nat>)
    ensures |shown| <= |values|
    ensures forall v :: v in shown ==> v in values
    ensures (forall i :: 0 <= i < |values| ==> values[i] >= 0) ==> shown == values
  {
    if values == [] then []
    else
      var last := values[|values| - 1];
      Printed(values[..|values| - 1]) + (if last >= 0 then [last as nat] else [])
  }

  lemma PrintedSnoc(values: seq<int>, v: int)
    ensures Printed(values + [v]) == Printed(values) + (if v >= 0 then [v as nat] else [])
    ensures Format.Cells(Printed(values + [v])) == Format.Cells(Printed(values)) + (if v >= 0 then Format.Cell(v) else "")
  {
    assert (values + [v])[..|values|] == values;
    if v >= 0 {
      Format.CellsSnoc(Printed(values), v);
    } else {
      assert Printed(values) + [] == Printed(values);
    }
  }

  /** The text of `constructOutputToPrint`: a cell per value that is not
      negative, then the file name and a line break, or only the line break
      for standard input. */
  function RowLine(values: seq<int>, fileName: Option<string>): string
  {
    Format.Cells(Printed(values)) + (if fileName.Some? then fileName.value + "\n" else "\n")
  }

  method ConstructOutputToPrint(results: seq<int>, fileToPrint: Option<string>) returns (text: string)
    ensures text == RowLine(results, fileToPrint)
  {
    text := "";
    for i := 0 to |results|
      invariant text == Format.Cells(Printed(results[..i]))
    {
      assert results[..i + 1] == results[..i] + [results[i]];
      PrintedSnoc(results[..i], results[i]);
      if results[i] >= 0 {
        text := text + Format.Cell(results[i]);
      }
    }
    assert results[..|results|] == results;
    if fileToPrint.Some? {
      text := text + fileToPrint.value + "\n";
    } else {
      text := text + "\n";
    }
  }

  /** Below 10^8 a printed row reads back as its values that are not
      negative, in order: a -1 sentinel leaves no trace in the text. */
  lemma RowLineReadsBack(values: seq<int>, fileName: Option<string>)
    requires forall i :: 0 <= i < |values| ==> values[i] < 100_000_000
    ensures var cells := Format.Cells(Printed(values));
            && RowLine(values, fileName) == cells + (if fileName.Some? then fileName.value + "\n" else "\n")
            && (forall i :: 0 <= i < |cells| ==> Format.IsDigit(cells[i]) || cells[i] == ' ')
            && Format.ReadNumbers(cells) == Printed(values)
  {
    var shown := Printed(values);
    assert forall i :: 0 <= i < |shown| ==> shown[i] in values;
    Format.CellsReadBack(shown);
  }

  // ---------------------------------------------------------------------
  // Totals

  predicate WideEnough(rows: seq<seq<int>>, nCol: nat)
  {
    forall j :: 0 <= j < |rows| ==> nCol <= |rows[j]|
  }

  /** The sum of column `i` over the rows, sentinels included. */
  function ColumnSum(rows: seq<seq<int>>, i: nat): int
    requires forall j :: 0 <= j < |rows| ==> i < |rows[j]|
  {
    if rows == [] then 0 else ColumnSum(rows[..|rows| - 1], i) + rows[|rows| - 1][i]
  }

  /** The total row: the first row with each of its first `nCol` columns
      replaced by the column's sum over all rows. */
  function Total(rows: seq<seq<int>>, nCol: nat): (total: seq<int>)
    requires rows != [] && WideEnough(rows, nCol)
    ensures |total| == |rows[0]|
  {
    seq(|rows[0]|, i requires 0 <= i < |rows[0]| => if i < nCol then ColumnSum(rows, i) else rows[0][i])
  }

  /** The text of the total row: a cell per total that is not negative, and
      the "total" label with a line break only if at least one was printed. */
  function TotalLine(total: seq<int>): string
  {
    Format.Cells(Printed(total)) + (if Printed(total) != [] then Format.Pad("total") + "\n" else "")
  }

  /** Nothing of a row is printed exactly when every value in it is a
      sentinel. */
  lemma {:induction false} PrintedEmpty(values: seq<int>)
    ensures Printed(values) == [] <==> forall i :: 0 <= i < |values| ==> values[i] < 0
  {
    if values != [] {
      var init := values[..|values| - 1];
      PrintedEmpty(init);
      assert forall i :: 0 <= i < |init| ==> init[i] == values[i];
    }
  }

  /** The "total" label follows the totals exactly when at least one total
      is not negative. */
  lemma TotalLabelShown(total: seq<int>)
    ensures (exists i :: 0 <= i < |total| && total[i] >= 0) ==>
              TotalLine(total) == Format.Cells(Printed(total)) + Format.Pad("total") + "\n"
    ensures (forall i :: 0 <= i < |total| ==> total[i] < 0) ==> TotalLine(total) == ""
  {
    PrintedEmpty(total);
  }

  /** A path given twice is one row, yet two locations: the total row then
      repeats that row. */
  lemma TotalOfOneRow(row: seq<int>, nCol: nat)
    requires nCol <= |row|
    ensures WideEnough([row], nCol) && Total([row], nCol) == row
  {
    forall i | 0 <= i < nCol
      ensures ColumnSum([row], i) == row[i]
    {
      assert [row][..0] == [];
    }
  }

  /** How a run ends: with its standard output, through `System.exit` after
      what it printed so far, or with the help page and status 0. */
  datatype Outcome = Finished(output: string) | Exited(code: int, output: string) | HelpPrinted

  lemma ColumnSumSnoc(rows: seq<seq<int>>, row: seq<int>, i: nat)
    requires forall j :: 0 <= j < |rows| ==> i < |rows[j]|
    requires i < |row|
    ensures ColumnSum(rows + [row], i) == ColumnSum(rows, i) + row[i]
  {
    assert (rows + [row])[..|rows|] == rows;
  }

  /** `calculateTotalIfMultipleFilesAndPrint`: no row ends the process with
      status 1; otherwise a copy of the first row accumulates the others
      column by column and is printed. */
  method CalculateTotalIfMultipleFilesAndPrint(givenValuesFromCounter: seq<seq<int>>, nCol: nat) returns (outcome: Outcome)
    requires WideEnough(givenValuesFromCounter, nCol)
    ensures givenValuesFromCounter == [] ==> outcome == Exited(1, "")
    ensures givenValuesFromCounter != [] ==> outcome == Finished(TotalLine(Total(givenValuesFromCounter, nCol)))
  {
    var rows := givenValuesFromCounter;
    if |rows| == 0 {
      return Exited(1, "");
    }
    var calcTotal := rows[0];
    assert rows[..1] == [] + [rows[0]];
    for j := 1 to |rows|
      invariant |calcTotal| == |rows[0]|
      invariant forall i :: 0 <= i < |calcTotal| ==> calcTotal[i] == if i < nCol then ColumnSum(rows[..j], i) else rows[0][i]
    {
      assert rows[..j + 1] == rows[..j] + [rows[j]];
      ghost var before := calcTotal;
      for i := 0 to nCol
        invariant |calcTotal| == |rows[0]|
        invariant forall k :: 0 <= k < |calcTotal| ==> calcTotal[k] == if k < i then before[k] + rows[j][k] else before[k]
      {
        calcTotal := calcTotal[i := rows[j][i] + calcTotal[i]];
      }
      forall k | 0 <= k < nCol
        ensures calcTotal[k] == ColumnSum(rows[..j + 1], k)
      {
        ColumnSumSnoc(rows[..j], rows[j], k);
      }
    }
    assert rows[..|rows|] == rows;
    assert calcTotal == Total(rows, nCol);
    var text := PrintTotal(calcTotal);
    return Finished(text);
  }

  /** The printing loop of the total row. */
  method PrintTotal(calcTotal: seq<int>) returns (text: string)
    ensures text == TotalLine(calcTotal)
  {
    text := "";
    var toPrintTotalTag := false;
    for i := 0 to |calcTotal|
      invariant text == Format.Cells(Printed(calcTotal[..i]))
      invariant toPrintTotalTag <==> Printed(calcTotal[..i]) != []
    {
      assert calcTotal[..i + 1] == calcTotal[..i] + [calcTotal[i]];
      PrintedSnoc(calcTotal[..i], calcTotal[i]);
      if calcTotal[i] >= 0 {
        toPrintTotalTag := true;
        text := text + Format.Cell(calcTotal[i]);
      }
    }
    assert calcTotal[..|calcTotal|] == calcTotal;
    if toPrintTotalTag {
      text := text + Format.Pad("total") + "\n";
    }
  }

  /** A -1 sentinel is added like any count: the total of a column where one
      file could not be read is one less than the sum of the others, and is
      printed as such. */
  lemma SentinelIsSummed(rows: seq<seq<int>>, i: nat)
    requires forall j :: 0 <= j < |rows| ==> i < |rows[j]|
    requires rows != [] && rows[|rows| - 1][i] == -1
    ensures ColumnSum(rows, i) == ColumnSum(rows[..|rows| - 1], i) - 1
  {
  }

  /** Removing one row from anywhere takes its value out of the sum. */
  lemma {:induction false} ColumnSumRemove(rows: seq<seq<int>>, k: nat, i: nat)
    requires k < |rows| && forall j :: 0 <= j < |rows| ==> i < |rows[j]|
    ensures ColumnSum(rows, i) == ColumnSum(rows[..k] + rows[k + 1..], i) + rows[k][i]
    decreases |rows|
  {
    var n := |rows|;
    if k == n - 1 {
      assert rows[..k] + rows[k + 1..] == rows[..n - 1];
    } else {
      var init, last := rows[..n - 1], rows[n - 1];
      var rest := init[..k] + init[k + 1..];
      assert rows[..k] + rows[k + 1..] == rest + [last];
      assert forall j :: 0 <= j < |rest| ==> rest[j] in rows;
      ColumnSumRemove(init, k, i);
      ColumnSumSnoc(rest, last, i);
    }
  }

  /** Rows that are a permutation of each other have the same widths. */
  lemma PermutationHasColumn(rows: seq<seq<int>>, others: seq<seq<int>>, i: nat)
    requires multiset(rows) == multiset(others)
    requires forall j :: 0 <= j < |rows| ==> i < |rows[j]|
    ensures forall j :: 0 <= j < |others| ==> i < |others[j]|
  {
    forall j | 0 <= j < |others|
      ensures i < |others[j]|
    {
      assert others[j] in multiset(rows);
    }
  }

  /** The totals do not depend on the order of the rows, which is the
      iteration order of a hash map: any permutation gives the same sums. */
  lemma {:induction false} ColumnSumPermutation(rows: seq<seq<int>>, others: seq<seq<int>>, i: nat)
    requires multiset(rows) == multiset(others)
    requires forall j :: 0 <= j < |rows| ==> i < |rows[j]|
    ensures forall j :: 0 <= j < |others| ==> i < |others[j]|
    ensures ColumnSum(rows, i) == ColumnSum(others, i)
    decreases |rows|
  {
    PermutationHasColumn(rows, others, i);
    if rows != [] {
      var k := PermutationStep(rows, others);
      var init := rows[..|rows| - 1];
      assert forall j :: 0 <= j < |init| ==> init[j] == rows[j];
      ColumnSumPermutation(init, others[..k] + others[k + 1..], i);
      ColumnSumRemove(others, k, i);
    }
  }

  lemma TotalPermutation(rows: seq<seq<int>>, others: seq<seq<int>>, nCol: nat)
    requires multiset(rows) == multiset(others) && rows != [] && WideEnough(rows, nCol)
    ensures others != [] && WideEnough(others, nCol)
    ensures forall i :: 0 <= i < nCol ==> Total(rows, nCol)[i] == Total(others, nCol)[i]
  {
    assert |multiset(others)| == |others| && |multiset(rows)| == |rows|;
    if nCol > 0 {
      ColumnSumPermutation(rows, others, nCol - 1);
    }
    forall i | 0 <= i < nCol
      ensures Total(rows, nCol)[i] == Total(others, nCol)[i]
    {
      ColumnSumPermutation(rows, others, i);
    }
  }

  // ---------------------------------------------------------------------
  // A run

  /** The rows of the files in the order the result map is walked. */
  ghost predicate Enumerates(order: seq<string>, files: map<string, Input>)
  {
    && (forall i, j :: 0 <= i < j < |order| ==> order[i] != order[j])
    && (forall name :: name in order <==> name in files)
  }

  /** `classified` is a possible set of classifier answers for the columns
      of a file. */
  ghost predicate Answers(options: seq<string>, file: Source, classified: seq<bool>)
  {
    && |classified| == |Plan(options)|
    && forall i :: 0 <= i < |classified| && Plan(options)[i] == Chars ==> Classifies(file, classified[i])
  }

  /** Every file so far has a possible set of classifier answers:
      `classified[k]` for file `order[k]`. */
  ghost predicate AllAnswers(options: seq<string>, files: map<string, Input>, order: seq<string>, classified: seq<seq<bool>>)
    requires |classified| <= |order| && forall name :: name in order ==> name in files
  {
    forall k :: 0 <= k < |classified| ==> Answers(options, files[order[k]].raw, classified[k])
  }

  lemma AnswersExtend(options: seq<string>, files: map<string, Input>, order: seq<string>,
                      classified: seq<seq<bool>>, c: seq<bool>)
    requires |classified| < |order| && forall name :: name in order ==> name in files
    requires AllAnswers(options, files, order, classified)
    requires Answers(options, files[order[|classified|]].raw, c)
    ensures AllAnswers(options, files, order, classified + [c])
  {
    var classified' := classified + [c];
    forall k | 0 <= k < |classified'|
      ensures Answers(options, files[order[k]].raw, classified'[k])
    {
      if k < |classified| {
        assert classified'[k] == classified[k];
      }
    }
  }

  /** What the counters give for the first `|classified|` files of `order`,
      one result per file. */
  ghost function FileRows(options: seq<string>, files: map<string, Input>, order: seq<string>,
                          classified: seq<seq<bool>>): (results: seq<RowResult>)
    requires |classified| <= |order| && forall name :: name in order ==> name in files
    requires AllAnswers(options, files, order, classified)
    ensures |results| == |classified|
    decreases |classified|
  {
    if classified == [] then []
    else
      var k := |classified| - 1;
      FileRows(options, files, order, classified[..k]) + [RowOf(Plan(options), files[order[k]], classified[k])]
  }

  lemma FileRowsSnoc(options: seq<string>, files: map<string, Input>, order: seq<string>,
                     classified: seq<seq<bool>>, c: seq<bool>)
    requires |classified| < |order| && forall name :: name in order ==> name in files
    requires AllAnswers(options, files, order, classified + [c])
    ensures AllAnswers(options, files, order, classified)
    ensures FileRows(options, files, order, classified + [c])
         == FileRows(options, files, order, classified) + [RowOf(Plan(options), files[order[|classified|]], c)]
  {
    assert (classified + [c])[..|classified|] == classified;
  }

  /** The counters of the next file in `order`. */
  method CountNextFile(options: seq<string>, files: map<string, Input>, order: seq<string>, k: nat,
                       ghost classified: seq<seq<bool>>)
      returns (row: RowResult, ghost c: seq<bool>)
    requires k == |classified| < |order| && forall name :: name in order ==> name in files
    requires AllAnswers(options, files, order, classified)
    ensures AllAnswers(options, files, order, classified + [c])
    ensures FileRows(options, files, order, classified + [c]) == FileRows(options, files, order, classified) + [row]
    ensures row.Row? ==> |row.values| == |Plan(options)|
    ensures row.Halt? ==> row.code == 0
  {
    row, c := ExecuteTasks(options, files[order[k]]);
    RowShape(options, files[order[k]], c);
    AnswersExtend(options, files, order, classified, c);
    FileRowsSnoc(options, files, order, classified, c);
  }

  /** The futures of all files, joined in `order`: the rows, or how the
      first file whose columns ended the process ended it, with the rows
      before it.  `FileRows` gives what each file's counters produced. */
  method CountFiles(options: seq<string>, files: map<string, Input>, order: seq<string>)
      returns (stop: Option<RowResult>, rows: seq<seq<int>>, ghost classified: seq<seq<bool>>, ghost results: seq<RowResult>)
    requires forall name :: name in order ==> name in files
    ensures |rows| <= |classified| <= |order|
    ensures AllAnswers(options, files, order, classified) && results == FileRows(options, files, order, classified)
    ensures forall k :: 0 <= k < |rows| ==> results[k] == Row(rows[k]) && |rows[k]| == |Plan(options)|
    ensures stop.None? ==> |rows| == |classified| == |order|
    ensures stop.Some? ==> |classified| == |rows| + 1 && results[|rows|] == stop.value
    ensures stop.Some? ==> stop.value == Halt(0) || stop.value == ShowsHelp
  {
    rows, classified, results := [], [], [];
    for k := 0 to |order|
      invariant |rows| == |classified| == k
      invariant AllAnswers(options, files, order, classified)
      invariant results == FileRows(options, files, order, classified)
      invariant forall j :: 0 <= j < k ==> results[j] == Row(rows[j]) && |rows[j]| == |Plan(options)|
    {
      var row, c := CountNextFile(options, files, order, k, classified);
      classified, results := classified + [c], results + [row];
      if !row.Row? {
        return Some(row), rows, classified, results;
      }
      rows := rows + [row.values];
    }
    stop := None;
  }

  /** The rows printed one after the other, each with its file name. */
  method PrintRows(rows: seq<seq<int>>, names: seq<string>) returns (output: string)
    requires |rows| == |names|
    ensures output == RowLines(rows, names)
  {
    output := "";
    for k := 0 to |rows|
      invariant output == RowLines(rows[..k], names[..k])
    {
      var line := ConstructOutputToPrint(rows[k], Some(names[k]));
      assert rows[..k + 1][..k] == rows[..k] && names[..k + 1][..k] == names[..k];
      output := output + line;
    }
    assert rows[..|rows|] == rows && names[..|names|] == names;
  }

  /** `runTasksFromInput` with locations: `files` are the readable files
      keyed by path (a path given twice is one entry), `order` is the order
      in which the result map hands them back, and `locations` is the number
      of location arguments.  Nothing is printed before every file has been
      counted, so a counter that ends the process (status 0) or the help page
      comes before any row.  A total follows the rows only for more than
      one location, and with no readable file at all it ends the process
      with status 1. */
  method RunFiles(options: seq<string>, files: map<string, Input>, order: seq<string>, locations: nat)
      returns (outcome: Outcome, ghost rows: seq<seq<int>>, ghost classified: seq<seq<bool>>, ghost results: seq<RowResult>)
    requires Enumerates(order, files)
    ensures |rows| <= |classified| <= |order|
    ensures AllAnswers(options, files, order, classified) && results == FileRows(options, files, order, classified)
    ensures forall k :: 0 <= k < |rows| ==> results[k] == Row(rows[k]) && |rows[k]| == |Plan(options)|
    ensures outcome.Finished? ==>
              && |rows| == |order|
              && (locations <= 1 ==> outcome.output == RowLines(rows, order))
              && (locations > 1 ==> rows != [] && outcome.output == RowLines(rows, order) + TotalLine(Total(rows, |Plan(options)|)))
    ensures outcome.Exited? ==> outcome.output == "" && (outcome.code == 0 || outcome.code == 1)
    ensures outcome.Exited? && outcome.code == 0 ==> |classified| == |rows| + 1 && results[|rows|] == Halt(0)
    ensures outcome.HelpPrinted? ==> |classified| == |rows| + 1 && results[|rows|] == ShowsHelp
    ensures outcome.Exited? && outcome.code == 1 ==> locations > 1 && order == []
  {
    var stop, counted;
    stop, counted, classified, results := CountFiles(options, files, order);
    rows := counted;
    if stop.Some? {
      if stop.value.ShowsHelp? {
        return HelpPrinted, rows, classified, results;
      }
      return Exited(stop.value.code, ""), rows, classified, results;
    }
    var output := PrintRows(counted, order);
    if locations > 1 {
      var nCol := if options == [] then 3 else |options|;
      var total := CalculateTotalIfMultipleFilesAndPrint(counted, nCol);
      if total.Exited? {
        return Exited(total.code, output), rows, classified, results;
      }
      output := output + total.output;
    }
    return Finished(output), rows, classified, results;
  }

  /** The printed rows, one line per file. */
  function RowLines(rows: seq<seq<int>>, names: seq<string>): string
    requires |rows| == |names|
  {
    if rows == [] then ""
    else RowLines(rows[..|rows| - 1], names[..|names| - 1]) + RowLine(rows[|rows| - 1], Some(names[|names| - 1]))
  }

  /** Which of the two stream services does the counting. */
  datatype StreamService = PipelineService | FdService

  /** `runTasksFromInput` without locations: `help` among the options prints
      the help page and ends with status 0; an input that is not ready
      (`ready` is what the readiness check answered, `false` also standing
      for its `IOException`) ends the process with status 0 and nothing on
      standard output; otherwise the stream counter's list is printed as
      one row without a name. */
  method RunStdin(options: seq<string>, input: Input, ready: bool, service: StreamService,
                  isWhitespace: CodeUnit -> bool) returns (outcome: Outcome)
    ensures "help" in options ==> outcome == HelpPrinted
    ensures "help" !in options && !ready ==> outcome == Exited(0, "")
    ensures "help" !in options && ready ==>
              var flags := if service.PipelineService? then FromPipeline.PipelineFlags(options) else FromFd.FdFlags(options);
              outcome == Finished(RowLine(StreamCounter.ListOrEmpty(StreamCounter.CountingResult(input, flags, isWhitespace)), None))
  {
    if "help" in options {
      return HelpPrinted;
    }
    if !ready {
      return Exited(0, "");
    }
    var r;
    if service.PipelineService? {
      r := FromPipeline.ExecTheTasksWithCounting(options, input, isWhitespace);
    } else {
      r := FromFd.ExecTheTasksWithCounting(options, input, isWhitespace);
    }
    var text := ConstructOutputToPrint(r, None);
    return Finished(text);
  }
}
