# wordtally — a verified model of the counting core

`wordtally` is a `wc`-like command-line tool written in Java. It counts the
lines, words, characters and bytes of one or more files, or of standard
input, and prints one row of counts per file. When more than one location is
given, it also prints a row of column totals. This project models the core of
that tool in Dafny and proves properties of the model:

- **The binary-file classifier** (`Utils.isBinaryFile`), module `Utils`. It
  makes one read of at most 5120 bytes. The file counts as binary as soon as
  one of those bytes is disqualifying, with the test made on Java's signed
  `byte`.
- **The per-file counters** of `ParseTheInput`, module `ParseTheInput`.
  - The text paths go through `Files.lines` and a UTF-8 reader.
  - The raw-byte fallbacks count 0x0A bytes, printable-byte runs, and bytes
    the character heuristic accepts.
  - The byte counter sums the lengths of its reads.
  - A counter gives -1 when the file cannot be read. Some of its error paths
    end the process with status 0 instead.
  - Words over decoded text (the `isWord` scan, `split("\\s")`, the lines of
    `Files.lines`) are in module `Text`.
- **The single-pass stream counter** `countingAndPrinting`, module
  `StreamCounter`. It counts the bytes, rewinds the stream, then walks the
  decoded characters once. It returns the counts in the order lines, words,
  chars, bytes, with every zero dropped.
- **The two stream services**, modules `FromPipeline` and `FromFd`. They turn
  the option names into four flags. The Pipeline service defaults to lines,
  words and bytes when no metric is named. The FD service has no default.
- **The orchestration** of `ActOnInputOptionsProcessingAsAService`, module
  `ActOnInput`:
  - which options are collected, and in what order;
  - which columns a file gets;
  - how a file's column results are joined;
  - the text of a row;
  - the column totals, and when they are printed;
  - what a whole run writes to standard output, or how it ends the process.
- **The `printf("%-9s", …)` cells** and reading a printed row back, module
  `Format`.
- **The environment**, module `Io`. Files and standard input are byte
  sources that may fail from some offset on. A `read(buffer)` may deliver any
  non-empty prefix of what is left. Every counter is proved for every
  possible sequence of read lengths.

Java's `long` counters are unbounded integers. The one `int` counter wraps
explicitly (see Findings). A `System.exit` is an outcome value: a tally
`Exit(code)`, a row result `Halt(code)`, or a run outcome `Exited(code,
output)`.

### Where the code and the tool's written description differ

The model follows the code in each case:

- **Output order.** The rows come out in the iteration order of the result
  hash map, not in the order the paths were given. `RunFiles` takes that
  order as a parameter `order`. The totals do not depend on it
  (`TotalPermutation`).
- **Sentinels in totals.** A -1 sentinel is added into the totals like any
  other count (`SentinelIsSummed`). Only the printing skips negative values.
- **The classifier.** It accepts every byte from 0x09 to 0x0D, so vertical
  tab and form feed are allowed. Because the comparison is signed, it
  classifies every byte of 0x80 or more as binary. UTF-8 text is therefore
  "binary" when a non-ASCII character lies among the bytes of its first read,
  which holds at most 5120 bytes (`NonAsciiTextIsBinary`).
- **The line and word fallbacks.** They are chosen by a decoding failure in
  `Files.lines`, not by the classifier.
- **The text line count.** It counts the lines `Files.lines` yields, not the
  line feeds. A last line without a terminator counts too, and a lone CR ends
  a line.
- **The text character count.** It counts UTF-16 code units, which is what
  `Reader.read()` returns.
- **Words on the text path.** They are split on the regular-expression class
  `\s`, which has only six ASCII separators. Java's `split` drops the empty
  pieces at the end (`JavaSplit`); the filter that follows drops the rest, so
  the count is the same as for a split that keeps every piece
  (`JavaSplit`).
- **The line fallback's counter.** The fallback counts line feeds in an
  `int` (see Findings). The run-level model (`CountLines`, `ExecuteTasks`,
  `RunFiles`) uses the corrected counter `CountNewlineBytes`, which does not
  wrap; `CountNewlineBytesAsWritten` keeps the code as written.

## Model

Source paths are relative to the root of the Java repository.

| member | source | states |
|---|---|---|
| Io.Signed | src/main/java/io/valentinsoare/wordtally/auxiliary/Utils.java:42-44 | Java's view of a byte is in [-128, 128), equals the byte or the byte minus 256, and is negative exactly for bytes of 0x80 or more |
| Utils.Disqualifies | src/main/java/io/valentinsoare/wordtally/auxiliary/Utils.java:44 | the Java test on the signed byte holds exactly for bytes up to 0x08, 0x0E–0x1F, 0x7F, and every byte of 0x80 or more |
| Utils.IsBinaryFile | src/main/java/io/valentinsoare/wordtally/auxiliary/Utils.java:34-73 | the answer is whether the bytes of the single read contain a disqualifying byte; those bytes are a prefix of the file of at most 5120 bytes, empty exactly when the file is empty, cannot be opened, or its first read fails; "binary" implies a disqualifying byte among the first 5120 bytes, "text" implies that a read error or a clean first byte made that possible; no error escapes |
| Utils.OrderIrrelevant | src/main/java/io/valentinsoare/wordtally/auxiliary/Utils.java:41-47 | the classification of a prefix does not depend on the order of its bytes |
| Utils.NonAsciiTextIsBinary | src/main/java/io/valentinsoare/wordtally/auxiliary/Utils.java:42-46 | any inspected byte of 0x80 or more makes the file binary |
| ParseTheInput.CountsAsChar | src/main/java/io/valentinsoare/wordtally/service/ParseTheInput.java:167 | the character heuristic accepts exactly the bytes 0x09–0x7E and 0x80–0xFF |
| ParseTheInput.WordStep | src/main/java/io/valentinsoare/wordtally/service/ParseTheInput.java:233-240 | a printable byte (0x21–0x7E) counts a word only when none is open and opens one; a separator (0x09–0x0D, 0x20) closes it; any other byte leaves the state alone |
| ParseTheInput.ScanBytesAppend | src/main/java/io/valentinsoare/wordtally/service/ParseTheInput.java:224-244 | the word scan over two stretches is the scan of the second resumed from the state after the first (`inWord` survives a buffer refill) |
| ParseTheInput.CountChunksIsCountOfConcat | src/main/java/io/valentinsoare/wordtally/service/ParseTheInput.java:84-95 | counts added up buffer by buffer equal the count over the whole file, whatever the read lengths |
| ParseTheInput.ScanChunksIsScanOfConcat | src/main/java/io/valentinsoare/wordtally/service/ParseTheInput.java:226-244 | the word scan run buffer by buffer equals the scan of the whole file |
| ParseTheInput.SumLengthsIsLengthOfConcat | src/main/java/io/valentinsoare/wordtally/service/ParseTheInput.java:273-275 | the sum of the read lengths is the length of the file |
| ParseTheInput.BinaryCharCountComplement | src/main/java/io/valentinsoare/wordtally/service/ParseTheInput.java:164-169 | every byte is either counted by the character heuristic or is a control below tab or DEL |
| ParseTheInput.BinaryWordCountIsRunStarts | src/main/java/io/valentinsoare/wordtally/service/ParseTheInput.java:230-241 | the byte word scan counts the runs of printable bytes once all bytes it ignores are deleted, and ends inside a word exactly when that filtered sequence ends with a printable byte |
| ParseTheInput.CountInBuffer | src/main/java/io/valentinsoare/wordtally/service/ParseTheInput.java:88-92 | the inner loop counts the bytes of the buffer's filled part that satisfy the test |
| ParseTheInput.ScanInBuffer | src/main/java/io/valentinsoare/wordtally/service/ParseTheInput.java:230-241 | the inner loop of the word fallback is the word scan over the buffer's filled part, resumed from the state it was given |
| ParseTheInput.CountNewlineBytes | src/main/java/io/valentinsoare/wordtally/service/ParseTheInput.java:79-102 | the line fallback, with the evidently intended wide counter: the number of 0x0A bytes of the file, or the end of the process with status 0 on a read error |
| ParseTheInput.ToInt32 | src/main/java/io/valentinsoare/wordtally/service/ParseTheInput.java:81 | a Java `int` lies in [-2^31, 2^31) and keeps every value already in range |
| ParseTheInput.CountNewlinesInBufferAsWritten | src/main/java/io/valentinsoare/wordtally/service/ParseTheInput.java:88-92 | the `int` counter stays in range and differs from the true running count by whole turns of 2^32 |
| ParseTheInput.CountNewlineBytesAsWritten | src/main/java/io/valentinsoare/wordtally/service/ParseTheInput.java:79-102 | the line fallback as written reports the 0x0A count wrapped to 32 bits, or ends the process with status 0 on a read error |
| ParseTheInput.NewlineCountOverflows | src/main/java/io/valentinsoare/wordtally/service/ParseTheInput.java:81-102 | on 2^31 line feeds followed by 0xFF the true count is 2^31 while the `int` counter reports -2^31 |
| ParseTheInput.CountCharBytes | src/main/java/io/valentinsoare/wordtally/service/ParseTheInput.java:158-180 | the binary character branch gives the number of bytes the heuristic accepts, or -1 on any I/O error |
| ParseTheInput.CountWordBytes | src/main/java/io/valentinsoare/wordtally/service/ParseTheInput.java:222-251 | the word fallback gives the byte word scan's count over the file, or ends the process with status 0 on a read error |
| ParseTheInput.CountBytes | src/main/java/io/valentinsoare/wordtally/service/ParseTheInput.java:266-298 | the byte counter gives the length of the file, or -1 when opening or reading fails |
| ParseTheInput.CountDecodedChars | src/main/java/io/valentinsoare/wordtally/service/ParseTheInput.java:143-155 | the text character branch gives the number of decoded code units, or -1 on any I/O error |
| ParseTheInput.CountLines | src/main/java/io/valentinsoare/wordtally/service/ParseTheInput.java:53-106 | the line counter gives the number of lines `Files.lines` yields; for text that is not well-formed it gives the 0x0A count of the fallback; any I/O error ends the process with status 0 |
| ParseTheInput.CountWords | src/main/java/io/valentinsoare/wordtally/service/ParseTheInput.java:192-255 | the word counter gives the `\s`-token count of the lines; for text that is not well-formed it gives the byte word scan; it gives -1 when the file cannot be opened, and a later read error ends the process with status 0 |
| ParseTheInput.CountChars | src/main/java/io/valentinsoare/wordtally/service/ParseTheInput.java:140-181 | the character counter consults the classifier: the byte heuristic exactly when the classifier's read found a disqualifying byte, the decoded code units otherwise |
| ParseTheInput.SentinelMeansUnreadable | src/main/java/io/valentinsoare/wordtally/service/ParseTheInput.java:53-298 | the line count is never negative; the word counter gives -1 exactly when the file cannot be opened, and a file that opens but whose reads fail ends the process with status 0; the character and byte counters give -1 exactly when a read fails; no counter gives a value below -1 |
| ParseTheInput.BinaryCharsAtMostBytes | src/main/java/io/valentinsoare/wordtally/service/ParseTheInput.java:158-175 | on a binary file the character count is the byte count minus the skipped control bytes, so it never exceeds the byte count |
| ParseTheInput.TextWordsAreWordRuns | src/main/java/io/valentinsoare/wordtally/service/ParseTheInput.java:193-196 | on well-formed text the word count is the number of runs of non-`\s` code units, as if the text had not been split into lines |
| ParseTheInput.TextLinesCountAnUnterminatedLastLine | src/main/java/io/valentinsoare/wordtally/service/ParseTheInput.java:54-55 | on well-formed text without CR the line count is the number of line feeds, plus one when the text does not end with a line feed |
| Text.WordStep | src/main/java/io/valentinsoare/wordtally/service/ProcessingTheInputFromPipeline.java:79-90 | a non-whitespace unit counts a word exactly when the previous one was not in a word; after any unit, being in a word means it was not whitespace |
| Text.Split | src/main/java/io/valentinsoare/wordtally/service/ParseTheInput.java:194 | the reference split keeps every piece, empty ones included, so it gives one more piece than there are separators |
| Text.DropTrailingEmpty | src/main/java/io/valentinsoare/wordtally/service/ParseTheInput.java:194 | the pieces kept are a prefix of the pieces, the last kept piece is not empty, and every piece dropped is empty |
| Text.JavaSplit | src/main/java/io/valentinsoare/wordtally/service/ParseTheInput.java:194 | `String.split` on `\s`: the empty string gives one empty piece; any other string gives a prefix of the reference split that ends in a non-empty piece, every piece left out being empty; for every string, filtering out the empty strings gives exactly the tokens of the reference split |
| Text.DropTrailingEmptyKeepsTokens | src/main/java/io/valentinsoare/wordtally/service/ParseTheInput.java:194-195 | removing trailing empty pieces leaves the non-empty pieces unchanged |
| Text.JavaSplitDropsTrailingSeparator | src/main/java/io/valentinsoare/wordtally/service/ParseTheInput.java:194 | on "a " Java's split gives the single piece "a", while the reference split gives two pieces |
| Text.ReadLines | src/main/java/io/valentinsoare/wordtally/service/ParseTheInput.java:54 | a non-empty text yields at least one line, as `Files.lines` does for a last line without a terminator |
| Text.LinesHoldNoTerminator | src/main/java/io/valentinsoare/wordtally/service/ParseTheInput.java:54 | no line holds LF or CR: "\n", "\r" and "\r\n" only separate lines |
| Text.LineWords | src/main/java/io/valentinsoare/wordtally/service/ParseTheInput.java:193-196 | the words of the lines are the words of the first line, its Java split filtered of empty strings, plus the words of the other lines |
| Text.WordCountIsTokenCount | src/main/java/io/valentinsoare/wordtally/service/ProcessingTheInputFromPipeline.java:79-90 | the `isWord` scan counts exactly the non-empty pieces between separators, the split-and-filter reference |
| Text.LineWordsAreWordRuns | src/main/java/io/valentinsoare/wordtally/service/ParseTheInput.java:193-196 | splitting into lines first and then on `\s` gives the same count as one scan over the whole text |
| Text.LineCountWithoutCarriageReturns | src/main/java/io/valentinsoare/wordtally/service/ParseTheInput.java:54-55 | without CR, the lines of `Files.lines` are the line feeds plus one for an unterminated last line |
| StreamCounter.DropZeros | src/main/java/io/valentinsoare/wordtally/service/ProcessingTheInputFromPipeline.java:97-99 | the filtered list is no longer than the counts and holds no zero |
| Seqs.FilterKeepsOnlyMembers | src/main/java/io/valentinsoare/wordtally/service/ProcessingTheInputFromPipeline.java:97-99 | a filter keeps only elements of its input, each at most as often as there |
| StreamCounter.KeptCountsArePositive | src/main/java/io/valentinsoare/wordtally/service/ProcessingTheInputFromPipeline.java:97-99 | the list keeps as many values as there are non-zero counts, each taken from the counts, and every kept value is positive |
| StreamCounter.WordTransition | src/main/java/io/valentinsoare/wordtally/service/ProcessingTheInputFromPipeline.java:79-90 | the word branch of the walk is one step of the `isWord` scan |
| StreamCounter.CountCharacter | src/main/java/io/valentinsoare/wordtally/service/ProcessingTheInputFromPipeline.java:75-94 | after one more character each requested counter matches its definition on the longer prefix, and an unrequested counter stays 0 |
| StreamCounter.WalkCharacters | src/main/java/io/valentinsoare/wordtally/service/ProcessingTheInputFromPipeline.java:68-95 | the walk fails exactly when the stream fails; otherwise it gives the line feeds, the `isWord` word count and the code units of the input, each only when requested, else 0 |
| StreamCounter.CountingAndPrinting | src/main/java/io/valentinsoare/wordtally/service/ProcessingTheInputFromPipeline.java:54-100 | the result is the read error, or the four requested counts in the order lines, words, chars, bytes with zeros dropped, whatever the read lengths |
| StreamCounter.RequestedCountsKeepTheirOrder | src/main/java/io/valentinsoare/wordtally/service/ProcessingTheInputFromPipeline.java:97-99 | when no count is zero the list is exactly the four counts in their fixed order |
| StreamCounter.EmptyInputGivesNoValues | src/main/java/io/valentinsoare/wordtally/service/ProcessingTheInputFromPipeline.java:97-99 | an empty input gives an empty list, whatever was requested |
| StreamCounter.WalkWordsAreTokens | src/main/java/io/valentinsoare/wordtally/service/ProcessingTheInputFromPipeline.java:79-90 | the walk's word count is the number of non-empty whitespace-separated tokens |
| FromPipeline.FalseValues | src/main/java/io/valentinsoare/wordtally/service/ProcessingTheInputFromPipeline.java:137 | the count of false values is 4 exactly when every metric's flag is false |
| FromPipeline.InitializeTaskOptions | src/main/java/io/valentinsoare/wordtally/service/ProcessingTheInputFromPipeline.java:129-147 | the map has the four metric names as keys; with no metric named it is lines, words and bytes on and chars off; otherwise each flag is whether the options name that metric |
| FromPipeline.ExecTheTasksWithCounting | src/main/java/io/valentinsoare/wordtally/service/ProcessingTheInputFromPipeline.java:111-120 | the stream counter's list under the Pipeline flags, or the empty list when reading fails |
| FromFd.TaskOptions | src/main/java/io/valentinsoare/wordtally/service/ProcessingTheInputFromFD.java:98-107 | the map has exactly the four metric names as keys, and each flag is whether the options name that metric |
| FromFd.ExecTheTasksWithCounting | src/main/java/io/valentinsoare/wordtally/service/ProcessingTheInputFromFD.java:87-96 | the stream counter's list under the FD flags, or the empty list when reading fails |
| FromFd.NoMetricGivesEmptyList | src/main/java/io/valentinsoare/wordtally/service/ProcessingTheInputFromFD.java:98-107 | with no metric named, the FD service returns the empty list for every input |
| FromFd.VariantsAgreeWhenAMetricIsNamed | src/main/java/io/valentinsoare/wordtally/service/ProcessingTheInputFromFD.java:98-107 | the FD and Pipeline flags are equal exactly when at least one metric is named |
| Format.Decimal | src/main/java/io/valentinsoare/wordtally/service/ActOnInputOptionsProcessingAsAService.java:198 | `Long.toString` of a count is a non-empty string of digits with no leading zero |
| Format.DecimalRoundTrip | src/main/java/io/valentinsoare/wordtally/service/ActOnInputOptionsProcessingAsAService.java:198 | reading the printed digits back gives the value |
| Format.DecimalLength | src/main/java/io/valentinsoare/wordtally/service/ActOnInputOptionsProcessingAsAService.java:198 | a value has at most k digits exactly when it is below 10^k |
| Format.Pad | src/main/java/io/valentinsoare/wordtally/service/ActOnInputOptionsProcessingAsAService.java:198 | `%-9s` keeps the text at the front and fills with spaces to nine characters; longer text is kept whole |
| Format.CellEndsWithSpace | src/main/java/io/valentinsoare/wordtally/service/ActOnInputOptionsProcessingAsAService.java:198 | a cell ends with a space exactly when the value is below 10^8 |
| Format.CellsReadBack | src/main/java/io/valentinsoare/wordtally/service/ActOnInputOptionsProcessingAsAService.java:196-200 | a row of cells with values below 10^8 holds only digits and spaces and reads back as exactly those values |
| Format.LongValueRunsIntoTheNext | src/main/java/io/valentinsoare/wordtally/service/ActOnInputOptionsProcessingAsAService.java:196-200 | from 10^8 on, a cell is the digits alone, so it and the next cell read back as one number |
| ActOnInput.ExtractOptions | src/main/java/io/valentinsoare/wordtally/service/ActOnInputOptionsProcessingAsAService.java:132-136 | a name is collected exactly when it is registered and present, and the list follows the registration order lines, words, chars, bytes, help, each name once |
| ActOnInput.Plan | src/main/java/io/valentinsoare/wordtally/service/ActOnInputOptionsProcessingAsAService.java:323-340 | with no option the columns are lines, words, bytes; otherwise there is one column per option, in option order, given by the `switch` |
| ActOnInput.Settle | src/main/java/io/valentinsoare/wordtally/service/ActOnInputOptionsProcessingAsAService.java:342-345 | the joined futures give a row exactly when every column produced a count, and then the row holds those counts in column order |
| ActOnInput.ExecuteTasks | src/main/java/io/valentinsoare/wordtally/service/ActOnInputOptionsProcessingAsAService.java:320-346 | a file's result is the joined result of one counter per planned column, the character column using a possible answer of the classifier |
| ActOnInput.RowShape | src/main/java/io/valentinsoare/wordtally/service/ActOnInputOptionsProcessingAsAService.java:320-346 | a row has 3 values with no option and one per option otherwise (the `nCol` of the totals); a file that ends the process ends it with status 0 |
| ActOnInput.HelpOptionGivesNoRow | src/main/java/io/valentinsoare/wordtally/service/ActOnInputOptionsProcessingAsAService.java:337 | with `help` among the options a file gives no row: the help page, or an exit with status 0 |
| ActOnInput.Printed | src/main/java/io/valentinsoare/wordtally/service/ActOnInputOptionsProcessingAsAService.java:196-200 | the printed values are among the row's values, never more of them, and all of them when none is negative |
| ActOnInput.ConstructOutputToPrint | src/main/java/io/valentinsoare/wordtally/service/ActOnInputOptionsProcessingAsAService.java:195-207 | the text is a cell per value that is not negative, then the file name and a line break, or only the line break for standard input |
| ActOnInput.RowLineReadsBack | src/main/java/io/valentinsoare/wordtally/service/ActOnInputOptionsProcessingAsAService.java:195-207 | below 10^8 the cells of a printed row read back as the row's non-negative values, in order |
| ActOnInput.Total | src/main/java/io/valentinsoare/wordtally/service/ActOnInputOptionsProcessingAsAService.java:225-230 | the total row is as long as the first row |
| ActOnInput.PrintedEmpty | src/main/java/io/valentinsoare/wordtally/service/ActOnInputOptionsProcessingAsAService.java:234-239 | nothing is printed of a row exactly when all its values are negative |
| ActOnInput.TotalLabelShown | src/main/java/io/valentinsoare/wordtally/service/ActOnInputOptionsProcessingAsAService.java:232-243 | the "total" label is printed exactly when at least one total is not negative; otherwise nothing at all is printed |
| ActOnInput.TotalOfOneRow | src/main/java/io/valentinsoare/wordtally/service/ActOnInputOptionsProcessingAsAService.java:294-296 | a single row's total is the row itself (a path given twice) |
| ActOnInput.CalculateTotalIfMultipleFilesAndPrint | src/main/java/io/valentinsoare/wordtally/service/ActOnInputOptionsProcessingAsAService.java:216-244 | with no row the process ends with status 1 and nothing printed; otherwise the first `nCol` columns of the first row become the column sums over all rows, the rest stay, and the total line is printed |
| ActOnInput.PrintTotal | src/main/java/io/valentinsoare/wordtally/service/ActOnInputOptionsProcessingAsAService.java:232-243 | the printing loop writes the cells of the non-negative totals and the label only when it wrote a cell |
| ActOnInput.SentinelIsSummed | src/main/java/io/valentinsoare/wordtally/service/ActOnInputOptionsProcessingAsAService.java:229 | a -1 in a column lowers that column's total by one |
| ActOnInput.ColumnSumPermutation | src/main/java/io/valentinsoare/wordtally/service/ActOnInputOptionsProcessingAsAService.java:227-230 | a column sum is the same for every permutation of the rows |
| ActOnInput.TotalPermutation | src/main/java/io/valentinsoare/wordtally/service/ActOnInputOptionsProcessingAsAService.java:294-296 | the summed columns of the total do not depend on the hash order in which the rows are handed over |
| ActOnInput.CountNextFile | src/main/java/io/valentinsoare/wordtally/service/ActOnInputOptionsProcessingAsAService.java:266-281 | the next file's future extends the file results by that file's result; a row has one value per column; an exit has status 0 |
| ActOnInput.CountFiles | src/main/java/io/valentinsoare/wordtally/service/ActOnInputOptionsProcessingAsAService.java:264-288 | the rows are the results of the files in map order, each one value per column, up to the first file that ends the process, whose result (exit 0 or the help page) is returned |
| ActOnInput.PrintRows | src/main/java/io/valentinsoare/wordtally/service/ActOnInputOptionsProcessingAsAService.java:290-292 | the output is each row's line with its file name, in map order |
| ActOnInput.RunFiles | src/main/java/io/valentinsoare/wordtally/service/ActOnInputOptionsProcessingAsAService.java:255-296 | with every file counted, the output is one line per file and, for more than one location, the total line of the rows over `nCol` columns; an exit with status 0 or the help page comes from a file's counters, before anything is printed; status 1 happens exactly for several locations with no readable file |
| ActOnInput.RunStdin | src/main/java/io/valentinsoare/wordtally/service/ActOnInputOptionsProcessingAsAService.java:297-308 | with `help` the help page; an input that is not ready ends the process with status 0 and no output; otherwise the stream service's list printed as one row without a name |

## Left out

- Threads, the semaphore, `CompletableFuture` scheduling and the thread pool. A file's counters run one after another. When several columns of a file could end the process, the first in column order decides. Every such ending has status 0 (`RowShape`), so only the help page and an exit can be told apart.
- The `InterruptedException` path of a file's future, which gives an empty list. The model has no interrupts.
- `checkFilesAvailabilityAndPermissions` and its messages. The `files` map of `RunFiles` stands for the readable files it returns. A path given twice is one entry.
- Command-line parsing with commons-cli, its invalid-option messages and its exit. `ExtractOptions` takes the set of long names that were present.
- The text of the help page. Printing it is the `HelpPrinted` outcome.
- Everything written to standard error, including the JSON error reports. The `JsonProcessingException` branches are taken never to happen.
- UTF-8 decoding. An `Input` carries its lenient decoding into UTF-16 code units, and whether the strict decoder of `Files.lines` accepts it.
- `Character.isWhitespace`, which is a parameter `isWhitespace`. The regular-expression class `\s` is modelled exactly.
- The result map's hash order, which is the parameter `order`.
- `InputStream.available()` and its `IOException`, which are the parameter `ready` of `RunStdin`.
- `%n`, which is written as "\n".
- Files changing between the counters of one file. Every counter reads the same bytes.
- ActOnInput.RunStdin: the FD service's `handleIOException` writes its JSON report to standard output. The modelled output holds only the empty row that follows.
- ActOnInput.CalculateTotalIfMultipleFilesAndPrint: the Java `long` sums are unbounded here, so wrap-around at 2^63 is not modelled. Neither is a `get(i)` on a row shorter than `nCol`, which is excluded by `WideEnough` and which every row `RunFiles` passes meets.
- StreamCounter.CountingAndPrinting: `long` counters are unbounded here, so wrap-around at 2^63 is not modelled.

## Findings

| source | as written | input that shows it | evidently intended | confidence | as-written member | corrected member |
|---|---|---|---|---|---|---|
| src/main/java/io/valentinsoare/wordtally/service/ParseTheInput.java:81-102 | the line fallback counts 0x0A bytes in an `int`, which wraps past 2^31 - 1, before returning it as a `long` | a file of 2^31 line feeds followed by the byte 0xFF, which makes `Files.lines` fail and sends the count to the fallback: it reports -2147483648 lines | a `long` counter like every other counter, reporting 2147483648 | medium (not executed) | ParseTheInput.CountNewlineBytesAsWritten, ParseTheInput.NewlineCountOverflows | ParseTheInput.CountNewlineBytes |
