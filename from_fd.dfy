/** `ProcessingTheInputFromFD`: the same stream counter, with each flag
    exactly whether the options name its metric and no default. */
module FromFd {
  import opened Io
  import opened StreamCounter
  import Seqs
  import FromPipeline

  /** `initializeTaskOptions` of this variant: four direct `put`s. */
  function TaskOptions(options: seq<string>): (taskOptions: map<string, bool>)
    ensures taskOptions.Keys == {"lines", "words", "chars", "bytes"}
    ensures forall name :: name in taskOptions ==> taskOptions[name] == (name in options)
  {
    map["lines" := "lines" in options, "words" := "words" in options,
        "chars" := "chars" in options, "bytes" := "bytes" in options]
  }

  /** `execTheTasksWithCountingInParallelWithParallelStreams` of this
      variant. */
  method ExecTheTasksWithCounting(options: seq<string>, input: Input, isWhitespace: CodeUnit -> bool)
      returns (counts: seq<int>)
    ensures counts == ListOrEmpty(CountingResult(input, FdFlags(options), isWhitespace))
  {
    var taskOptions := TaskOptions(options);
    var flags := Flags(taskOptions["lines"], taskOptions["words"], taskOptions["chars"], taskOptions["bytes"]);
    assert flags == FdFlags(options);
    var r := CountingAndPrinting(input, flags, isWhitespace);
    counts := ListOrEmpty(r);
  }

  function FdFlags(options: seq<string>): Flags
  {
    Flags("lines" in options, "words" in options, "chars" in options, "bytes" in options)
  }

  /** Without any metric named, nothing is counted and the list is empty,
      whatever the input (even one whose reads fail). */
  lemma NoMetricGivesEmptyList(options: seq<string>, input: Input, isWhitespace: CodeUnit -> bool)
    requires FromPipeline.NamesNoMetric(options)
    ensures ListOrEmpty(CountingResult(input, FdFlags(options), isWhitespace)) == []
  {
    assert FromPipeline.AVAILABLE[0] == "lines" && FromPipeline.AVAILABLE[1] == "words";
    assert FromPipeline.AVAILABLE[2] == "bytes" && FromPipeline.AVAILABLE[3] == "chars";
    var c := Counts(input, FdFlags(options), isWhitespace);
    assert forall i :: 0 <= i < 4 ==> !NonZero(c[i]);
    Seqs.CountWhereExtremes(c, NonZero);
  }

  /** The two variants count alike as soon as one metric is named; they
      differ only when none is, where the Pipeline variant falls back to
      lines, words and bytes. */
  lemma VariantsAgreeWhenAMetricIsNamed(options: seq<string>)
    ensures !FromPipeline.NamesNoMetric(options) <==> FdFlags(options) == FromPipeline.PipelineFlags(options)
  {
    if FromPipeline.NamesNoMetric(options) {
      assert FromPipeline.AVAILABLE[0] == "lines";
    } else {
      var k :| 0 <= k < 4 && FromPipeline.AVAILABLE[k] in options;
    }
  }
}
