/** `ProcessingTheInputFromPipeline`: the option strings become four flags,
    defaulting to lines, words and bytes when no metric is named, and the
    shared stream counter runs with them. */
module FromPipeline {
  import opened Io
  import opened Seqs
  import opened StreamCounter

  /** The metric names, in the order the flag map is filled. */
  const AVAILABLE: seq<string> := ["lines", "words", "bytes", "chars"]

  /** The flag map used when no metric is named. */
  const DEFAULT_TASKS: map<string, bool> := map["lines" := true, "words" := true, "bytes" := true, "chars" := false]

  predicate NamesNoMetric(options: seq<string>)
  {
    forall k :: 0 <= k < |AVAILABLE| ==> AVAILABLE[k] !in options
  }

  /** `Collections.frequency(taskOptions.values(), false)`: the map has one
      entry per metric name, so its values are counted name by name. */
  function FalseValues(taskOptions: map<string, bool>): (n: nat)
    requires forall k :: 0 <= k < |AVAILABLE| ==> AVAILABLE[k] in taskOptions
    ensures n == 4 <==> forall k :: 0 <= k < |AVAILABLE| ==> !taskOptions[AVAILABLE[k]]
  {
    var isFalse := (name: string) => name in taskOptions && !taskOptions[name];
    CountWhereExtremes(AVAILABLE, isFalse);
    CountWhere(AVAILABLE, isFalse)
  }

  /** `initializeTaskOptions`: each metric's flag is whether the options
      name it, unless none is named, in which case lines, words and bytes are
      on and chars is off. */
  method InitializeTaskOptions(options: seq<string>) returns (taskOptions: map<string, bool>)
    ensures taskOptions.Keys == {"lines", "words", "bytes", "chars"}
    ensures NamesNoMetric(options) ==> taskOptions == DEFAULT_TASKS
    ensures !NamesNoMetric(options) ==> forall name :: name in taskOptions ==> taskOptions[name] == (name in options)
  {
    taskOptions := map[];
    for k := 0 to |AVAILABLE|
      invariant taskOptions.Keys == set j | 0 <= j < k :: AVAILABLE[j]
      invariant forall j :: 0 <= j < k ==> taskOptions[AVAILABLE[j]] == (AVAILABLE[j] in options)
    {
      taskOptions := taskOptions[AVAILABLE[k] := AVAILABLE[k] in options];
    }
    assert AVAILABLE[0] == "lines" && AVAILABLE[1] == "words" && AVAILABLE[2] == "bytes" && AVAILABLE[3] == "chars";
    if FalseValues(taskOptions) == 4 {
      taskOptions := DEFAULT_TASKS;
    }
  }

  /** The flags `performCountingTasks` reads out of the map. */
  function FlagsOf(taskOptions: map<string, bool>): Flags
    requires taskOptions.Keys == {"lines", "words", "bytes", "chars"}
  {
    Flags(taskOptions["lines"], taskOptions["words"], taskOptions["chars"], taskOptions["bytes"])
  }

  /** The map `initializeTaskOptions` builds reads out as the Pipeline
      flags. */
  lemma FlagsOfInitialized(options: seq<string>, taskOptions: map<string, bool>)
    requires taskOptions.Keys == {"lines", "words", "bytes", "chars"}
    requires NamesNoMetric(options) ==> taskOptions == DEFAULT_TASKS
    requires !NamesNoMetric(options) ==> forall name :: name in taskOptions ==> taskOptions[name] == (name in options)
    ensures FlagsOf(taskOptions) == PipelineFlags(options)
  {
    if !NamesNoMetric(options) {
      assert "lines" in taskOptions && "words" in taskOptions && "bytes" in taskOptions && "chars" in taskOptions;
    }
  }

  /** The flags the Pipeline variant counts with. */
  function PipelineFlags(options: seq<string>): Flags
  {
    if NamesNoMetric(options) then Flags(true, true, false, true)
    else Flags("lines" in options, "words" in options, "chars" in options, "bytes" in options)
  }

  /** `execTheTasksWithCountingInParallelWithParallelStreams`: the counts of
      the flags above, or an empty list when reading fails. */
  method ExecTheTasksWithCounting(options: seq<string>, input: Input, isWhitespace: CodeUnit -> bool)
      returns (counts: seq<int>)
    ensures counts == ListOrEmpty(CountingResult(input, PipelineFlags(options), isWhitespace))
  {
    var taskOptions := InitializeTaskOptions(options);
    FlagsOfInitialized(options, taskOptions);
    var r := CountingAndPrinting(input, FlagsOf(taskOptions), isWhitespace);
    counts := ListOrEmpty(r);
  }
}
