/** The command-line entry point: settings overrides, then load, filter and
    calculate (cli/main.py). */
module Cli {
  import opened Wrappers
  import opened NumberText
  import opened Records
  import opened Settings
  import opened Filters
  import opened Calculator
  import opened DataLoader

  /** The parsed flags: `--file`, `--thres` and `--all`. */
  datatype CliArgs = CliArgs(file: Option<string>, thres: Option<real>, all: bool)

  /** A `--file` value counts only when it is given and not empty (Python truthiness). */
  predicate FileGiven(args: CliArgs) {
    args.file.Some? && args.file.value != ""
  }

  /** The configuration after the override block of `main`. */
  function CliOverrides(c: Config, args: CliArgs): Config {
    Config(if FileGiven(args) then args.file.value else c.dataPath,
           c.encoding,
           if args.thres.Some? then args.thres.value else c.defaultThreshold,
           if args.all then "ALL" else c.filterMode)
  }

  method ApplyCliOverrides(settings: Settings, args: CliArgs)
    modifies settings
    ensures settings.Snapshot() == CliOverrides(old(settings.Snapshot()), args)
  {
    if FileGiven(args) {
      settings.dataPath := args.file.value;
    }
    if args.thres.Some? {
      settings.defaultThreshold := args.thres.value;
    }
    if args.all {
      settings.filterMode := "ALL";
    }
  }

  /** Load with the configured path, filter with the configured threshold and
      mode, then calculate; a load exception escapes as a failure. */
  function Pipeline(config: Config, fs: FileSystem): Result<AnalysisResult, string> {
    match Load(None, config, fs)
    case Success(records) =>
      Success(Statistics(Selected(records, EffectiveThreshold(None, config), config.filterMode)))
    case Failure(e) => Failure(e)
  }

  /** `main`: apply the flags to the settings, run the pipeline, and print one
      summary line (the lines printed are returned as `stdout`). */
  method RunMain(settings: Settings, args: CliArgs, fs: FileSystem, timestamp: string)
    returns (result: Result<AnalysisResult, string>, stdout: seq<string>)
    modifies settings
    ensures settings.Snapshot() == CliOverrides(old(settings.Snapshot()), args)
    ensures result == Pipeline(settings.Snapshot(), fs)
    ensures result.Success? ==> stdout == [result.value.FormatSummary(timestamp)]
    ensures result.Failure? ==> stdout == []
  {
    ApplyCliOverrides(settings, args);
    var config := settings.Snapshot();
    var loaded := LoadRecords(None, config, fs);
    if loaded.Failure? {
      return Failure(loaded.error), [];
    }
    var filtered := FilterRecords(loaded.value, None, config);
    var stats := CalculateStatistics(filtered);
    result := Success(stats);
    stdout := [stats.FormatSummary(timestamp)];
  }

  // ---------------------------------------------------------------------------
  // The override block

  /** The override block is `update_from_args` with "data_path" present for a
      non-empty `--file`, "threshold" for a given `--thres`, and "filter_mode"
      set to "ALL" for `--all`. */
  lemma CliOverridesAsUpdate(c: Config, args: CliArgs)
    ensures CliOverrides(c, args)
         == ApplyArgs(c, SettingsArgs(if FileGiven(args) then args.file else None,
                                      args.thres,
                                      if args.all then Some("ALL") else None))
  {
  }

  /** No flags leave the configuration as it was. */
  lemma NoFlagsKeepConfig(c: Config)
    ensures CliOverrides(c, CliArgs(None, None, false)) == c
    ensures CliOverrides(c, CliArgs(Some(""), None, false)) == c
  {
  }

  /** `--thres 0` is applied: only an absent threshold is ignored. */
  lemma ThresholdZeroApplies(c: Config, file: Option<string>, all: bool)
    ensures CliOverrides(c, CliArgs(file, Some(0.0), all)).defaultThreshold == 0.0
  {
  }

  /** Without `--all` the mode is left as it was; it is never reset to "OK". */
  lemma ModeOnlyEverSetToAll(c: Config, args: CliArgs)
    ensures CliOverrides(c, args).filterMode == (if args.all then "ALL" else c.filterMode)
    ensures CliOverrides(c, args).encoding == c.encoding
  {
  }

  lemma CliTestExample()
    ensures CliOverrides(Defaults, CliArgs(Some("test.json"), Some(10.0), true))
         == Config("test.json", "utf-8", 10.0, "ALL")
    ensures CliOverrides(Defaults, CliArgs(None, Some(7.5), false))
         == Config("data/sample.json", "utf-8", 7.5, "OK")
  {
  }

  // ---------------------------------------------------------------------------
  // The pipeline

  /** The run fails exactly when loading raises an exception other than a
      missing file or bad JSON. */
  lemma PipelineFailsOnlyOnOtherExceptions(config: Config, fs: FileSystem)
    ensures Pipeline(config, fs).Failure? <==> fs(config.dataPath, config.encoding).OtherException?
  {
  }

  /** The count reported is the number of records the filter kept. */
  lemma PipelineCountIsKeptRecords(config: Config, fs: FileSystem)
    requires fs(config.dataPath, config.encoding).Decoded?
    ensures Pipeline(config, fs).Success?
    ensures Pipeline(config, fs).value.count
         == |Selected(ParsedRecords(fs(config.dataPath, config.encoding).items),
                      config.defaultThreshold, config.filterMode)|
  {
    var records := ParsedRecords(fs(config.dataPath, config.encoding).items);
    CountOfSelected(records, config.defaultThreshold, config.filterMode);
  }

  /** In OK mode the reported average is at least the threshold whenever something was counted. */
  lemma PipelineOkModeAverage(config: Config, fs: FileSystem)
    requires config.filterMode != "ALL"
    requires Pipeline(config, fs).Success? && Pipeline(config, fs).value.count > 0
    ensures Pipeline(config, fs).value.average >= config.defaultThreshold
  {
    var records := Load(None, config, fs).value;
    OkModeAverageAtLeastThreshold(records, config.defaultThreshold, config.filterMode);
  }

  lemma FallbackNumbers()
    ensures FallbackData()[0].NumericValue() == Some(3.0)
    ensures FallbackData()[1].NumericValue() == None
    ensures FallbackData()[2].NumericValue() == Some(7.0)
  {
    assert DigitsValue("3") == 3 by {
      assert "3"[..0] == "";
    }
    ParseDigits("3");
    assert ParseNumber("x") == None;
  }

  /** Which fallback records the filter keeps. */
  lemma FallbackSelection(threshold: real, mode: string)
    ensures Selected(FallbackData(), threshold, mode)
         == if mode == "ALL" || threshold <= 3.0 then [FallbackData()[0], FallbackData()[2]]
            else if threshold <= 7.0 then [FallbackData()[2]]
            else []
  {
    var f := FallbackData();
    FallbackNumbers();
    assert f[..2] == [f[0], f[1]] && f[..2][..1] == [f[0]] && [f[0]][..0] == [];
    assert Lower("ok") == "ok";
    assert ShouldInclude(f[0], threshold, mode) <==> mode == "ALL" || threshold <= 3.0;
    assert !ShouldInclude(f[1], threshold, mode);
    assert ShouldInclude(f[2], threshold, mode) <==> mode == "ALL" || threshold <= 7.0;
    var first := Selected(f[..2][..1], threshold, mode);
    assert first == Selected([], threshold, mode) + (if ShouldInclude(f[0], threshold, mode) then [f[0]] else []);
    assert Selected(f[..2], threshold, mode) == first;
  }

  lemma FallbackPairValues()
    ensures Statistics([FallbackData()[0], FallbackData()[2]]) == AnalysisResult(2, 10.0, 5.0)
  {
    var f := FallbackData();
    FallbackNumbers();
    assert [f[0], f[2]][..1] == [f[0]] && [f[0]][..0] == [];
    assert Values([f[0], f[2]]) == [3.0, 7.0];
    assert [3.0, 7.0][..1] == [3.0] && [3.0][..0] == [];
  }

  lemma FallbackLastValue()
    ensures Statistics([FallbackData()[2]]) == AnalysisResult(1, 7.0, 7.0)
  {
    var f := FallbackData();
    FallbackNumbers();
    assert [f[2]][..0] == [];
    assert Values([f[2]]) == [7.0];
    assert [7.0][..0] == [];
  }

  /** The statistics of the fallback records: "3" and 7 are numbers and "x" is not. */
  lemma FallbackStatistics(threshold: real, mode: string)
    ensures Statistics(Selected(FallbackData(), threshold, mode))
         == if mode == "ALL" || threshold <= 3.0 then AnalysisResult(2, 10.0, 5.0)
            else if threshold <= 7.0 then AnalysisResult(1, 7.0, 7.0)
            else Zero
  {
    FallbackSelection(threshold, mode);
    FallbackPairValues();
    FallbackLastValue();
  }

  /** A run without flags on a missing data file reports the fallback statistics. */
  lemma DefaultRunOnMissingFile(fs: FileSystem)
    requires fs("data/sample.json", "utf-8") == FileNotFound
    ensures Pipeline(CliOverrides(Defaults, CliArgs(None, None, false)), fs)
         == Success(AnalysisResult(2, 10.0, 5.0))
  {
    NoFlagsKeepConfig(Defaults);
    FallbackStatistics(0.0, "OK");
  }
}
