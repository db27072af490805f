# Record analysis pipeline, modelled in Dafny

The system is a small command-line tool. It loads status/value records from a
JSON file, or falls back to three built-in records when the file is missing or
is not valid JSON. It keeps the records that pass the filter and reports their
count, total and average on one summary line. The filter has two modes.
`OK` mode keeps records whose status is "ok" in any letter case and whose value
is at least a threshold. `ALL` mode keeps every record whose value reads as a
number.

The model has one Dafny module per source file, plus three helper modules:

- `Records` (`models/records.py`): the `Record` datatype with `NormalizeStatus`,
  `NumericValue` and `IsValid`; the `AnalysisResult` datatype with `FormatSummary`.
- `Filters` (`core/filters.py`): `ShouldInclude`, the specification `Selected`
  and the loop `FilterRecords`.
- `Calculator` (`core/calculator.py`): the specification `Statistics` and the
  loop `CalculateStatistics`.
- `DataLoader` (`data_io/data_loader.py`): `ToRecord`, the loop `ParseRecords`,
  `FallbackData`, and the recovery rule in `Load` / `LoadRecords`.
- `Settings` (`config/settings.py`): the `Settings` class, with its four
  fields updated in place, and its snapshot value `Config`.
- `Cli` (`cli/main.py`): the override block of `main`, and `RunMain`, which runs
  load, filter and calculate.
- Helpers: `Wrappers` (`Option`, `Result`), `Sequences` (subsequence) and
  `NumberText`. `NumberText` covers what the code gets from Python builtins:
  reading a decimal string as a number (`float(s)`), writing a count in decimal,
  and writing a number with two decimals (`.2f`). It proves that both written
  forms read back.

Modelling choices:

- Numbers are `real`. A record's value is `Num(real) | Str(string) | Null`.
- The global settings object becomes an explicit `Config` value. `RunMain` takes
  it from the `Settings` object once the flags have been applied, then passes
  it to the loader and the filter.
- The filter mode stays a string, as in the code. The code only tests
  `== "ALL"`, so any other string behaves as `OK` mode.
- Reading the file is a parameter `fs: (path, encoding) -> ReadOutcome`. The
  outcome is the decoded objects, `FileNotFound`, `JsonDecodeError`, or some
  other exception. Only the first two are recovered with the fallback data. Any
  other exception escapes: `Load` then returns `Failure(name)`, and `RunMain`
  prints nothing.
- What `main` prints is returned as `stdout`: the summary line, or nothing when
  loading fails. The timestamp is a parameter.

Three points where the code is narrower or looser than its own comments and
names suggest; the model follows the code:

- `_get_fallback_data` says it provides data "when file loading fails"
  (`data_io/data_loader.py:34`), but `load_records` catches only
  `FileNotFoundError` and `json.JSONDecodeError` (`data_io/data_loader.py:21`).
  Every other failure escapes.
- The filter mode is a free string. `_should_include` tests only `== "ALL"`
  (`core/filters.py:17`), so every other value acts as `OK` mode.
- `update_from_args` reads the key `threshold`, not `default_threshold`
  (`config/settings.py:28-29`), and stores it in `default_threshold`.

## Model

| member | source | states |
|---|---|---|
| `Records.Lower` | lab-1/src/models/records.py:8-9 | lower-casing keeps the length and lowers each character |
| `Records.LowerIsIdempotent` | lab-1/src/models/records.py:8-9 | a normalised status has no upper-case letter, and normalising it again changes nothing |
| `Records.NormalizesToOk` | lab-1/src/models/records.py:8-9 | under ASCII lowering, a status normalises to "ok" exactly when it is "ok", "Ok", "oK" or "OK" |
| `Records.NormalizeStatusExamples` | lab-1/src/models/records.py:8-9 | "OK" becomes "ok", "Bad" becomes "bad", "ERROR" becomes "error" |
| `Records.ParseNumberExamples` | lab-1/src/models/records.py:15-18 | "123" reads as 123, "45.67" as 45.67, and "invalid" reads as no number |
| `Records.NumericValueExamples` | lab-1/src/models/records.py:11-19 | numbers convert to themselves, numeric strings to their value, and "invalid" and null to none |
| `Records.IsValidCharacterization` | lab-1/src/models/records.py:21-25 | valid iff the status is one of the four ASCII spellings of "ok" and the value reads as a number at least the threshold (both directions) |
| `Records.UndefinedIsInvalid` | lab-1/src/models/records.py:22-24 | a record whose value is not a number is never valid, whatever its status |
| `Records.IsValidMonotone` | lab-1/src/models/records.py:25 | valid at a threshold implies valid at every lower threshold |
| `Records.IsValidExamples` | lab-1/src/models/records.py:21-25 | ok/10 is valid at 5 and not at 15; bad/10 and ok/null are not valid |
| `Records.SummaryFieldsReadBack` | lab-1/src/models/records.py:34-35 | the printed count reads back as the count; the printed total and average read back as their two-decimal roundings |
| `Records.FormatSummaryWhole` | lab-1/src/models/records.py:34-35 | (5, 100.0, 20.0) at "2024/01/01-12:00:00" gives "[2024/01/01-12:00:00] ok_count=5 total_value=100.00 avg=20.00" |
| `Records.FormatSummaryWithDecimals` | lab-1/src/models/records.py:34-35 | (3, 33.33, 11.11) gives "... ok_count=3 total_value=33.33 avg=11.11" |
| `NumberText.DecimalString` | lab-1/src/models/records.py:35 | the decimal form of a count is a non-empty digit string, with a leading '0' only for zero |
| `NumberText.ParseDecimalString` | lab-1/src/models/records.py:35 | reading the decimal form of n gives n |
| `NumberText.ParseDigits` | lab-1/src/models/records.py:16 | a non-empty digit string reads as the number it denotes |
| `NumberText.RoundHalfEven` | lab-1/src/models/records.py:35 | rounding lands within one half of the value, and an exact tie goes to the even neighbour |
| `NumberText.ParseFixed2` | lab-1/src/models/records.py:35 | reading the two-decimal form of x gives x rounded to two decimals, negative values included |
| `NumberText.Round2Accuracy` | lab-1/src/models/records.py:35 | the two-decimal form differs from the value by at most 0.005 |
| `NumberText.Fixed2Exact` | lab-1/src/models/records.py:35 | a value that is an exact number of hundredths, positive, zero or negative, is written without rounding: `-0.5` gives "-0.50" |
| `Filters.Selected` | lab-1/src/core/filters.py:9-13 | the kept list is no longer than the input, and every kept record is from the input and passes the filter |
| `Filters.FilterRecords` | lab-1/src/core/filters.py:5-13 | the loop's result is the specification `Selected` at the given threshold, or the configured one when none is given; it is a subsequence of the input, and a record is in it iff it is in the input and passes the filter |
| `Filters.SelectedIsSubsequence` | lab-1/src/core/filters.py:9-13 | the result is the input with some records deleted, the rest in their original order |
| `Filters.SelectedMembership` | lab-1/src/core/filters.py:10-12 | a record is in the result iff it is in the input and `_should_include` holds for it |
| `Filters.SelectedNarrowing` | lab-1/src/core/filters.py:9-20 | filtering a filtered list with a stricter test equals filtering once with the stricter test |
| `Filters.FilterIdempotent` | lab-1/src/core/filters.py:9-20 | filtering an already filtered list with the same threshold and mode returns it unchanged |
| `Filters.RaisingThresholdNarrows` | lab-1/src/core/filters.py:20 | in OK mode a higher threshold keeps a subsequence of what a lower threshold keeps |
| `Filters.AllModeIgnoresThreshold` | lab-1/src/core/filters.py:17-18 | in ALL mode the result does not depend on the threshold |
| `Filters.OkModeWithinAllMode` | lab-1/src/core/filters.py:16-20 | the OK-mode result is a subsequence of the ALL-mode result |
| `Filters.SelectedAreNumeric` | lab-1/src/core/filters.py:16-20 | in either mode every kept record has a value that reads as a number |
| `Filters.FilterAboveThresholdExample` | lab-1/src/core/filters.py:9-20 | ok/10, ok/5, bad/15, ok/20 at threshold 8 in OK mode keeps ok/10 and ok/20 |
| `Filters.FilterAllModeExample` | lab-1/src/core/filters.py:17-18 | in ALL mode only the record whose value is null is dropped |
| `Calculator.Values` | lab-1/src/core/calculator.py:10-14 | there are never more collected values than records |
| `Calculator.CalculateStatistics` | lab-1/src/core/calculator.py:5-26 | the result equals `Statistics`, early empty return included; count = number of values that read as numbers ≤ number of records; total = their sum; zero result when count = 0 |
| `Calculator.AverageTimesCount` | lab-1/src/core/calculator.py:19-23 | when the count is non-zero, the average times the count is the total |
| `Calculator.NoNumbersGivesZero` | lab-1/src/core/calculator.py:7-17 | the empty list, and any list in which no value reads as a number, gives (0, 0, 0) |
| `Calculator.CountIsNumericRecords` | lab-1/src/core/calculator.py:10-14 | the count equals the number of records that ALL mode keeps |
| `Calculator.CountOfSelected` | lab-1/src/core/calculator.py:10-23 | after filtering, in either mode, the count is the length of the filtered list |
| `Calculator.StatisticsOfConcatenation` | lab-1/src/core/calculator.py:10-19 | for two lists joined, the counts add and the totals add |
| `Calculator.OkModeAverageAtLeastThreshold` | lab-1/src/core/calculator.py:19-20 | after OK-mode filtering, a non-zero count has an average at least the threshold |
| `Calculator.StatisticsExamples` | lab-1/src/core/calculator.py:5-26 | [] gives zero; 10, 20, 30 give (3, 60, 20); 1.5, 2.5, 3.0 give (3, 7, 7/3) |
| `Calculator.MixedRecordsExample` | lab-1/src/core/calculator.py:10-26 | 10, "invalid", 20, null give (2, 30, 15) |
| `DataLoader.ToRecord` | lab-1/src/data_io/data_loader.py:27-30 | status comes from "status", else "STATUS", else "unknown"; value comes from "value" kept as-is (null included), else 0 |
| `DataLoader.ParsedRecords` | lab-1/src/data_io/data_loader.py:26-31 | one record per input object |
| `DataLoader.ParseRecords` | lab-1/src/data_io/data_loader.py:24-31 | the loop returns exactly one record per object, in order, each built by `ToRecord` |
| `DataLoader.LoadRecords` | lab-1/src/data_io/data_loader.py:12-22 | the path defaults to the configured one; decoded objects are parsed; a missing file or bad JSON gives the fallback records; any other exception escapes |
| `DataLoader.LoadFailsOnlyOnOtherExceptions` | lab-1/src/data_io/data_loader.py:17-22 | loading fails iff reading raises something other than a missing file or bad JSON |
| `DataLoader.LoadDefaultsToConfiguredPath` | lab-1/src/data_io/data_loader.py:14-15 | loading without a path is loading the configured data path |
| `DataLoader.ParseMissingFieldsExample` | lab-1/src/data_io/data_loader.py:28-29 | missing status gives "unknown", missing value gives 0 |
| `DataLoader.ParseVariousFormatsExample` | lab-1/src/data_io/data_loader.py:28-29 | an upper-case "STATUS" key is used, and a null value is kept |
| `Settings.ApplyArgs` | lab-1/src/config/settings.py:25-31 | the encoding is never changed, and arguments with no recognised key change nothing |
| `Settings.Settings.constructor` | lab-1/src/config/settings.py:8-12 | a fresh object has "data/sample.json", "utf-8", threshold 0 and mode "OK" |
| `Settings.Settings.UpdateFromArgs` | lab-1/src/config/settings.py:25-31 | each present key ("data_path", "threshold", "filter_mode") overwrites its field, each absent one leaves it, and the encoding is untouched |
| `Settings.ApplyArgsIdempotent` | lab-1/src/config/settings.py:25-31 | applying the same arguments twice equals applying them once |
| `Settings.ApplyArgsOverwrites` | lab-1/src/config/settings.py:26-31 | a present key sets its field to the given value, whatever the field held |
| `Cli.ApplyCliOverrides` | lab-1/src/cli/main.py:22-27 | the settings afterwards are `CliOverrides` of the settings before |
| `Cli.RunMain` | lab-1/src/cli/main.py:18-39 | the settings get the flags applied; the result is load, then filter, then calculate under the updated settings; exactly one summary line is printed on success, none on failure |
| `Cli.CliOverridesAsUpdate` | lab-1/src/cli/main.py:22-27 | the override block is `update_from_args` with "data_path" present for a non-empty `--file`, "threshold" for a given `--thres`, and "filter_mode" = "ALL" for `--all` |
| `Cli.NoFlagsKeepConfig` | lab-1/src/cli/main.py:22-27 | no flags, or an empty `--file`, leave the configuration unchanged |
| `Cli.ThresholdZeroApplies` | lab-1/src/cli/main.py:24-25 | `--thres 0` sets the threshold to 0 |
| `Cli.ModeOnlyEverSetToAll` | lab-1/src/cli/main.py:26-27 | the mode becomes "ALL" with `--all` and is otherwise left as it was, never reset to "OK"; the encoding is untouched |
| `Cli.CliTestExample` | lab-1/src/cli/main.py:22-27 | `--file test.json --thres 10 --all` gives ("test.json", 10, "ALL"); `--thres 7.5` changes only the threshold |
| `Cli.PipelineFailsOnlyOnOtherExceptions` | lab-1/src/cli/main.py:30-33 | a run fails iff reading the configured file raises something other than a missing file or bad JSON |
| `Cli.PipelineCountIsKeptRecords` | lab-1/src/cli/main.py:30-33 | for a decoded file, the reported count is the number of records the filter kept |
| `Cli.PipelineOkModeAverage` | lab-1/src/cli/main.py:30-33 | in OK mode a non-zero count comes with an average at least the configured threshold |
| `Cli.FallbackNumbers` | lab-1/src/data_io/data_loader.py:35-39 | the fallback values read as 3, no number, and 7 |
| `Cli.FallbackSelection` | lab-1/src/data_io/data_loader.py:35-39 | which fallback records each mode and threshold keeps |
| `Cli.FallbackStatistics` | lab-1/src/data_io/data_loader.py:33-39 | the fallback records give (2, 10, 5) in ALL mode or up to threshold 3, (1, 7, 7) up to 7, and zero above |
| `Cli.DefaultRunOnMissingFile` | lab-1/src/cli/main.py:30-33 | a run with no flags on a missing data file reports (2, 10, 5) |

## Left out

- File and JSON I/O (opening, decoding, encodings) is the `fs` parameter. A JSON document that is not a list of objects, and so fails inside the loop with an AttributeError or TypeError, is modelled as an `OtherException` outcome. The code's quirk that an empty top-level object or string gives no records is not modelled.
- `Settings.update_from_file` is not modelled. It reads a file and merges arbitrary keys into the object without checks.
- Argument parsing (`parse_arguments`), the clock, and `print` are not modelled. Flags arrive as `CliArgs`, the timestamp is a parameter, and printed lines are returned.
- Floating point is not modelled: sums and averages are exact on `real`. The `.2f` formatting rounds the exact real half-to-even. Python rounds the nearest binary float instead, so a decimal tie such as 2.675 can come out differently.
- `NumberText.ParseNumber` reads only an optional sign, then digits with at most one '.' and at least one digit. It does not accept what Python's `float()` also takes: exponents, surrounding whitespace, underscores, "inf"/"nan", or non-ASCII digits.
- `Records.Lower` lowers the ASCII letters only. Python's `str.lower()` also maps other Unicode letters.
- `Records.NormalizesToOk`: the four spellings are exact for the ASCII lowering only. Python's `str.lower()` also maps U+212A KELVIN SIGN to 'k', so `"o\u212A"` normalises to "ok" in the code but not in the model.
- `Records.IsValidCharacterization`: as a consequence, OK mode in the code also keeps records whose status is "o" followed by the Kelvin sign (or "O" followed by it). The model rejects them.
- `Records.Record.NumericValue`: a `Num` value always reads as a number. In the code, a JSON integer literal too large for a float (about 1.8e308 and above) makes `float(self.value)` raise `OverflowError`. `get_numeric_value` does not catch that (`models/records.py:17` catches only `ValueError` and `TypeError`), so it escapes the filter and `main`, and no summary is printed. The model cannot express this case, because it does not tell JSON integers from floats and has no float range.
- Values that are JSON booleans, arrays or objects are not modelled. Python treats a boolean as 1 or 0 and the others as no number. Non-string statuses are not modelled either.
- `Settings.Settings.UpdateFromArgs`: the arguments are a typed record of the three keys it reads, so other keys, and values of other types, cannot be expressed. `Path(...)` normalisation of the data path is not modelled; the string is kept as given.
- The unused `DataLoader._cache`, and `generator.py`, `run_tests.py`, `setup.py` and `__init__.py`, are not modelled.
