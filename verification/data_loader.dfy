/** Turning the decoded input file into records (data_io/data_loader.py). */
module DataLoader {
  import opened Wrappers
  import opened Records
  import opened Settings

  /** One decoded JSON object, seen through the three keys the loader reads;
      `None` means the key is absent. */
  datatype RawItem = RawItem(status: Option<string>, upperStatus: Option<string>, value: Option<Value>)

  /** What opening and decoding a file gives: the objects, or the exception raised. */
  datatype ReadOutcome =
    | Decoded(items: seq<RawItem>)
    | FileNotFound
    | JsonDecodeError
    | OtherException(name: string)

  /** The file system as the loader sees it: what reading a path with an encoding gives. */
  type FileSystem = (string, string) -> ReadOutcome

  /** One record per raw object: status from "status", else "STATUS", else "unknown";
      value from "value" (kept as it is, null included), else 0. */
  function ToRecord(item: RawItem): (r: Record)
    ensures item.status.Some? ==> r.status == item.status.value
    ensures item.status.None? && item.upperStatus.Some? ==> r.status == item.upperStatus.value
    ensures item.status.None? && item.upperStatus.None? ==> r.status == "unknown"
    ensures item.value.Some? ==> r.value == item.value.value
    ensures item.value.None? ==> r.value == Num(0.0)
  {
    Record(item.status.GetOr(item.upperStatus.GetOr("unknown")), item.value.GetOr(Num(0.0)))
  }

  function ParsedRecords(raw: seq<RawItem>): (records: seq<Record>)
    ensures |records| == |raw|
  {
    seq(|raw|, i requires 0 <= i < |raw| => ToRecord(raw[i]))
  }

  method ParseRecords(raw: seq<RawItem>) returns (records: seq<Record>)
    ensures |records| == |raw|
    ensures forall i :: 0 <= i < |raw| ==> records[i] == ToRecord(raw[i])
    ensures records == ParsedRecords(raw)
  {
    records := [];
    var k := 0;
    while k < |raw|
      invariant 0 <= k <= |raw|
      invariant |records| == k
      invariant forall i :: 0 <= i < k ==> records[i] == ToRecord(raw[i])
    {
      var item := raw[k];
      var status := if item.status.Some? then item.status.value
                    else if item.upperStatus.Some? then item.upperStatus.value
                    else "unknown";
      var value := if item.value.Some? then item.value.value else Num(0.0);
      records := records + [Record(status, value)];
      k := k + 1;
    }
  }

  /** The records used when the input file is missing or is not valid JSON. */
  function FallbackData(): seq<Record> {
    [Record("ok", Str("3")), Record("bad", Str("x")), Record("ok", Num(7.0))]
  }

  /** What `load_records` gives: the parsed records, the fallback for a missing
      file or bad JSON, or the exception that escapes. */
  function Load(filePath: Option<string>, config: Config, fs: FileSystem): Result<seq<Record>, string> {
    match fs(filePath.GetOr(config.dataPath), config.encoding)
    case Decoded(items) => Success(ParsedRecords(items))
    case FileNotFound => Success(FallbackData())
    case JsonDecodeError => Success(FallbackData())
    case OtherException(name) => Failure(name)
  }

  method LoadRecords(filePath: Option<string>, config: Config, fs: FileSystem)
    returns (result: Result<seq<Record>, string>)
    ensures result == Load(filePath, config, fs)
    ensures var read := fs(filePath.GetOr(config.dataPath), config.encoding);
            && (read.Decoded? ==> result == Success(ParsedRecords(read.items)))
            && (read.FileNotFound? || read.JsonDecodeError? ==> result == Success(FallbackData()))
            && (read.OtherException? ==> result == Failure(read.name))
  {
    var path := if filePath.None? then config.dataPath else filePath.value;
    var read := fs(path, config.encoding);
    match read {
      case Decoded(items) =>
        var records := ParseRecords(items);
        result := Success(records);
      case FileNotFound =>
        result := Success(FallbackData());
      case JsonDecodeError =>
        result := Success(FallbackData());
      case OtherException(name) =>
        result := Failure(name);
    }
  }

  // ---------------------------------------------------------------------------
  // Properties of loading

  /** Loading never fails for a file that is missing or malformed, and fails
      exactly when some other exception is raised. */
  lemma LoadFailsOnlyOnOtherExceptions(filePath: Option<string>, config: Config, fs: FileSystem)
    ensures Load(filePath, config, fs).Failure?
        <==> fs(filePath.GetOr(config.dataPath), config.encoding).OtherException?
  {
  }

  /** Without a path, the configured data path is read. */
  lemma LoadDefaultsToConfiguredPath(config: Config, fs: FileSystem)
    ensures Load(None, config, fs) == Load(Some(config.dataPath), config, fs)
  {
  }

  lemma ParseMissingFieldsExample()
    ensures ParsedRecords([RawItem(Some("ok"), None, Some(Num(10.0))), RawItem(None, None, Some(Num(20.0))),
                           RawItem(Some("bad"), None, None), RawItem(None, None, None)])
         == [Record("ok", Num(10.0)), Record("unknown", Num(20.0)), Record("bad", Num(0.0)),
             Record("unknown", Num(0.0))]
  {
  }

  lemma ParseVariousFormatsExample()
    ensures ParsedRecords([RawItem(Some("ok"), None, Some(Num(10.0))), RawItem(None, Some("BAD"), Some(Str("20"))),
                           RawItem(Some("error"), None, Some(Num(30.5))), RawItem(Some("ok"), None, Some(Null))])
         == [Record("ok", Num(10.0)), Record("BAD", Str("20")), Record("error", Num(30.5)), Record("ok", Null)]
  {
  }
}
