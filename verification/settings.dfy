/** Process-wide configuration (config/settings.py). */
module Settings {
  import opened Wrappers

  /** A snapshot of the four settings fields. */
  datatype Config = Config(dataPath: string, encoding: string, defaultThreshold: real, filterMode: string)

  /** The values a fresh `Settings` object starts with. */
  const Defaults: Config := Config("data/sample.json", "utf-8", 0.0, "OK")

  /** The keys `update_from_args` looks at; `Some` means the key is present. */
  datatype SettingsArgs = SettingsArgs(dataPath: Option<string>, threshold: Option<real>, filterMode: Option<string>)

  /** The configuration after `update_from_args(args)`: each present key overwrites its field. */
  function ApplyArgs(c: Config, args: SettingsArgs): (r: Config)
    ensures r.encoding == c.encoding
    ensures args == SettingsArgs(None, None, None) ==> r == c
  {
    Config(args.dataPath.GetOr(c.dataPath), c.encoding,
           args.threshold.GetOr(c.defaultThreshold), args.filterMode.GetOr(c.filterMode))
  }

  class Settings {
    var dataPath: string
    var encoding: string
    var defaultThreshold: real
    var filterMode: string

    function Snapshot(): Config
      reads this
    {
      Config(dataPath, encoding, defaultThreshold, filterMode)
    }

    constructor ()
      ensures Snapshot() == Defaults
      ensures dataPath == "data/sample.json" && encoding == "utf-8"
      ensures defaultThreshold == 0.0 && filterMode == "OK"
    {
      dataPath := "data/sample.json";
      encoding := "utf-8";
      defaultThreshold := 0.0;
      filterMode := "OK";
    }

    method UpdateFromArgs(args: SettingsArgs)
      modifies this
      ensures Snapshot() == ApplyArgs(old(Snapshot()), args)
      ensures args.dataPath.Some? ==> dataPath == args.dataPath.value
      ensures args.dataPath.None? ==> dataPath == old(dataPath)
      ensures args.threshold.Some? ==> defaultThreshold == args.threshold.value
      ensures args.threshold.None? ==> defaultThreshold == old(defaultThreshold)
      ensures args.filterMode.Some? ==> filterMode == args.filterMode.value
      ensures args.filterMode.None? ==> filterMode == old(filterMode)
      ensures encoding == old(encoding)
    {
      if args.dataPath.Some? {
        dataPath := args.dataPath.value;
      }
      if args.threshold.Some? {
        defaultThreshold := args.threshold.value;
      }
      if args.filterMode.Some? {
        filterMode := args.filterMode.value;
      }
    }
  }

  /** Applying the same arguments twice leaves the configuration as applying them once. */
  lemma ApplyArgsIdempotent(c: Config, args: SettingsArgs)
    ensures ApplyArgs(ApplyArgs(c, args), args) == ApplyArgs(c, args)
  {
  }

  /** A present key sets its field to the given value, whatever the field held before. */
  lemma ApplyArgsOverwrites(c: Config, args: SettingsArgs)
    ensures args.dataPath.Some? ==> ApplyArgs(c, args).dataPath == args.dataPath.value
    ensures args.threshold.Some? ==> ApplyArgs(c, args).defaultThreshold == args.threshold.value
    ensures args.filterMode.Some? ==> ApplyArgs(c, args).filterMode == args.filterMode.value
  {
  }
}
