/** The newer command line (internal/cli/config.go). Flag parsing is not
    modelled: the value of `-verbosity` and the positional arguments are the
    inputs. */
module CliConfig {
  import opened Wrappers
  import opened Strings
  import KeyValue
  import Output

  datatype Verbosity = Silent | Error | Info | Debug

  function VerbosityName(v: Verbosity): string
  {
    match v
    case Silent => "SILENT"
    case Error => "ERROR"
    case Info => "INFO"
    case Debug => "DEBUG"
  }

  datatype Config = Config(
    verbosity: Verbosity,
    taskName: string,
    taskArgs: map<string, string>,
    maskPatterns: seq<string>)

  const DefaultMaskPatterns: seq<string> := ["password=.*", "secret=.*", "key=.*", "token=.*"]

  const Usage := "usage: kontraktor run <taskname> [args...]"

  /** The verbosity level a flag value names, ignoring case. */
  function ParseVerbosity(flag: string): (r: Option<Verbosity>)
    ensures r.Some? <==> ToUpper(flag) in {"SILENT", "ERROR", "INFO", "DEBUG"}
    ensures r.Some? ==> VerbosityName(r.value) == ToUpper(flag)
  {
    match ToUpper(flag)
    case "SILENT" => Some(Silent)
    case "ERROR" => Some(Error)
    case "INFO" => Some(Info)
    case "DEBUG" => Some(Debug)
    case _ => None
  }

  /** ParseFlags over an explicit verbosity flag and positional arguments.
      The flag's default (`INFO` when `-verbosity` is not given) belongs to
      the `flag` package and is not modelled: the caller passes the value. */
  method ParseFlags(verbosityFlag: string, args: seq<string>) returns (r: Result<Config, string>)
    ensures ParseVerbosity(verbosityFlag).None? ==> r == Err("invalid verbosity level: " + verbosityFlag)
    ensures ParseVerbosity(verbosityFlag).Some? && (|args| < 2 || args[0] != "run") ==> r == Err(Usage)
    ensures r.Ok? <==> (
      && ParseVerbosity(verbosityFlag).Some?
      && |args| >= 2 && args[0] == "run"
      && forall i :: 2 <= i < |args| ==> KeyValue.IsPair(args[i]))
    ensures r.Ok? ==> (
      && r.value.verbosity == ParseVerbosity(verbosityFlag).value
      && r.value.taskName == args[1]
      && r.value.taskArgs == KeyValue.Assigned(args[2..])
      && r.value.maskPatterns == DefaultMaskPatterns)
    ensures r.Err? && ParseVerbosity(verbosityFlag).Some? && |args| >= 2 && args[0] == "run" ==>
      exists i :: 2 <= i < |args| && !KeyValue.IsPair(args[i])
        && r.error == "invalid argument format: " + args[i] + " (expected key=value)"
        && forall j :: 2 <= j < i ==> KeyValue.IsPair(args[j])
  {
    var verbosity := ParseVerbosity(verbosityFlag);
    if verbosity.None? {
      return Err("invalid verbosity level: " + verbosityFlag);
    }
    if |args| < 2 || args[0] != "run" {
      return Err(Usage);
    }
    var taskArgs := KeyValue.ParseArgs(args[2..]);
    if taskArgs.Err? {
      ghost var i :| 0 <= i < |args[2..]| && taskArgs.error == args[2..][i] && !KeyValue.IsPair(args[2..][i])
                     && forall j :: 0 <= j < i ==> KeyValue.IsPair(args[2..][j]);
      assert args[i + 2] == args[2..][i];
      assert forall j :: 2 <= j < i + 2 ==> KeyValue.IsPair(args[j]) by {
        forall j | 2 <= j < i + 2 ensures KeyValue.IsPair(args[j]) {
          assert args[j] == args[2..][j - 2];
        }
      }
      return Err("invalid argument format: " + taskArgs.error + " (expected key=value)");
    }
    assert forall i :: 2 <= i < |args| ==> args[i] == args[2..][i - 2];
    return Ok(Config(verbosity.value, args[1], taskArgs.value, DefaultMaskPatterns));
  }

  function LevelOf(v: Verbosity): (level: Output.VerbosityLevel)
    ensures v == Silent <==> level == Output.LevelSilent
    ensures v == Error <==> level == Output.LevelError
    ensures v == Info <==> level == Output.LevelInfo
    ensures v == Debug <==> level == Output.LevelDebug
  {
    match v
    case Silent => Output.LevelSilent
    case Error => Output.LevelError
    case Info => Output.LevelInfo
    case Debug => Output.LevelDebug
  }

  /** The patterns that compile, in list order. */
  function Compiling(patterns: seq<string>, regex: Output.RegexEngine): (r: seq<string>)
    ensures |r| <= |patterns|
  {
    if |patterns| == 0 then []
    else
      var rest := Compiling(patterns[..|patterns| - 1], regex);
      if regex.compileError(patterns[|patterns| - 1]).None? then rest + [patterns[|patterns| - 1]] else rest
  }

  /** The patterns kept are exactly those that compile. */
  lemma {:induction false} CompilingMeaning(patterns: seq<string>, regex: Output.RegexEngine)
    ensures forall p :: p in Compiling(patterns, regex) <==> p in patterns && regex.compileError(p).None?
    decreases |patterns|
  {
    if |patterns| > 0 {
      var n := |patterns| - 1;
      CompilingMeaning(patterns[..n], regex);
      assert patterns == patterns[..n] + [patterns[n]];
    }
  }

  /** When every pattern compiles, all are kept, in order. */
  lemma {:induction false} CompilingKeepsAll(patterns: seq<string>, regex: Output.RegexEngine)
    requires forall i :: 0 <= i < |patterns| ==> regex.compileError(patterns[i]).None?
    ensures Compiling(patterns, regex) == patterns
    decreases |patterns|
  {
    if |patterns| > 0 {
      var n := |patterns| - 1;
      CompilingKeepsAll(patterns[..n], regex);
      assert patterns == patterns[..n] + [patterns[n]];
    }
  }

  /** The warnings for the patterns that do not compile, in list order. */
  function Warnings(patterns: seq<string>, regex: Output.RegexEngine): seq<string>
  {
    if |patterns| == 0 then []
    else
      var rest := Warnings(patterns[..|patterns| - 1], regex);
      var p := patterns[|patterns| - 1];
      match regex.compileError(p)
      case Some(e) => rest + [Output.InvalidPatternWarning(p, e)]
      case None => rest
  }

  /** Each pattern is either kept or warned about, never both: the kept
      patterns and the warnings together number the patterns, and there is
      no warning exactly when every pattern compiles. */
  lemma {:induction false} KeptOrWarned(patterns: seq<string>, regex: Output.RegexEngine)
    ensures |Compiling(patterns, regex)| + |Warnings(patterns, regex)| == |patterns|
    ensures Warnings(patterns, regex) == [] <==> forall i :: 0 <= i < |patterns| ==> regex.compileError(patterns[i]).None?
    decreases |patterns|
  {
    if |patterns| > 0 {
      var n := |patterns| - 1;
      KeptOrWarned(patterns[..n], regex);
      assert forall i :: 0 <= i < n ==> patterns[..n][i] == patterns[i];
    }
  }

  /** CreateOutputHandler: a new handler at the configured level, holding
      the configured patterns that compile, in order, with one warning on
      the error writer for each pattern that does not. */
  method CreateOutputHandler(config: Config, regex: Output.RegexEngine) returns (handler: Output.Handler)
    ensures fresh(handler)
    ensures handler.verbosity == LevelOf(config.verbosity)
    ensures handler.maskPatterns == Compiling(config.maskPatterns, regex)
    ensures handler.err == Warnings(config.maskPatterns, regex)
    ensures handler.out == [] && handler.regex == regex
  {
    handler := new Output.Handler(regex);
    handler.SetLevel(LevelOf(config.verbosity));
    for i := 0 to |config.maskPatterns|
      invariant handler.maskPatterns == Compiling(config.maskPatterns[..i], regex)
      invariant handler.err == Warnings(config.maskPatterns[..i], regex)
      invariant handler.verbosity == LevelOf(config.verbosity) && handler.out == []
    {
      assert config.maskPatterns[..i + 1][..i] == config.maskPatterns[..i];
      handler.AddMaskPattern(config.maskPatterns[i]);
    }
    assert config.maskPatterns[..|config.maskPatterns|] == config.maskPatterns;
  }

  /** The default patterns all compile under Go's regexp, so a handler built
      from a parsed configuration masks with all four, in order. */
  lemma DefaultPatternsKept(regex: Output.RegexEngine)
    requires forall p :: p in DefaultMaskPatterns ==> regex.compileError(p).None?
    ensures Compiling(DefaultMaskPatterns, regex) == DefaultMaskPatterns
  {
    forall i | 0 <= i < |DefaultMaskPatterns|
      ensures regex.compileError(DefaultMaskPatterns[i]).None?
    {
      assert DefaultMaskPatterns[i] in DefaultMaskPatterns;
    }
    CompilingKeepsAll(DefaultMaskPatterns, regex);
  }

  /** The level name is matched without regard to case: a flag names the
      same level as its upper-case form. */
  lemma VerbosityIgnoresCase(flag: string)
    ensures ParseVerbosity(flag) == ParseVerbosity(ToUpper(flag))
  {
    ToUpperIdempotent(flag);
  }

  /** Each level's name is accepted and names that level. */
  lemma VerbosityNameParses(v: Verbosity)
    ensures ParseVerbosity(VerbosityName(v)) == Some(v)
  {
    match v
    case Silent => ToUpperFixed("SILENT");
    case Error => ToUpperFixed("ERROR");
    case Info => ToUpperFixed("INFO");
    case Debug => ToUpperFixed("DEBUG");
  }
}
