/** The output handler (internal/output/handler.go): a verbosity level that
    gates what is written, a list of masking patterns applied to command
    output, and the two writers the text goes to.

    Regular expressions are not modelled: `RegexEngine` stands for Go's
    `regexp` package, giving the compile error of a pattern (if any) and the
    result of `ReplaceAllString`. The writers are modelled as the sequence of
    texts written to each. Messages reach `Debug`, `Info` and `Error` already
    formatted. */
module Output {
  import opened Wrappers
  import opened Yaml
  import Interpreter

  datatype RegexEngine = RegexEngine(
    compileError: string -> Option<string>,
    replaceAll: (string, string, string) -> string)

  newtype VerbosityLevel = int

  const LevelSilent: VerbosityLevel := 0
  const LevelError: VerbosityLevel := 1
  const LevelInfo: VerbosityLevel := 2
  const LevelDebug: VerbosityLevel := 3

  const MaskText := "[MASKED]"

  /** Every pattern of `patterns` applied in turn, the first one first. */
  function MaskAll(patterns: seq<string>, s: string, replaceAll: (string, string, string) -> string): string
  {
    if |patterns| == 0 then s
    else replaceAll(patterns[|patterns| - 1], MaskAll(patterns[..|patterns| - 1], s, replaceAll), MaskText)
  }

  /** Masking with a list is masking with its first part, then with the rest. */
  lemma {:induction false} MaskAllAppend(ps: seq<string>, qs: seq<string>, s: string, replaceAll: (string, string, string) -> string)
    ensures MaskAll(ps + qs, s, replaceAll) == MaskAll(qs, MaskAll(ps, s, replaceAll), replaceAll)
    decreases |qs|
  {
    if |qs| == 0 {
      assert ps + qs == ps;
    } else {
      var init := qs[..|qs| - 1];
      assert (ps + qs)[..|ps + qs| - 1] == ps + init;
      MaskAllAppend(ps, init, s, replaceAll);
    }
  }

  /** The warning written for a pattern that does not compile. */
  function InvalidPatternWarning(pattern: string, e: string): string
  {
    "Warning: invalid mask pattern '" + pattern + "': " + e + "\n"
  }

  class Handler {
    var maskPatterns: seq<string>
    var verbosity: VerbosityLevel
    var out: seq<string>
    var err: seq<string>
    const regex: RegexEngine

    /** NewHandler: no patterns, level Info, nothing written. */
    constructor (regex: RegexEngine)
      ensures maskPatterns == [] && verbosity == LevelInfo && out == [] && err == []
      ensures this.regex == regex
    {
      maskPatterns := [];
      verbosity := LevelInfo;
      out := [];
      err := [];
      this.regex := regex;
    }

    method SetLevel(level: VerbosityLevel)
      modifies this
      ensures verbosity == level
      ensures maskPatterns == old(maskPatterns) && out == old(out) && err == old(err)
    {
      verbosity := level;
    }

    /** A pattern that compiles is appended; one that does not leaves the
        list alone and writes a warning to the error writer. */
    method AddMaskPattern(pattern: string)
      modifies this
      ensures regex.compileError(pattern).None? ==> maskPatterns == old(maskPatterns) + [pattern] && err == old(err)
      ensures regex.compileError(pattern).Some? ==>
        maskPatterns == old(maskPatterns) &&
        err == old(err) + [InvalidPatternWarning(pattern, regex.compileError(pattern).value)]
      ensures verbosity == old(verbosity) && out == old(out)
    {
      match regex.compileError(pattern)
      case Some(e) =>
        err := err + [InvalidPatternWarning(pattern, e)];
      case None =>
        maskPatterns := maskPatterns + [pattern];
    }

    /** The output with every pattern replaced by "[MASKED]", in list order. */
    function Masked(output: string): string
      reads this
    {
      MaskAll(maskPatterns, output, regex.replaceAll)
    }

    method MaskSensitiveData(output: string) returns (masked: string)
      ensures masked == Masked(output)
      ensures maskPatterns == [] ==> masked == output
    {
      masked := output;
      for i := 0 to |maskPatterns|
        invariant masked == MaskAll(maskPatterns[..i], output, regex.replaceAll)
      {
        assert maskPatterns[..i + 1][..i] == maskPatterns[..i];
        masked := regex.replaceAll(maskPatterns[i], masked, MaskText);
      }
      assert maskPatterns[..|maskPatterns|] == maskPatterns;
    }

    /** A line written at debug level. */
    static function DebugLine(message: string): string
    {
      "[DEBUG] " + message + "\n"
    }

    method Debug(message: string)
      modifies this
      ensures out == (if verbosity >= LevelDebug then old(out) + [DebugLine(message)] else old(out))
      ensures err == old(err) && maskPatterns == old(maskPatterns) && verbosity == old(verbosity)
    {
      if verbosity >= LevelDebug {
        out := out + [DebugLine(message)];
      }
    }

    method Info(message: string)
      modifies this
      ensures out == (if verbosity >= LevelInfo then old(out) + [message + "\n"] else old(out))
      ensures err == old(err) && maskPatterns == old(maskPatterns) && verbosity == old(verbosity)
    {
      if verbosity >= LevelInfo {
        out := out + [message + "\n"];
      }
    }

    method Error(message: string)
      modifies this
      ensures err == (if verbosity >= LevelError then old(err) + ["[ERROR] " + message + "\n"] else old(err))
      ensures out == old(out) && maskPatterns == old(maskPatterns) && verbosity == old(verbosity)
    {
      if verbosity >= LevelError {
        err := err + ["[ERROR] " + message + "\n"];
      }
    }

    /** Empty for no error; otherwise the error and the masked output. */
    function FormatError(e: Option<string>, output: string): (r: string)
      reads this
      ensures e.None? <==> r == ""
      ensures e.Some? ==> r == "Error: " + e.value + "\nOutput: " + Masked(output)
    {
      if e.None? then "" else "Error: " + e.value + "\nOutput: " + Masked(output)
    }

    /** A fixed message for empty output; otherwise the masked output. */
    function FormatSuccess(output: string): (r: string)
      reads this
      ensures output == "" ==> r == "Command completed successfully"
      ensures output != "" ==> r == Masked(output)
      ensures maskPatterns == [] && output != "" ==> r == output
    {
      if output == "" then "Command completed successfully" else Masked(output)
    }

    /** What PrintCommand writes at debug level: the command type, then the
        `command` and the `working_dir` of the content when they are strings. */
    static function CommandLines(cmdType: string, content: map<string, Any>): (r: seq<string>)
      ensures |r| == 1 + (if "command" in content && content["command"].Str? then 1 else 0)
                       + (if "working_dir" in content && content["working_dir"].Str? then 1 else 0)
      ensures r[0] == DebugLine("Executing command type: " + cmdType)
      ensures "command" in content && content["command"].Str? ==> r[1] == DebugLine("Command: " + content["command"].s)
      ensures "working_dir" in content && content["working_dir"].Str? ==>
        r[|r| - 1] == DebugLine("Working directory: " + content["working_dir"].s)
    {
      [DebugLine("Executing command type: " + cmdType)]
      + (if "command" in content && content["command"].Str? then [DebugLine("Command: " + content["command"].s)] else [])
      + (if "working_dir" in content && content["working_dir"].Str? then [DebugLine("Working directory: " + content["working_dir"].s)] else [])
    }

    method PrintCommand(cmdType: string, content: map<string, Any>)
      modifies this
      ensures out == (if verbosity >= LevelDebug then old(out) + CommandLines(cmdType, content) else old(out))
      ensures err == old(err) && maskPatterns == old(maskPatterns) && verbosity == old(verbosity)
    {
      if verbosity >= LevelDebug {
        Debug("Executing command type: " + cmdType);
        ghost var printed := [DebugLine("Executing command type: " + cmdType)];
        if "command" in content && content["command"].Str? {
          Debug("Command: " + content["command"].s);
          printed := printed + [DebugLine("Command: " + content["command"].s)];
        }
        assert out == old(out) + printed;
        if "working_dir" in content && content["working_dir"].Str? {
          Debug("Working directory: " + content["working_dir"].s);
          printed := printed + [DebugLine("Working directory: " + content["working_dir"].s)];
        }
        assert out == old(out) + printed;
        assert printed == CommandLines(cmdType, content);
      }
    }

    /** A success goes to Info, a failure to Error. */
    method PrintResult(result: Interpreter.CmdResult)
      modifies this
      ensures result.success ==> (
        && err == old(err)
        && out == (if verbosity >= LevelInfo then old(out) + [FormatSuccess(result.output) + "\n"] else old(out)))
      ensures !result.success ==> (
        && out == old(out)
        && err == (if verbosity >= LevelError then old(err) + ["[ERROR] " + FormatError(result.error, result.output) + "\n"] else old(err)))
      ensures maskPatterns == old(maskPatterns) && verbosity == old(verbosity)
    {
      if result.success {
        if verbosity >= LevelInfo {
          Info(FormatSuccess(result.output));
        }
      } else {
        if verbosity >= LevelError {
          Error(FormatError(result.error, result.output));
        }
      }
    }
  }
}
