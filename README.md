# kontraktor, modelled in Dafny

kontraktor runs named tasks from a YAML manifest (`.ktr.yml`). A task has a
description, declared arguments, an environment and a list of steps. A step
is either a shell command or a call of another task. A manifest may import
other manifests, fetched from a local path, an HTTP(S) URL or a git repository.

The repository holds two generations of the program, and the model covers both:

- The **older command-line program** (`cmd/kontraktor/main.go`).
  - It parses `kontraktor run <task> [key=value]...`.
  - It runs a task with `executeTaskWithArgs`. That function marks the task in a
    shared `visited` map, merges the arguments (caller's, given, declared
    defaults) and the environment (manifest's, caller's, task's, Azure Key
    Vault secrets).
  - It then runs the steps in order. A `task` or `uses` step recurses. Any
    other step substitutes `${name}` and `${secrets.name}` and runs in bash,
    with the parent's environment merged in and every environment value masked
    in the printed output.
  - The two cycle walkers `ExecuteTask` (`internal/taskfile/exec.go` and
    `kontraktor/internal/taskfile/exec.go`) belong to this generation.
- The **newer, interpreter-based generation**:
  - the variable substitution engine (`internal/vars`);
  - the environment validator (`internal/env`);
  - the CLI configuration (`internal/cli`) and the output handler
    (`internal/output`);
  - the task executor (`internal/task`);
  - the interpreter registry, the task context and the bash, docker and task
    interpreters (`internal/taskfile/interpreter`);
  - the secret manager (`internal/secret`) and the Azure Key Vault fetch
    (`kontraktor/internal/vault`).
- **Manifest loading**: both versions of `ParseTaskfile`, their import
  classification, and step-entry decoding.

How the source's forms are kept:

- Code that updates state in place is modelled as classes:
  - the `visited` map (`CycleWalk.Marks`);
  - `TaskContext`, `Registry`, the output `Handler` and the secret `Manager`;
  - the `TaskCmd` record being decoded.
- Code with loops is modelled as methods with loop invariants. Each method is
  proved equal to a specification function, and the properties are lemmas
  about those functions.
- Go's map iteration order is unspecified. The model makes it an explicit
  ordering and proves only what holds for every ordering, or states the
  result in terms of the ordering.
- Processes, the network, the file system, the Azure SDK and regular
  expressions are parameters of the model.
- Two loops of the source can run forever: the substitution loop and
  recursive imports. The model gives them a `fuel` bound and answers
  `OutOfFuel` when it runs out.
- The operations run the code as it is written, the defects under
  "## Findings" included. The map substitution, `TaskContext.Substitute` and
  the bash interpreter use the substitution loop as written
  (`Vars.SubstituteAsWritten`). The shell steps mask their output as written,
  the empty value included (`ShellCommand.MaskedAsWritten`). Manifest loading
  panics when it merges a task into a file without a `tasks:` section. Each
  corrected twin (`Vars.Substitute`, `ShellCommand.Masked`,
  `TaskfileParse.MergedAllocating`) is proved on its own and related to the
  code as written.

Two details of the substitution engine, as the code has them:

- **Escape form.** An escaped token is written `${$NAME}`
  (internal/vars/main.go:96-98). A pass turns it into `${NAME}`, and since the
  text changed, the next pass expands it, so no literal `${NAME}` survives
  (`Vars.EscapeExpandedNextPass`).
- **Substitution error.** The loop has no bound on the number of passes, and
  its error, "undefined variables found in: ...", quotes the whole remaining
  text rather than naming one variable (internal/vars/main.go:115-118,
  `Vars.Conclude`).

## Model

| member | source | states |
|---|---|---|
| Strings.SplitFirst | cmd/kontraktor/main.go:31 | `strings.SplitN(s, sep, 2)`: none exactly when `sep` does not occur; otherwise the two parts rejoin to `s` and the first part holds no earlier occurrence |
| Strings.IndexOf | internal/taskfile/import.go:103 | the first occurrence of a separator: it is there, no earlier one is, and none means the text does not contain it |
| Strings.ToUpper | internal/cli/config.go:45 | upper-casing keeps the length |
| Strings.TrimSpaceMeaning | internal/taskfile/interpreter/bash.go:76 | the trimmed output is a slice of the command's output with only white space before and after it, and it neither starts nor ends with white space |
| Strings.TrimLeftMeaning | internal/taskfile/interpreter/bash.go:76 | only a prefix of white space is removed, and the result does not start with white space |
| Strings.TrimRightMeaning | internal/taskfile/interpreter/bash.go:76 | only a suffix of white space is removed, and the result does not end with white space |
| Strings.NatToString | cmd/kontraktor/main.go:263 | `%d` of a natural number is a non-empty string of decimal digits |
| Strings.ParseNatToString | cmd/kontraktor/main.go:263 | the decimal text of a number reads back as that number |
| Collections.SomeOrder | internal/secret/manager.go:34 | a `range` loop over a map visits every key exactly once, in some order |
| Collections.Overlay | cmd/kontraktor/main.go:165-171 | copying `src` into `dst` key by key gives `dst` overridden by `src` |
| Collections.AddAbsent | internal/taskfile/taskfile.go:123-127 | copying only the keys `dst` lacks gives `src` overridden by `dst`, so existing entries win |
| Yaml.FormatAll | cmd/kontraktor/main.go:223-225 | stringifying argument values keeps the keys and formats each value |
| EnvValidator.ValidateName | internal/env/validator.go:52-72 | a name is accepted exactly when it matches `[a-zA-Z_][a-zA-Z0-9_]*` and its upper-case form is not reserved; each rejection carries the name and the right reason, with the empty name reported first |
| EnvValidator.ValidateValue | internal/env/validator.go:75-85 | a value is accepted exactly when it holds no NUL; the error carries an empty name |
| EnvValidator.ContainsNul | internal/env/validator.go:77 | true exactly when some rune is NUL |
| EnvValidator.TailMatches | internal/env/validator.go:57 | true exactly when every rune is a letter, a digit or `_` |
| EnvValidator.ValidateMap | internal/env/validator.go:88-98 | succeeds exactly when every name and value validates; an error is that of some entry |
| EnvValidator.UpperCaseNamesAccepted | internal/env/validator.go:52-72 | a POSIX name without lower-case letters that is not reserved is accepted, as `FOO`, `FOO_BAR` and `FOO123` are in internal/env/validator_test.go |
| EnvValidator.RejectedNames | internal/env/validator_test.go:20-23 | `1FOO`, `FOO-BAR` and `FOO BAR` are refused as bad names |
| EnvValidator.ReservedNamesIgnoreCase | internal/env/validator.go:64-69 | `PATH` and `path` are both refused as reserved |
| EnvValidator.ValueExamples | internal/env/validator_test.go:49-54 | empty values, spaces and `@` are accepted; a NUL is refused |
| Vars.NewContext | internal/vars/main.go:35-42 | a new context has empty environment, secrets and arguments |
| Vars.GetVariable | internal/vars/main.go:45-64 | lookup fails exactly when the name is in none of the three maps; otherwise the environment wins over the secrets, which win over the arguments, each tagged with its source |
| Vars.CloseIndexMeaning | internal/vars/main.go:74 | the index found holds the first `}` of the text, and none is found only when the text has no `}` |
| Vars.LeadingTokenMeaning | internal/vars/main.go:74 | a token found at the front is `${` + a non-empty name without `}` + `}` |
| Vars.LeadingTokenOf | internal/vars/main.go:74 | the token `${name}` at the front is found with exactly that name |
| Vars.PassOfToken | internal/vars/main.go:91-107 | a pass replaces a leading token by its replacement and continues after it |
| Vars.PassUnescapes | internal/vars/main.go:96-98 | within a pass, `${$X}` becomes `${X}` |
| Vars.PassKeepsUndefined | internal/vars/main.go:101-104 | within a pass, a token with an undefined name is left as it is |
| Vars.PassFixes | internal/vars/main.go:91-107 | a pass in which every token maps to itself changes nothing |
| Vars.PassKeepsToken | internal/vars/main.go:91-107 | a leading token put back as it was, followed by text the pass keeps, leaves the text unchanged |
| Vars.PassKeepsRune | internal/vars/main.go:91-107 | a leading rune that starts no token, followed by text the pass keeps, leaves the text unchanged |
| Vars.PassPlain | internal/vars/main.go:74-107 | text without a `$` starts no token: a pass copies it and carries on, and it adds no token |
| Vars.PlainFixed | internal/vars/main.go:74-107 | a text without a `$` has no token and a pass leaves it unchanged |
| Vars.TokenAlone | internal/vars/main.go:74-107 | a text that is one token has a token, and a pass gives that token's replacement |
| Vars.ReplacementOfDefined | internal/vars/main.go:99-104 | an unescaped name defined in the environment is replaced by its value |
| Vars.TokenFreeFixed | internal/vars/main.go:86-88 | a pass leaves a token-free text unchanged |
| Vars.Conclude | internal/vars/main.go:115-120 | the result is returned exactly when no token remains; otherwise the error quotes the remaining text |
| Vars.RepeatAsWrittenStops | internal/vars/main.go:84-113 | for any pass, the loop as written stops only on a text without tokens or on the original input |
| Vars.RepeatAsWrittenStuck | internal/vars/main.go:110 | for any pass, a text with tokens that the pass keeps and that is not the input keeps the loop as written running for every fuel |
| Vars.RepeatSettles | internal/vars/main.go:84-113 | for any pass, the corrected loop stops on a text without tokens or one the pass keeps, reached by at most `fuel` passes |
| Vars.RepeatFuelMonotone | internal/vars/main.go:84 | for any pass, more fuel never changes a finished answer of the corrected loop |
| Vars.RepeatAgreesOnSuccess | internal/vars/main.go:110 | for any pass, where the loop as written ends without tokens the corrected loop ends on the same text |
| Vars.RepeatStuckAfterOne | internal/vars/main.go:84-113 | for any pass, a first pass to a different text that the pass keeps and that has tokens: the corrected loop ends there, the loop as written never ends |
| Vars.RepeatTwoPasses | internal/vars/main.go:84-113 | for any pass, two passes that each change the text and end without tokens give that text in both loops |
| Vars.SubstituteAsWritten | internal/vars/main.go:79-121 | the loop as the source writes it (exit test against the original input) equals its specification function |
| Vars.AsWrittenStopsOnInput | internal/vars/main.go:110 | the loop as written stops only on a token-free text or on the original input |
| Vars.AsWrittenErrorQuotesInput | internal/vars/main.go:110-118 | when the loop as written reports an error, the error quotes the original input |
| Vars.AsWrittenStuck | internal/vars/main.go:110 | a text with tokens that a pass no longer changes, and that is not the input, keeps the loop as written running forever |
| Vars.Substitute | internal/vars/main.go:79-121 | the corrected loop (stop when a pass changes nothing) equals its specification function |
| Vars.LoopSettles | internal/vars/main.go:84-113 | the corrected loop ends on a token-free text or on one that a pass no longer changes, reached by some number of passes |
| Vars.SubstitutedMeaning | internal/vars/main.go:115-120 | on success the result has no token and is some iterate of the passes; on error the error quotes an iterate that still has tokens and that a pass no longer changes |
| Vars.LoopFuelMonotone | internal/vars/main.go:84 | more fuel never changes a finished answer |
| Vars.AsWrittenSuccessAgrees | internal/vars/main.go:110 | where the loop as written ends token-free, the corrected loop gives the same text |
| Vars.SubstituteAgreesOnSuccess | internal/vars/main.go:110-120 | where the source succeeds, the corrected substitution gives the same result |
| Vars.TokenFreeInput | internal/vars/main.go:86-88 | an input without tokens is returned unchanged by both loops |
| Vars.UnknownTokensFail | internal/vars/main.go:101-118 | an input whose tokens are all undefined fails in both loops, quoting the input |
| Vars.ResolvedInTwoPasses | internal/vars/main.go:84-113 | a text that two passes resolve, each changing it, comes out of both loops as the second pass left it |
| Vars.NestedResolution | internal/vars/main.go:84-113 | with FOO = `${BAR}` and BAR = `baz` (any two names, any value without `$`), `${FOO}` becomes `baz` in two passes, in both loops |
| Vars.EscapeExpandedNextPass | internal/vars/main.go:96-98 | `${$A}` with A defined (any name, any value without `$`) comes out as A's value in both loops, because the unwrapped token is expanded by the next pass |
| Vars.PassesWithUnknown | internal/vars/main.go:91-107 | with A = `a` and U undefined, one pass turns `${A}${U}` into `a${U}`, which still has a token and which a further pass keeps |
| Vars.StuckAfterOnePass | internal/vars/main.go:84-120 | a text whose first pass gives a different text with tokens that the pass keeps: the corrected loop reports that text, the loop as written never stops |
| Vars.UnresolvedAfterProgress | internal/vars/main.go:110 | `${A}${U}` never finishes in the loop as written, for every fuel, while the corrected loop reports `a${U}` |
| Vars.RepeatTwoCycle | internal/vars/main.go:84-113 | for any pass that swaps two texts with tokens, the corrected loop never stops, while the loop as written stops on the second pass, back at the input |
| Vars.TwoCycleDiffers | internal/vars/main.go:84-120 | two texts with tokens that a pass swaps: the loop as written reports the input as undefined, the corrected loop never stops |
| Vars.MutualReferenceDiffers | internal/vars/main.go:84-120 | with A = `${B}` and B = `${A}` (any two names), `${A}` is reported undefined by the loop as written and never finishes in the corrected loop |
| Vars.MapFailureSticks | internal/vars/main.go:127-130 | once a prefix of the keys has failed, the later keys do not change the answer |
| Vars.MapOutcomeMeaning | internal/vars/main.go:124-134 | on success the keys are those of the order and each value is its key's outcome; when every value succeeds the map does; a failure comes from some key, and an error names that key |
| Vars.SubstituteMap | internal/vars/main.go:124-134 | the loop, which substitutes each value with the loop as written, returns the order it visited the keys in, a listing of the input's keys, and its answer equals the map substitution over that order |
| Vars.SubstitutedMapMeaning | internal/vars/main.go:124-134 | on success the keys are the input's and each value is its substitution by the loop as written; when every value substitutes the map does; a failure comes from some value; an error names its key and quotes that key's whole value |
| KeyValue.ParseArgs | cmd/kontraktor/main.go:30-36 | succeeds exactly when every argument holds `=`; the map is the arguments' assignments; an error names the first argument without `=` |
| KeyValue.SplitsAtFirstEquals | internal/cli/config.go:67-72 | `key=value` with `=` absent from the key splits back into that key and value, even if the value holds `=` |
| KeyValue.AssignedKeys | cmd/kontraktor/main.go:30-36 | the keys of the map are exactly the keys of the arguments |
| KeyValue.AssignedLastWins | cmd/kontraktor/main.go:35 | a key gets the value of its last occurrence |
| KeyValue.LaterDuplicateOverrides | internal/cli/config.go:72 | `x=1 x=2` gives x = 2 |
| CliConfig.ParseVerbosity | internal/cli/config.go:45-56 | a verbosity is accepted exactly when its upper-case form is SILENT, ERROR, INFO or DEBUG, and is that level |
| CliConfig.ParseFlags | internal/cli/config.go:34-84 | the error for a bad verbosity, the usage error, and the first bad argument; on success the level, the task name, the arguments' assignments and the four default mask patterns; success exactly when all checks pass |
| CliConfig.LevelOf | internal/cli/config.go:91-100 | each verbosity maps to its own output level, one to one |
| CliConfig.CompilingMeaning | internal/cli/config.go:103-105 | the patterns kept are exactly those that compile |
| CliConfig.CompilingKeepsAll | internal/cli/config.go:103-105 | when every pattern compiles, all are kept, in order |
| CliConfig.CreateOutputHandler | internal/cli/config.go:87-108 | the new handler has the configured level and the compiling patterns, in order, and its error writer holds one warning per pattern that does not compile, in order |
| CliConfig.KeptOrWarned | internal/output/handler.go:60-68 | each configured pattern is either kept or warned about, never both; there is no warning exactly when every pattern compiles |
| CliConfig.DefaultPatternsKept | internal/cli/config.go:76-81 | when the four defaults compile, the handler keeps all four in order |
| CliConfig.VerbosityIgnoresCase | internal/cli/config.go:45 | a flag names the same level as its upper-case form |
| CliConfig.VerbosityNameParses | internal/cli/config.go:45-53 | each level's name is accepted and names that level |
| Strings.ToUpperIdempotent | internal/cli/config.go:45 | upper-casing twice is upper-casing once |
| Strings.ToUpperFixed | internal/cli/config.go:45 | text whose every rune is its own upper case is unchanged |
| Output.MaskAllAppend | internal/output/handler.go:73-75 | masking with a list of patterns is masking with its first part, then with the rest |
| Output.Handler.constructor | internal/output/handler.go:35-42 | a new handler has no patterns, level Info, and nothing written |
| Output.Handler.SetLevel | internal/output/handler.go:45-47 | sets the level and nothing else |
| Output.Handler.AddMaskPattern | internal/output/handler.go:60-68 | a compiling pattern is appended; any other leaves the list alone and writes a warning |
| Output.Handler.MaskSensitiveData | internal/output/handler.go:71-77 | the patterns are applied in list order; with no patterns the output is unchanged |
| Output.Handler.Debug | internal/output/handler.go:80-84 | writes `[DEBUG]` + message only at level Debug; nothing else changes |
| Output.Handler.Info | internal/output/handler.go:87-91 | writes the message only at level Info or above |
| Output.Handler.Error | internal/output/handler.go:94-98 | writes `[ERROR]` + message to the error writer only at level Error or above |
| Output.Handler.FormatError | internal/output/handler.go:101-108 | empty exactly for no error; otherwise the error and the masked output |
| Output.Handler.FormatSuccess | internal/output/handler.go:111-116 | a fixed message for empty output, otherwise the masked output, which is the output itself when there are no patterns |
| Output.Handler.CommandLines | internal/output/handler.go:119-130 | the command type line first, then the `command` line when it is a string, then the `working_dir` line when it is a string, and no other line |
| Output.Handler.PrintCommand | internal/output/handler.go:119-130 | at level Debug the handler writes exactly those lines; below Debug it writes nothing |
| Output.Handler.PrintResult | internal/output/handler.go:132-142 | a success goes to Info as the formatted success, a failure to Error as the formatted error, each gated by the level |
| Interpreter.TaskContext.constructor | internal/taskfile/interpreter/interpreter.go:66-70 | a new context has empty variables and no task name |
| Interpreter.TaskContext.SetEnvironment | internal/taskfile/interpreter/interpreter.go:73-77 | the environment becomes the old one overridden by the given map; nothing else changes |
| Interpreter.TaskContext.SetSecrets | internal/taskfile/interpreter/interpreter.go:80-84 | the secrets become the old ones overridden by the given map; nothing else changes |
| Interpreter.TaskContext.SetArgs | internal/taskfile/interpreter/interpreter.go:87-91 | the arguments become the old ones overridden by the given map; nothing else changes |
| Interpreter.TaskContext.Substitute | internal/taskfile/interpreter/interpreter.go:94-96 | substitution over the context's own variables by the loop as written: a result has no token left, and an error quotes the whole input |
| Interpreter.FirstHandler | internal/taskfile/interpreter/interpreter.go:56-63 | the first interpreter that can handle the type: it can, no earlier one can, and none means no interpreter can |
| Interpreter.Registry.constructor | internal/taskfile/interpreter/interpreter.go:44-48 | a new registry is empty |
| Interpreter.Registry.Register | internal/taskfile/interpreter/interpreter.go:51-53 | appends at the end and keeps the existing order |
| Interpreter.Registry.GetInterpreter | internal/taskfile/interpreter/interpreter.go:56-63 | the first registered interpreter that handles the type; an error naming the type exactly when none does |
| Launch.ShapeMeaning | internal/taskfile/interpreter/bash.go:64-77 | a run succeeds exactly when the launch did not fail; a success gives a slice of the output with only white space dropped before and after it, neither starting nor ending with white space; a failure gives the output as it came, with the error |
| Launch.Entries | internal/taskfile/interpreter/bash.go:57-62 | one `K=V` entry per listed key |
| Launch.EntriesAt | internal/taskfile/interpreter/bash.go:58 | the i-th entry is the i-th key, the separator and its value |
| Launch.EntriesCover | internal/taskfile/interpreter/bash.go:57-62 | when the listing covers the map, every key's entry is present and there are as many entries as keys |
| Launch.Flags | internal/taskfile/interpreter/docker.go:47-55 | each value is preceded by its flag, two words per value |
| Launch.FlagsAt | internal/taskfile/interpreter/docker.go:48 | position 2i holds the flag and 2i+1 the i-th value |
| Launch.AppendEntries | internal/taskfile/interpreter/bash.go:57-62 | the append loop over a map adds its entries in some listing of its keys |
| Launch.AppendFlagged | internal/taskfile/interpreter/docker.go:47-55 | the append loop adds flag and entry pairs in some listing of the map's keys |
| BashInterpreter.CommandText | internal/taskfile/interpreter/bash.go:33-42 | content that is not a map is refused; otherwise the command is accepted exactly when `command` is a string, and that string is it |
| BashInterpreter.Execute | internal/taskfile/interpreter/bash.go:32-78 | the result equals the bash outcome, whose substitution is the loop as written; a successful run used an environment of exactly the context's environment entries followed by its secret entries |
| BashInterpreter.RefusedStepsLaunchNothing | internal/taskfile/interpreter/bash.go:33-48 | bad content or a failed substitution gives the same answer whatever the launcher and environment, so nothing is launched |
| BashInterpreter.ChildEnvComplete | internal/taskfile/interpreter/bash.go:54-62 | the child's environment has one entry per variable and secret, and holds `K=V` for each |
| BashInterpreter.OtherFieldsIgnored | internal/taskfile/interpreter/bash.go:39 | content fields other than `command` (including `environment`) do not change the outcome |
| DockerInterpreter.Execute | internal/taskfile/interpreter/docker.go:33-88 | the result equals the docker outcome; a successful run used exactly the argument list built from the context and the command |
| DockerInterpreter.OptionsSplit | internal/taskfile/interpreter/docker.go:44-69 | the argument list is `run --rm`, the options, the network, the image and the command, in that order |
| DockerInterpreter.ArgsLayout | internal/taskfile/interpreter/docker.go:44-69 | `run --rm` first, then the `-e` pairs, then the `-v` pairs, then the network, the image and the command words |
| DockerInterpreter.ArgsTail | internal/taskfile/interpreter/docker.go:62-69 | the image is followed by exactly the command words, and `--network N` precedes it exactly when a network is named |
| DockerInterpreter.ArgsPassEverything | internal/taskfile/interpreter/docker.go:46-60 | one `-e` for every variable, secret and step variable, and one `-v` for every volume, each with its `K=V` or `host:container` |
| DockerInterpreter.RefusedStepsLaunchNothing | internal/taskfile/interpreter/docker.go:34-41 | other content or an empty image is an error whatever the launcher, so nothing is launched |
| TaskInterpreter.Execute | internal/taskfile/interpreter/task.go:34-70 | other content and an empty name are errors; otherwise the result is the executor's for the name, the caller's arguments overridden by the step's, and a context copying the caller's environment and secrets |
| TaskInterpreter.MergedArgs | internal/taskfile/interpreter/task.go:45-51 | the merged arguments hold the step's value where it has one, the caller's otherwise, and no other name |
| DefaultRegistry.NewDefaultRegistry | internal/taskfile/interpreter/registry.go:6-16 | bash, python, docker and task, in that order, the task interpreter holding the given executor |
| DefaultRegistry.Resolutions | internal/taskfile/interpreter/registry.go:10-13 | `ktr@bash`, `python`, `docker` and `task` resolve to their interpreters, and any other type to none |
| DefaultRegistry.HandledTypesDisjoint | internal/taskfile/interpreter/registry.go:10-13 | no type is handled by two kinds of interpreter, so registration order decides nothing |
| DefaultRegistry.ShellUnhandled | internal/taskfile/interpreter/interpreter.go:62 | `shell` has no interpreter |
| TaskExecutor.FirstMissing | internal/task/task.go:49-55 | the first required argument not given: none means every required argument is given |
| TaskExecutor.Executor.constructor | internal/task/task.go:36-42 | keeps the secret manager and the interpreter |
| TaskExecutor.Executor.Execute | internal/task/task.go:45-95 | the error equals the outcome for the secrets loaded; no manager, or a missing argument, means no vault is asked; the secrets load exactly when every vault answers, a failure names a failing vault, and the loaded map holds exactly the keys some vault gives, each with the value of a vault that gives it |
| TaskExecutor.RunFromSucceeds | internal/task/task.go:76-94 | the commands succeed exactly when each one succeeds |
| TaskExecutor.FirstFailureDecides | internal/task/task.go:80-90 | the first failing command decides the error, and nothing after it counts |
| TaskExecutor.SucceedsExactly | internal/task/task.go:45-95 | a task succeeds exactly when every required argument is given, the secrets load, and every command succeeds in the context of the task's environment, the secrets and the given arguments |
| TaskExecutor.EarlyFailuresRunNothing | internal/task/task.go:49-71 | a missing argument or a secret error fails before any command, whatever the interpreter, with its own message |
| TaskExecutor.DefaultsNotApplied | internal/task/task.go:58-63 | an absent declared argument stays absent: its default is never applied |
| SecretManager.Manager.constructor | internal/secret/manager.go:19-23 | a new manager has no vaults |
| SecretManager.Manager.RegisterVault | internal/secret/manager.go:26-28 | registers or replaces the vault of that name and leaves the others |
| SecretManager.Manager.GetSecrets | internal/secret/manager.go:31-47 | succeeds exactly when every vault answers, and an error names a failing vault; on success the keys are the union of the vaults' keys and each value comes from a vault providing it |
| SecretManager.GatherStep | internal/secret/manager.go:40-43 | merging one more vault's secrets keeps exactly the keys the vaults so far give, each with the value of a vault that gives it |
| SecretManager.GatheredAll | internal/secret/manager.go:34-46 | after every vault, the keys are exactly those some vault gives, each with the value of a vault that gives it |
| SecretManager.SingleProviderValue | internal/secret/manager.go:41-43 | a key only one vault provides has that vault's value |
| AzureVault.Fetched | kontraktor/internal/vault/azure.go:56-66 | the result exists exactly when every lookup succeeds; its keys are the configured names, each with its secret's value |
| AzureVault.FetchSecrets | kontraktor/internal/vault/azure.go:56-66 | the loop equals that result, and an error is the error of some lookup |
| AzureVault.NoSecretsNoLookups | kontraktor/internal/vault/azure.go:57-65 | an empty configuration gives the empty map |
| ImportSource.SplitGitImport | internal/taskfile/import.go:103-108 | splits exactly the git imports, at the first `.git//`: the repository ends in `.git`, and it and the path rejoin to the import |
| ImportSource.SplitRoundTrip | internal/taskfile/taskfile.go:162-167 | `<prefix>.git//<rest>` splits into `<prefix>.git` and `<rest>` |
| TaskfileParse.Load | internal/taskfile/import.go:19-37 | a missing file, an unreadable or undecodable one, and one failing validation are refused; otherwise the decoded file |
| TaskfileParse.CloneAndGetFile | internal/taskfile/import.go:102-129 | a non-git import is refused; on success the clone succeeded, the path is the file inside the clone, and the current version checks it is present |
| TaskfileParse.SourceOf | internal/taskfile/import.go:42-54 | an import is classified HTTP or git only when it is one, and local exactly when it is neither |
| TaskfileParse.ImportFile | internal/taskfile/taskfile.go:115-117 | a local import is read from its own path |
| TaskfileParse.ParseTaskfile | internal/taskfile/taskfile.go:89-131 | the loading loop equals its specification function, the nil-map panic included |
| TaskfileParse.Merged | internal/taskfile/taskfile.go:122-127 | merging one import panics exactly when the file has no task map and the import brings a task; otherwise only the tasks change, every existing task is kept and every other imported task is added |
| TaskfileParse.AllocatingMergeKeepsTasks | internal/taskfile/import.go:59-64 | the corrected merge, which makes the task map first, keeps every existing task, adds every other imported task, changes nothing else, and agrees with the merge as written wherever that one does not panic |
| TaskfileParse.ImportIntoNoTasksPanics | internal/taskfile/taskfile.go:122-127 | a manifest without a `tasks:` section whose first import brings a task stops with the nil-map panic |
| TaskfileParse.ImportAllKeepsFile | internal/taskfile/import.go:59-64 | merging imports changes only the tasks, and keeps every task already present |
| TaskfileParse.RootTasksKept | internal/taskfile/taskfile.go:122-127 | a parsed manifest is the root file with tasks added, and every root task kept as it was |
| TaskfileParse.EarlierImportWins | internal/taskfile/taskfile.go:103-127 | a task of an earlier import that the file lacks is in the result with that import's definition |
| TaskfileParse.NoPartialManifest | internal/taskfile/taskfile.go:106-121 | a successful merge means every import was fetched and parsed successfully |
| TaskfileParse.SelfImportNeverFinishes | internal/taskfile/taskfile.go:118 | a file that first imports itself never finishes loading |
| TaskfileParse.ClassificationsDiffer | internal/taskfile/import.go:42-54 | the two versions classify an import differently exactly when it is both an HTTP URL and a git import |
| TaskfileParse.HttpsGitImport | internal/taskfile/import.go:42-54 | `https://h/r.git//f` is an HTTP download for the older version and a git import for the current one |
| StepDecoding.CmdRecord.constructor | internal/taskfile/cmd.go:12-17 | a new record is empty |
| StepDecoding.CmdRecord.UnmarshalYAML | internal/taskfile/cmd.go:20-46 | writing the fields pair by pair gives the decoded record and error |
| StepDecoding.CmdRecord.ApplyPairTo | internal/taskfile/cmd.go:27-41 | one pair writes `task`, `uses` or the decoded `args` as that pair prescribes; a failed `args` decoding leaves the record as it was and is returned |
| StepDecoding.MappingFields | internal/taskfile/cmd.go:25-43 | a mapping fails exactly when some `args` value fails to decode; otherwise `task`, `uses` and `args` take their last values, and other keys and `cmd` are untouched |
| StepDecoding.ScalarAndOtherNodes | internal/taskfile/cmd.go:21-24 | a scalar sets only the command; any node that is neither scalar nor mapping is an invalid entry |
| StepDecoding.UsesWithArgs | internal/taskfile/taskfile_test.go:114-136 | a `uses` with `args` entry decodes to that reusable task and those arguments |
| StepDecoding.LaterTaskKeyWins | internal/taskfile/cmd.go:26-31 | of two `task` keys, the later wins |
| CycleWalk.Walk | internal/taskfile/exec.go:7-27 | a successful walk leaves the marks it found and the task unmarked; a failed one removes no mark |
| CycleWalk.WalkSteps | internal/taskfile/exec.go:16-24 | successful steps leave the marks as they were; failed ones remove none |
| CycleWalk.Marks.constructor | cmd/kontraktor/main.go:61 | a new `visited` map is empty |
| CycleWalk.ExecuteTask | internal/taskfile/exec.go:7-27 | the walker over the shared map equals the walk, error and marks |
| CycleWalk.FailureKeepsMark | internal/taskfile/exec.go:11-15 | a failed walk leaves the task marked |
| CycleWalk.SelfReferenceFails | kontraktor/internal/taskfile/exec.go:8-10 | a task whose step names itself fails as a circular reference |
| CycleWalk.LeafSucceeds | kontraktor/internal/taskfile/exec.go:23-24 | a task following no step succeeds and ends unmarked |
| CycleWalk.LeafSteps | internal/taskfile/exec.go:16-24 | steps that follow nothing succeed and change no mark |
| CycleWalk.DiamondSucceeds | kontraktor/internal/taskfile/exec.go:23-24 | a task reached along two paths runs twice without a circular reference |
| CycleWalk.FollowTyped | internal/taskfile/exec.go:17-18 | a step is followed exactly when its type is `task` and it has a non-empty string `name`, and that name is followed |
| CycleWalk.FollowTask | kontraktor/internal/taskfile/exec.go:17 | a step is followed exactly when its `Task` is non-empty |
| CycleWalk.StepsOf | kontraktor/internal/taskfile/exec.go:12-16 | every task's steps, by name |
| CycleWalk.ExecuteTypedTask | internal/taskfile/exec.go:7-27 | the walker over typed steps equals the walk |
| CycleWalk.ExecuteManifestTask | kontraktor/internal/taskfile/exec.go:7-25 | the walker over manifest steps equals the walk |
| ShellCommand.KeptExactly | cmd/kontraktor/main.go:121-130 | a parent entry survives exactly when it is `K=V` and the task does not set `K` |
| ShellCommand.MergeWithOSEnv | cmd/kontraktor/main.go:117-135 | the merge loops give the surviving parent entries, then one `K=V` per task variable |
| ShellCommand.ChildEnvMeaning | cmd/kontraktor/main.go:117-135 | the child sees every task variable with the task's value, and only parent entries the task does not override |
| ShellCommand.MaskLine | cmd/kontraktor/main.go:100-104 | the masking loop over a line equals the masking as written, the empty value included |
| ShellCommand.MaskingAgrees | cmd/kontraktor/main.go:100-104 | when no value of the environment is empty, the masking as written is the corrected masking |
| ShellCommand.MaskedAsWrittenUnchanged | cmd/kontraktor/main.go:100-104 | as written, a line that contains no value, the empty one included, is printed as it came |
| ShellCommand.MaskedUnchanged | cmd/kontraktor/main.go:100-104 | the corrected masking prints a line that holds no non-empty value as it came |
| ShellCommand.MaskedWholeValue | cmd/kontraktor/main.go:100-104 | a line that is exactly a non-empty value is printed as `<<SENSITIVE>>` |
| ShellCommand.MaskedValueInside | cmd/kontraktor/main.go:100-104 | a non-empty value inside a line is replaced by `<<SENSITIVE>>` and the text around it is kept, by both maskings |
| ShellCommand.EmptyValueGarbles | cmd/kontraktor/main.go:100-104 | as written, an empty value puts the placeholder around every rune of every line; the corrected masking leaves the line alone |
| ShellCommand.ShellOutcome | cmd/kontraktor/main.go:77-114 | no error exactly when the pipe, start, wait and scanner all succeed; a pipe or start failure prints nothing; otherwise every output line is printed masked as the source masks it, the empty value included, even when the command fails |
| ShellCommand.RunShellCommand | cmd/kontraktor/main.go:77-114 | the method's error and printed lines equal that outcome |
| TaskRunner.FormatStepNum | cmd/kontraktor/main.go:257-266 | the loop gives the step number |
| TaskRunner.StepNumReadsBack | cmd/kontraktor/main.go:257-266 | a step number splits at `/` into two fields, the second reading back as the total and the first splitting at `.` into the path's numbers |
| TaskRunner.ArgsWithDefaultsMeaning | cmd/kontraktor/main.go:172-181 | given names keep their values, every declared name gets one, others get their stringified default; it succeeds when every declared name is given or has a default, and an error names a missing argument without a default |
| TaskRunner.FillDefaults | cmd/kontraktor/main.go:173-181 | the loop equals that filling |
| TaskRunner.WithSecretsMeaning | cmd/kontraktor/main.go:195-205 | the secrets are written exactly when every vault answers, and an error is the first failing vault's; the keys are the environment's and the secrets', and a key no vault gives keeps its value |
| TaskRunner.FetchIntoEnv | cmd/kontraktor/main.go:195-205 | the vault loop equals that writing |
| TaskRunner.ReplacePlaceholders | cmd/kontraktor/main.go:232-234 | the replacement loop equals replacing each key's token in the listing order |
| TaskRunner.SecretsSubstituted | cmd/kontraktor/main.go:236-246 | substituting secrets succeeds exactly when every vault answers |
| TaskRunner.ShellCommandText | cmd/kontraktor/main.go:231-246 | the command text loop equals argument then secret substitution |
| TaskRunner.SubstitutedAbsent | cmd/kontraktor/main.go:232-234 | a command without the token opening is unchanged by the replacements |
| TaskRunner.SecretsAbsent | cmd/kontraktor/main.go:236-246 | a command without `${` is unchanged by secret substitution |
| TaskRunner.PlainCommandRunsAsWritten | cmd/kontraktor/main.go:231-246 | a command without `${` runs as written exactly when every vault answers |
| TaskRunner.UnknownTokenKept | cmd/kontraktor/main.go:231-246 | a `${x}` whose name is neither an argument nor a secret survives both substitutions, and the command runs as written exactly when every vault answers |
| TaskRunner.Exec | cmd/kontraktor/main.go:155-254 | a successful run leaves the marks it found and the task unmarked; a failed one removes no mark |
| TaskRunner.Steps | cmd/kontraktor/main.go:207-251 | successful steps leave the marks as they were; failed ones remove none |
| TaskRunner.ExecuteTaskWithArgs | cmd/kontraktor/main.go:155-254 | the method over the shared `visited` map equals the run: error, marks and printed lines |
| TaskRunner.RunSteps | cmd/kontraktor/main.go:207-251 | the step loop equals the steps |
| TaskRunner.RunStep | cmd/kontraktor/main.go:207-251 | one step: a failure is the result of the remaining steps; a success keeps the marks and hands on to the next step |
| TaskRunner.RunCallStep | cmd/kontraktor/main.go:208-229 | a `task` or `uses` step prints its line and runs the callee; a failure is the result of the remaining steps, a success keeps the marks and hands on |
| TaskRunner.CalleeOf | cmd/kontraktor/main.go:210-225 | a `task` step runs the named task with the task's arguments; a `uses` step runs the reusable task with the step's formatted arguments over the task's |
| TaskRunner.RunShellStep | cmd/kontraktor/main.go:231-250 | a shell step substitutes the command, prints its line and runs it; a failed substitution prints nothing, a failed command is reported as `command failed` |
| TaskRunner.Prepare | cmd/kontraktor/main.go:164-205 | merging the arguments and the environment gives the preparation: the first missing argument or failing vault, or the merged maps |
| TaskRunner.EarlyStopsAgree | cmd/kontraktor/main.go:156-163 | a circular or unknown task stops the runner with the same error and marks as the cycle walker |
| TaskRunner.RunTask | cmd/kontraktor/main.go:27-66 | with well-formed arguments, the run of the named task with their assignments; otherwise nothing runs and the error names the first argument without `=` |
| TaskRunner.ExecAgreesWithWalk | cmd/kontraktor/main.go:155-163 | when every step names a task, every argument has a default and every vault answers, the runner gives the error and marks of the cycle walker |
| TaskRunner.StepsAgreeWithWalk | cmd/kontraktor/main.go:207-216 | the same for the steps of a task |
| TaskRunner.PreparedSucceeds | cmd/kontraktor/main.go:173-205 | with every argument defaulted and every vault answering, preparation succeeds |
| TaskRunner.PreparationFailureRunsNothing | cmd/kontraktor/main.go:173-205 | a missing argument or a failing vault stops the task before it prints or runs anything, leaving it marked |
| TaskRunner.ArgumentPrecedence | cmd/kontraktor/main.go:164-181 | a given argument beats the caller's, and the caller's beats the default |
| TaskRunner.EnvironmentLayers | cmd/kontraktor/main.go:182-192 | the task's environment beats the caller's, which beats the manifest's, and no other key appears |

## Left out

- Printing is modelled as lists of lines (the output handler's two writers, the runner's standard output); terminal colours and the exact bytes of `fmt` formatting are not modelled.
- `Output.Handler.Debug`, `Info` and `Error` take the message already formatted: `fmt.Fprintf` with user text as its format string (such as `Info(FormatSuccess(...))`) would expand `%` verbs, and the model does not.
- The output handler's `SetOutput` and `SetError` only swap writers and are not modelled.
- `TaskExecutor.Executor.Execute`: the output handler's messages (debug lines, `PrintCommand`, `PrintResult`) are not modelled in the executor; the handler itself is modelled in `Output`.
- Process launching (`exec.Command`, pipes, scanners, `CombinedOutput`, `git clone`) is a parameter: the bash and docker `Launcher`, the runner's `Shell`.
- Standard error of a shell step goes straight to the terminal and is not masked; the model does not capture it.
- The parent's environment (`os.Environ()`) is the parameter `osEnv`.
- Downloads, temporary files, `os.Stat`, `os.Open` and the YAML decoder are parameters of `TaskfileParse.World`; the manifest decoder's result is taken as given.
- `Validate` of the current loader is not shown in the source and is a parameter.
- `findKtrYAMLFiles` and the `-f` flag (choosing the manifest file), cobra and `flag` parsing are not modelled: the model starts from a parsed manifest and the positional arguments.
- `vault.FetchAzureSecrets` of internal/vault is not part of this model; the runner takes it as the function `World.fetch`. The source fetches again for every shell step, and the model takes each fetch of a vault to give the same answer.
- `AzureVault.FetchSecrets`: which error is reported when several lookups fail depends on Go's map order; the contract says only that it is the error of some failing lookup.
- `SecretManager.Manager.GetSecrets`: which value wins when two vaults give the same key depends on Go's map order; the contract says it is the value of some vault giving it.
- `TaskRunner.Exec`: the order in which a loop visits a map's keys is one fixed listing per key set (`World.order`); Go may visit the same keys in a different order on each loop.
- `TaskRunner.WithSecretsMeaning`: when two vaults give the same key the later vault wins, which the contract does not state.
- Regular expressions (`regexp.Compile`, `ReplaceAllString`) of the output handler are the parameter `RegexEngine`; the substitution pattern `\${([^}]+)}` is written out by hand.
- `fmt.Sprintf("%v", v)` of a YAML value is `Yaml.Format`, an uninterpreted rendering for composite values.
- The python interpreter is not modelled beyond its `CanHandle` (type `python`); it only prepends `-c script` to its argument list.
- Strings.ToUpper: maps only the ASCII letters and the two other runes whose upper case is ASCII (dotless i, long s), not Go's full Unicode case mapping; it is exact only where its result is compared with ASCII text, as `ParseVerbosity` and the reserved-name check do, and its contract states only the length.
- A Go panic is modelled as an error: `TaskfileParse.NilMapPanic` is the runtime's message, and no caller wraps it, as a panic passes through every frame; recovery is not modelled.
- The substitution loop as written and the corrected `Vars.Substitute` differ both ways: on `${A}${U}` with A = `a` and U unknown only the corrected loop stops (`Vars.UnresolvedAfterProgress`), and on A = `${B}`, B = `${A}` only the loop as written stops (`Vars.MutualReferenceDiffers`). The model runs the loop as written.
- `Vars.Substitute` and `TaskfileParse.ParseTaskfile` carry a `fuel` bound: the source loops without one, and an answer of `OutOfFuel` stands for "did not finish within that many passes or nested loads".
- `context.Context` cancellation and timeouts are not modelled.
- Map aliasing: the source passes Go maps by reference; the model copies values, which is what the source's copy loops do before each map is changed.
- `mergeWithOSEnv` fills a `seen` set that nothing reads; the model omits it.

## Findings

| source | as written | input that shows it | evidently intended | confidence | as-written member | corrected member |
|---|---|---|---|---|---|---|
| internal/vars/main.go:110 | the loop stops when a pass gives back the original input, not when a pass changes nothing | A = `a`, U undefined, input `${A}${U}`: the first pass gives `a${U}`, every later pass gives `a${U}` again, which is never the input, so the loop never ends | stop when a pass leaves the text unchanged, then report the undefined variable | not executed | Vars.UnresolvedAfterProgress | Vars.SubstitutedMeaning |
| cmd/kontraktor/main.go:100-104 | every value of the task's environment is masked, including the empty value, which every line contains | a task environment with `K` = "" and output line `ab`: `strings.ReplaceAll("ab", "", "<<SENSITIVE>>")` prints `<<SENSITIVE>>a<<SENSITIVE>>b<<SENSITIVE>>` | skip empty values, so a line holding no secret is printed unchanged | not executed | ShellCommand.EmptyValueGarbles | ShellCommand.MaskedUnchanged |
| internal/taskfile/taskfile.go:122-127 | imported tasks are written into `tf.Tasks` without making the map first (and the same at internal/taskfile/import.go:59-64) | a manifest whose only section is `imports:` naming a file with one task: the decoder leaves `Tasks` nil, and `tf.Tasks[k] = v` panics with "assignment to entry in nil map" (for the current version, if the unseen `Validate` accepts such a file) | make the task map before the first write, so the imported tasks are merged | not executed | TaskfileParse.ImportIntoNoTasksPanics | TaskfileParse.AllocatingMergeKeepsTasks |
