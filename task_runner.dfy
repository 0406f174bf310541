/** The task runner of the older command-line program (cmd/kontraktor/main.go):
    `kontraktor run <task> [key=value]...` and `executeTaskWithArgs`, which
    enters a task by marking it in a shared `visited` map, merges its
    arguments (caller's, then given, then declared defaults) and its
    environment (manifest's, caller's, task's, then Key Vault secrets), and
    runs its steps in order: a step naming a `task` or a reusable task
    (`uses`) runs that task with the merged arguments, any other step runs
    its command in bash after substituting `${name}` and `${secrets.name}`.
    The first failure stops the run; a task whose steps all succeed clears
    its mark, so a task may run several times but never inside itself.

    What the program prints is returned as a list of lines. The outside
    world is a `World`: the Key Vault fetch (`vault.FetchAzureSecrets` of
    internal/vault, which is not part of this model), the shell, the
    parent's environment, and `order`, the listing in which a loop visits
    the keys of a map. */
module TaskRunner {
  import opened Wrappers
  import opened Strings
  import opened Collections
  import opened Yaml
  import opened Manifest
  import opened CycleWalk
  import opened ShellCommand
  import KeyValue

  datatype World = World(
    fetch: AzureKeyVaultConfig -> Result<map<string, string>, string>,
    shell: Shell,
    osEnv: seq<string>,
    order: set<string> -> seq<string>)

  /** `order` lists each set of keys it is given. */
  ghost predicate Listings(order: set<string> -> seq<string>)
  {
    forall ks: set<string> :: IsOrdering(order(ks), ks)
  }

  function InvalidArgument(arg: string): string
  {
    "invalid argument: " + arg + " (expected key=value)"
  }

  function MissingArgument(name: string): string
  {
    "missing required argument: " + name
  }

  function FetchFailed(e: string): string
  {
    "failed to fetch Azure secrets: " + e
  }

  function CommandFailed(e: string): string
  {
    "command failed: " + e
  }

  function Banner(name: string, desc: string): string
  {
    "Running task '" + name + "': " + desc
  }

  function TaskLine(num: string, task: string): string
  {
    "[" + num + "] > task: " + task
  }

  function UsesLine(num: string, uses: string): string
  {
    "[" + num + "] > uses: " + uses
  }

  function ShellLine(num: string, text: string): string
  {
    "[" + num + "] $ " + text
  }

  // ---------------------------------------------------------------------
  // Step numbers
  // ---------------------------------------------------------------------

  function Numerals(path: seq<int>): seq<string>
  {
    seq(|path|, i requires 0 <= i < |path| => IntToString(path[i]))
  }

  /** formatStepNum: the position of a step among its ancestors' steps, such
      as `2.1/3`: the path joined with dots, then the number of steps of the
      innermost task. The top level has no path and no number. */
  function StepNum(path: seq<int>, total: int): string
  {
    if |path| == 0 then "" else Join(Numerals(path), ".") + "/" + IntToString(total)
  }

  method FormatStepNum(path: seq<int>, total: int) returns (s: string)
    ensures s == StepNum(path, total)
  {
    if |path| == 0 {
      return "";
    }
    var parts: seq<string> := [];
    for i := 0 to |path|
      invariant parts == Numerals(path[..i])
    {
      parts := parts + [IntToString(path[i])];
    }
    assert path[..|path|] == path;
    return Join(parts, ".") + "/" + IntToString(total);
  }

  /** The pieces of `s` between the occurrences of `c`. */
  function Fields(s: string, c: char): (r: seq<string>)
    ensures |r| > 0
  {
    if |s| == 0 then [""]
    else
      var rest := Fields(s[1..], c);
      if s[0] == c then [""] + rest else [[s[0]] + rest[0]] + rest[1..]
  }

  lemma {:induction false} FieldsPlain(s: string, c: char)
    requires c !in s
    ensures Fields(s, c) == [s]
    decreases |s|
  {
    if |s| > 0 {
      FieldsPlain(s[1..], c);
      assert [s[0]] + s[1..] == s;
    }
  }

  lemma {:induction false} FieldsSplit(a: string, b: string, c: char)
    requires c !in a
    ensures Fields(a + [c] + b, c) == [a] + Fields(b, c)
    decreases |a|
  {
    if |a| > 0 {
      assert (a + [c] + b)[1..] == a[1..] + [c] + b;
      FieldsSplit(a[1..], b, c);
      assert [a[0]] + a[1..] == a;
    } else {
      assert (a + [c] + b)[1..] == b;
    }
  }

  lemma {:induction false} JoinAvoids(parts: seq<string>, sep: string, c: char)
    requires c !in sep
    requires forall i :: 0 <= i < |parts| ==> c !in parts[i]
    ensures c !in Join(parts, sep)
    decreases |parts|
  {
    if |parts| > 1 {
      JoinAvoids(parts[1..], sep, c);
    }
  }

  lemma {:induction false} FieldsJoin(parts: seq<string>, c: char)
    requires |parts| > 0
    requires forall i :: 0 <= i < |parts| ==> c !in parts[i]
    ensures Fields(Join(parts, [c]), c) == parts
    decreases |parts|
  {
    if |parts| == 1 {
      FieldsPlain(parts[0], c);
    } else {
      FieldsSplit(parts[0], Join(parts[1..], [c]), c);
      FieldsJoin(parts[1..], c);
    }
  }

  /** A step number reads back: split at `/` it gives the path joined with
      dots and the total, and split at `.` the path gives each number of the
      path. */
  lemma StepNumReadsBack(path: seq<int>, total: int)
    requires |path| > 0 && total >= 0
    requires forall i :: 0 <= i < |path| ==> path[i] >= 0
    ensures |Fields(StepNum(path, total), '/')| == 2
    ensures var f := Fields(StepNum(path, total), '/');
      IsDigits(f[1]) && ParseNat(f[1]) == total
      && |Fields(f[0], '.')| == |path|
      && forall i :: 0 <= i < |path| ==> IsDigits(Fields(f[0], '.')[i]) && ParseNat(Fields(f[0], '.')[i]) == path[i]
  {
    var parts := Numerals(path);
    forall i | 0 <= i < |parts|
      ensures parts[i] == NatToString(path[i]) && IsDigits(parts[i]) && ParseNat(parts[i]) == path[i]
      ensures '.' !in parts[i] && '/' !in parts[i]
    {
      ParseNatToString(path[i]);
    }
    var joined := Join(parts, ".");
    JoinAvoids(parts, ".", '/');
    var n := NatToString(total);
    ParseNatToString(total);
    assert '/' !in n;
    FieldsPlain(n, '/');
    assert StepNum(path, total) == joined + ['/'] + n;
    FieldsSplit(joined, n, '/');
    FieldsJoin(parts, '.');
  }

  // ---------------------------------------------------------------------
  // Arguments, environment, command text
  // ---------------------------------------------------------------------

  /** The declared arguments from position `i` on, filled into `m`: a name
      already given keeps its value, a missing one takes its default, and a
      missing one without a default is an error. */
  function ArgsWithDefaults(decls: seq<TaskArg>, m: map<string, string>, i: nat): Result<map<string, string>, string>
    requires i <= |decls|
    decreases |decls| - i
  {
    if i == |decls| then Ok(m)
    else if decls[i].name in m then ArgsWithDefaults(decls, m, i + 1)
    else if !decls[i].default.Nil? then ArgsWithDefaults(decls, m[decls[i].name := Format(decls[i].default)], i + 1)
    else Err(MissingArgument(decls[i].name))
  }

  /** A given name keeps its value and every declared name gets one; any
      other value is a default; the error names a declared argument that is
      missing and has no default, and there is none when every declared
      argument is given or has a default. */
  lemma {:induction false} ArgsWithDefaultsMeaning(decls: seq<TaskArg>, m: map<string, string>, i: nat)
    requires i <= |decls|
    ensures var r := ArgsWithDefaults(decls, m, i);
      && (r.Ok? ==> forall k :: k in m ==> k in r.value && r.value[k] == m[k])
      && (r.Ok? ==> forall j :: i <= j < |decls| ==> decls[j].name in r.value)
      && (r.Ok? ==> forall k :: k in r.value ==> (k in m ||
            exists j :: i <= j < |decls| && decls[j].name == k && !decls[j].default.Nil? && r.value[k] == Format(decls[j].default)))
      && ((forall j :: i <= j < |decls| ==> decls[j].name in m || !decls[j].default.Nil?) ==> r.Ok?)
      && (r.Err? ==> exists j :: i <= j < |decls| && decls[j].name !in m && decls[j].default.Nil? && r.error == MissingArgument(decls[j].name))
    decreases |decls| - i
  {
    if i < |decls| {
      if decls[i].name in m {
        ArgsWithDefaultsMeaning(decls, m, i + 1);
      } else if !decls[i].default.Nil? {
        ArgsWithDefaultsMeaning(decls, m[decls[i].name := Format(decls[i].default)], i + 1);
      }
    }
  }

  /** The defaults loop. */
  method FillDefaults(decls: seq<TaskArg>, m: map<string, string>) returns (r: Result<map<string, string>, string>)
    ensures r == ArgsWithDefaults(decls, m, 0)
  {
    var merged := m;
    for i := 0 to |decls|
      invariant ArgsWithDefaults(decls, merged, i) == ArgsWithDefaults(decls, m, 0)
    {
      var arg := decls[i];
      if arg.name !in merged {
        if !arg.default.Nil? {
          merged := merged[arg.name := Format(arg.default)];
        } else {
          return Err(MissingArgument(arg.name));
        }
      }
    }
    return Ok(merged);
  }

  /** `env` with the secrets of each vault from position `i` on written over
      it, in order; the first fetch that fails is the error. */
  function WithSecrets(env: map<string, string>, vaults: seq<AzureKeyVaultConfig>, fetch: AzureKeyVaultConfig -> Result<map<string, string>, string>, i: nat): Result<map<string, string>, string>
    requires i <= |vaults|
    decreases |vaults| - i
  {
    if i == |vaults| then Ok(env)
    else match fetch(vaults[i])
      case Err(e) => Err(FetchFailed(e))
      case Ok(s) => WithSecrets(env + s, vaults, fetch, i + 1)
  }

  /** The secrets are fetched when every vault answers, and the error is
      that of the first vault that does not; a name is set when the
      environment or some vault sets it, and one no vault sets keeps the
      environment's value. */
  lemma {:induction false} WithSecretsMeaning(env: map<string, string>, vaults: seq<AzureKeyVaultConfig>, fetch: AzureKeyVaultConfig -> Result<map<string, string>, string>, i: nat)
    requires i <= |vaults|
    ensures var r := WithSecrets(env, vaults, fetch, i);
      && (r.Ok? <==> forall j :: i <= j < |vaults| ==> fetch(vaults[j]).Ok?)
      && (r.Err? ==> exists j :: (i <= j < |vaults| && fetch(vaults[j]).Err? && r.error == FetchFailed(fetch(vaults[j]).error)
            && forall l :: i <= l < j ==> fetch(vaults[l]).Ok?))
      && (r.Ok? ==> forall k :: k in r.value <==> k in env || exists j :: i <= j < |vaults| && k in fetch(vaults[j]).value)
      && (r.Ok? ==> forall k :: k in env && (forall j :: i <= j < |vaults| ==> k !in fetch(vaults[j]).value) ==> r.value[k] == env[k])
    decreases |vaults| - i
  {
    if i < |vaults| && fetch(vaults[i]).Ok? {
      WithSecretsMeaning(env + fetch(vaults[i]).value, vaults, fetch, i + 1);
    }
  }

  /** The vault loop that writes the secrets into the environment. */
  method FetchIntoEnv(env: map<string, string>, vaults: seq<AzureKeyVaultConfig>, fetch: AzureKeyVaultConfig -> Result<map<string, string>, string>) returns (r: Result<map<string, string>, string>)
    ensures r == WithSecrets(env, vaults, fetch, 0)
  {
    var merged := env;
    for i := 0 to |vaults|
      invariant WithSecrets(merged, vaults, fetch, i) == WithSecrets(env, vaults, fetch, 0)
    {
      var secrets := fetch(vaults[i]);
      if secrets.Err? {
        return Err(FetchFailed(secrets.error));
      }
      merged := Overlay(merged, secrets.value);
    }
    return Ok(merged);
  }

  /** `s` with `<open>k}` replaced by the value of `k`, for each key of
      `order` in turn. */
  function Substituted(s: string, m: map<string, string>, order: seq<string>, open: string): string
    requires forall i :: 0 <= i < |order| ==> order[i] in m
  {
    if |order| == 0 then s
    else
      var k := order[|order| - 1];
      ReplaceAll(Substituted(s, m, order[..|order| - 1], open), open + k + "}", m[k])
  }

  method ReplacePlaceholders(s: string, m: map<string, string>, order: seq<string>, open: string) returns (r: string)
    requires IsOrdering(order, m.Keys)
    ensures r == Substituted(s, m, order, open)
  {
    r := s;
    for i := 0 to |order|
      invariant r == Substituted(s, m, order[..i], open)
    {
      assert order[..i + 1][..i] == order[..i];
      r := ReplaceAll(r, open + order[i] + "}", m[order[i]]);
    }
    assert order[..|order|] == order;
  }

  /** `s` with the secrets of each vault from position `i` on substituted,
      each vault fetched again. */
  function SecretsSubstituted(s: string, vaults: seq<AzureKeyVaultConfig>, w: World, i: nat): (r: Result<string, string>)
    requires Listings(w.order)
    requires i <= |vaults|
    ensures r.Ok? <==> forall j :: i <= j < |vaults| ==> w.fetch(vaults[j]).Ok?
    decreases |vaults| - i
  {
    if i == |vaults| then Ok(s)
    else match w.fetch(vaults[i])
      case Err(e) => Err(FetchFailed(e))
      case Ok(sec) => SecretsSubstituted(Substituted(s, sec, w.order(sec.Keys), "${secrets."), vaults, w, i + 1)
  }

  /** The command text a shell step runs. */
  function ShellText(cmd: string, args: map<string, string>, vaults: seq<AzureKeyVaultConfig>, w: World): Result<string, string>
    requires Listings(w.order)
  {
    SecretsSubstituted(Substituted(cmd, args, w.order(args.Keys), "${"), vaults, w, 0)
  }

  method ShellCommandText(cmd: string, args: map<string, string>, vaults: seq<AzureKeyVaultConfig>, w: World) returns (r: Result<string, string>)
    requires Listings(w.order)
    ensures r == ShellText(cmd, args, vaults, w)
  {
    var text := ReplacePlaceholders(cmd, args, w.order(args.Keys), "${");
    ghost var start := text;
    for i := 0 to |vaults|
      invariant SecretsSubstituted(text, vaults, w, i) == SecretsSubstituted(start, vaults, w, 0)
    {
      var secrets := w.fetch(vaults[i]);
      if secrets.Err? {
        return Err(FetchFailed(secrets.error));
      }
      text := ReplacePlaceholders(text, secrets.value, w.order(secrets.value.Keys), "${secrets.");
    }
    return Ok(text);
  }

  lemma {:induction false} ContainsPrefix(s: string, a: string, b: string)
    requires Contains(s, a + b)
    ensures Contains(s, a)
    decreases |s|
  {
    if HasPrefix(s, a + b) {
      assert s[..|a|] == (a + b)[..|a|];
    } else {
      ContainsPrefix(s[1..], a, b);
    }
  }

  lemma {:induction false} SubstitutedAbsent(s: string, m: map<string, string>, order: seq<string>, open: string)
    requires forall i :: 0 <= i < |order| ==> order[i] in m
    requires open != "" && !Contains(s, open)
    ensures Substituted(s, m, order, open) == s
    decreases |order|
  {
    if |order| > 0 {
      var k := order[|order| - 1];
      SubstitutedAbsent(s, m, order[..|order| - 1], open);
      if Contains(s, open + k + "}") {
        assert open + k + "}" == open + (k + "}");
        ContainsPrefix(s, open, k + "}");
        assert false;
      }
      ReplaceAbsent(s, open + k + "}", m[k]);
    }
  }

  lemma {:induction false} SecretsAbsent(s: string, vaults: seq<AzureKeyVaultConfig>, w: World, i: nat)
    requires Listings(w.order)
    requires i <= |vaults| && !Contains(s, "${")
    ensures SecretsSubstituted(s, vaults, w, i).Ok? ==> SecretsSubstituted(s, vaults, w, i).value == s
    decreases |vaults| - i
  {
    if i < |vaults| && w.fetch(vaults[i]).Ok? {
      var sec := w.fetch(vaults[i]).value;
      if Contains(s, "${secrets.") {
        assert "${secrets." == "${" + "secrets.";
        ContainsPrefix(s, "${", "secrets.");
        assert false;
      }
      SubstitutedAbsent(s, sec, w.order(sec.Keys), "${secrets.");
      SecretsAbsent(s, vaults, w, i + 1);
    }
  }

  /** A command without `${` runs as written whenever every vault answers. */
  lemma PlainCommandRunsAsWritten(cmd: string, args: map<string, string>, vaults: seq<AzureKeyVaultConfig>, w: World)
    requires Listings(w.order)
    requires !Contains(cmd, "${")
    ensures ShellText(cmd, args, vaults, w).Ok? <==> forall j :: 0 <= j < |vaults| ==> w.fetch(vaults[j]).Ok?
    ensures ShellText(cmd, args, vaults, w).Ok? ==> ShellText(cmd, args, vaults, w).value == cmd
  {
    SubstitutedAbsent(cmd, args, w.order(args.Keys), "${");
    SecretsAbsent(cmd, vaults, w, 0);
  }

  lemma {:induction false} ContainsSomewhere(s: string, sub: string)
    requires Contains(s, sub)
    ensures exists i :: 0 <= i <= |s| && HasPrefix(s[i..], sub)
    decreases |s|
  {
    if HasPrefix(s, sub) {
      assert s[0..] == s;
    } else {
      ContainsSomewhere(s[1..], sub);
      var i :| 0 <= i <= |s[1..]| && HasPrefix(s[1..][i..], sub);
      assert s[1..][i..] == s[i + 1..];
    }
  }

  /** The only `$` of such a text is the one that opens its token. */
  lemma OnlyDollar(a: string, x: string, b: string, i: nat)
    requires '$' !in a && '$' !in x && '$' !in b
    requires i < |a + "${" + x + "}" + b| && i != |a|
    ensures (a + "${" + x + "}" + b)[i] != '$'
  {
    var s := a + "${" + x + "}" + b;
    if i < |a| {
      assert s[i] == a[i];
    } else if |a| + 2 <= i < |a| + 2 + |x| {
      assert s[i] == x[i - |a| - 2];
    } else if i > |a| + 2 + |x| {
      assert s[i] == b[i - |a| - 3 - |x|];
    }
  }

  /** Text that starts with the token `${x}` and has no `}` after it does not
      start with the token of another name. */
  lemma OtherTokenNotAtFront(x: string, b: string, k: string)
    requires '}' !in x && '}' !in b && k != x
    ensures !HasPrefix("${" + x + "}" + b, "${" + k + "}")
  {
    var t := "${" + x + "}" + b;
    var p := "${" + k + "}";
    if |p| <= |t| {
      if |k| < |x| {
        assert t[2 + |k|] == x[|k|] != p[2 + |k|];
      } else if |k| > |x| {
        assert t[2 + |k|] == b[|k| - |x| - 1] != p[2 + |k|];
      } else {
        var j :| 0 <= j < |k| && k[j] != x[j];
        assert t[2 + j] == x[j] != k[j] == p[2 + j];
      }
    }
  }

  /** In a text whose only `$` opens the token `${x}`, and with no `}` after
      it, the token of any other name does not occur. */
  lemma OtherTokenAbsent(a: string, x: string, b: string, k: string)
    requires '$' !in a && '$' !in x && '}' !in x && '$' !in b && '}' !in b
    requires k != x
    ensures !Contains(a + "${" + x + "}" + b, "${" + k + "}")
  {
    var s := a + "${" + x + "}" + b;
    var p := "${" + k + "}";
    forall i | 0 <= i <= |s|
      ensures !HasPrefix(s[i..], p)
    {
      if i == |a| {
        assert s[i..] == "${" + x + "}" + b;
        OtherTokenNotAtFront(x, b, k);
      } else if i < |s| {
        OnlyDollar(a, x, b, i);
        assert s[i..][0] == s[i] != p[0];
      }
    }
    if Contains(s, p) {
      ContainsSomewhere(s, p);
    }
  }

  /** Substituting keys whose tokens do not occur leaves the text unchanged. */
  lemma {:induction false} SubstitutedUnmatched(s: string, m: map<string, string>, order: seq<string>, open: string)
    requires forall i :: 0 <= i < |order| ==> order[i] in m && !Contains(s, open + order[i] + "}")
    ensures Substituted(s, m, order, open) == s
    decreases |order|
  {
    if |order| > 0 {
      var k := order[|order| - 1];
      SubstitutedUnmatched(s, m, order[..|order| - 1], open);
      ReplaceAbsent(s, open + k + "}", m[k]);
    }
  }

  /** Secrets whose tokens do not occur leave the text unchanged. */
  lemma {:induction false} SecretsUnmatched(s: string, vaults: seq<AzureKeyVaultConfig>, w: World, i: nat)
    requires Listings(w.order)
    requires i <= |vaults|
    requires forall j, k :: i <= j < |vaults| && w.fetch(vaults[j]).Ok? && k in w.fetch(vaults[j]).value ==> !Contains(s, "${secrets." + k + "}")
    ensures SecretsSubstituted(s, vaults, w, i).Ok? ==> SecretsSubstituted(s, vaults, w, i).value == s
    decreases |vaults| - i
  {
    if i < |vaults| && w.fetch(vaults[i]).Ok? {
      var sec := w.fetch(vaults[i]).value;
      var order := w.order(sec.Keys);
      assert IsOrdering(order, sec.Keys);
      forall j | 0 <= j < |order|
        ensures order[j] in sec && !Contains(s, "${secrets." + order[j] + "}")
      {
        assert order[j] in sec.Keys;
      }
      SubstitutedUnmatched(s, sec, order, "${secrets.");
      SecretsUnmatched(s, vaults, w, i + 1);
    }
  }

  /** A token `${x}` whose name is neither an argument nor a secret any vault
      gives stays in the command text, which then runs as written whenever
      every vault answers. */
  lemma UnknownTokenKept(a: string, x: string, b: string, args: map<string, string>, vaults: seq<AzureKeyVaultConfig>, w: World)
    requires Listings(w.order)
    requires '$' !in a && '$' !in x && '}' !in x && '$' !in b && '}' !in b
    requires x !in args
    requires forall j, k :: 0 <= j < |vaults| && w.fetch(vaults[j]).Ok? && k in w.fetch(vaults[j]).value ==> x != "secrets." + k
    ensures ShellText(a + "${" + x + "}" + b, args, vaults, w).Ok? <==> forall j :: 0 <= j < |vaults| ==> w.fetch(vaults[j]).Ok?
    ensures ShellText(a + "${" + x + "}" + b, args, vaults, w).Ok? ==> ShellText(a + "${" + x + "}" + b, args, vaults, w).value == a + "${" + x + "}" + b
  {
    var cmd := a + "${" + x + "}" + b;
    var order := w.order(args.Keys);
    assert IsOrdering(order, args.Keys);
    forall j | 0 <= j < |order|
      ensures order[j] in args && !Contains(cmd, "${" + order[j] + "}")
    {
      assert order[j] in args.Keys;
      OtherTokenAbsent(a, x, b, order[j]);
    }
    SubstitutedUnmatched(cmd, args, order, "${");
    forall j, k | 0 <= j < |vaults| && w.fetch(vaults[j]).Ok? && k in w.fetch(vaults[j]).value
      ensures !Contains(cmd, "${secrets." + k + "}")
    {
      OtherTokenAbsent(a, x, b, "secrets." + k);
      assert "${secrets." + k + "}" == "${" + ("secrets." + k) + "}";
    }
    SecretsUnmatched(cmd, vaults, w, 0);
  }

  // ---------------------------------------------------------------------
  // The run
  // ---------------------------------------------------------------------

  /** What a call gave: its error, the `visited` map it leaves, and the lines
      it printed. */
  datatype Run = Run(err: Option<string>, visited: map<string, bool>, out: seq<string>)

  /** A task being run: its steps, merged arguments, merged environment and
      step path. */
  datatype Frame = Frame(cmds: seq<TaskCmd>, args: map<string, string>, env: map<string, string>, stepPath: seq<int>)

  /** The task a `task` or `uses` step runs, the arguments it is given, and
      the line printed for the step. */
  function Callee(cmd: TaskCmd, args: map<string, string>, num: string): (string, map<string, string>, string)
  {
    if cmd.task != "" then (cmd.task, args, TaskLine(num, cmd.task))
    else (cmd.uses, args + FormatAll(cmd.args), UsesLine(num, cmd.uses))
  }

  /** The arguments and environment a task runs with, or the error that
      stops it before its first step. */
  function Prepared(tf: Taskfile, w: World, task: Task, args: map<string, string>, parentArgs: map<string, string>, parentEnv: map<string, string>): Result<(map<string, string>, map<string, string>), string>
  {
    match ArgsWithDefaults(task.args, parentArgs + args, 0)
    case Err(e) => Err(e)
    case Ok(mergedArgs) =>
      match WithSecrets(tf.environment + parentEnv + task.environment, tf.azureKeyVaults, w.fetch, 0)
      case Err(e) => Err(e)
      case Ok(mergedEnv) => Ok((mergedArgs, mergedEnv))
  }

  /** executeTaskWithArgs. A successful call leaves exactly the marks it
      found and `name` cleared; a failed one removes no mark. */
  function Exec(tf: Taskfile, w: World, visited: map<string, bool>, name: string, args: map<string, string>, parentArgs: map<string, string>, stepPath: seq<int>, parentEnv: map<string, string>): (r: Run)
    requires Listings(w.order)
    ensures r.err.None? ==> name !in Marked(visited) && name in r.visited && !r.visited[name] && Marked(r.visited) == Marked(visited)
    ensures r.err.Some? ==> Marked(visited) <= Marked(r.visited)
    decreases |tf.tasks.Keys - Marked(visited)|, 0, 0
  {
    if name in visited && visited[name] then Run(Some(Circular(name)), visited, [])
    else
      var entered := visited[name := true];
      MarkedUpdate(visited, name, true);
      if name !in tf.tasks then Run(Some(NotFound(name)), entered, [])
      else
        var task := tf.tasks[name];
        match Prepared(tf, w, task, args, parentArgs, parentEnv)
        case Err(e) => Run(Some(e), entered, [])
        case Ok(prepared) =>
          FewerUnmarked(tf.tasks.Keys, Marked(visited), name);
          var r := Steps(tf, w, entered, Frame(task.cmds, prepared.0, prepared.1, stepPath), 0, [Banner(name, task.desc)]);
          if r.err.Some? then r
          else
            MarkedUpdate(r.visited, name, false);
            Run(None, r.visited[name := false], r.out)
  }

  /** The steps of a task from position `i` on, after the lines `out`. */
  function Steps(tf: Taskfile, w: World, visited: map<string, bool>, f: Frame, i: nat, out: seq<string>): (r: Run)
    requires Listings(w.order)
    requires i <= |f.cmds|
    ensures r.err.None? ==> Marked(r.visited) == Marked(visited)
    ensures r.err.Some? ==> Marked(visited) <= Marked(r.visited)
    decreases |tf.tasks.Keys - Marked(visited)|, 1, |f.cmds| - i
  {
    if i == |f.cmds| then Run(None, visited, out)
    else
      var cmd := f.cmds[i];
      var path := f.stepPath + [i + 1];
      var num := StepNum(path, |f.cmds|);
      if cmd.task != "" || cmd.uses != "" then
        var c := Callee(cmd, f.args, num);
        var child := Exec(tf, w, visited, c.0, c.1, c.1, path, f.env);
        var after := out + [c.2] + child.out;
        if child.err.Some? then Run(child.err, child.visited, after)
        else Steps(tf, w, child.visited, f, i + 1, after)
      else
        var shell := ShellStep(w, tf.azureKeyVaults, f, i, num);
        var after := out + shell.1;
        if shell.0.Some? then Run(shell.0, visited, after)
        else Steps(tf, w, visited, f, i + 1, after)
  }

  /** A shell step: its error, if any, and the lines it prints. Nothing is
      printed when substituting the secrets fails. */
  function ShellStep(w: World, vaults: seq<AzureKeyVaultConfig>, f: Frame, i: nat, num: string): (Option<string>, seq<string>)
    requires Listings(w.order)
    requires i < |f.cmds|
  {
    match ShellText(f.cmds[i].cmd, f.args, vaults, w)
    case Err(e) => (Some(e), [])
    case Ok(text) =>
      var shell := ShellOutcome(text, f.env, w.osEnv, w.order(f.env.Keys), w.shell);
      var lines := [ShellLine(num, text)] + shell.1;
      if shell.0.Some? then (Some(CommandFailed(shell.0.value)), lines) else (None, lines)
  }

  /** executeTaskWithArgs, over the shared `visited` map in `marks`. */
  method ExecuteTaskWithArgs(tf: Taskfile, w: World, marks: Marks, name: string, args: map<string, string>, parentArgs: map<string, string>, stepPath: seq<int>, parentEnv: map<string, string>)
    returns (err: Option<string>, out: seq<string>)
    requires Listings(w.order)
    modifies marks
    ensures Run(err, marks.visited, out) == Exec(tf, w, old(marks.visited), name, args, parentArgs, stepPath, parentEnv)
    decreases |tf.tasks.Keys - Marked(marks.visited)|, 0, 0
  {
    out := [];
    if name in marks.visited && marks.visited[name] {
      return Some(Circular(name)), out;
    }
    ghost var start := marks.visited;
    marks.visited := marks.visited[name := true];
    MarkedUpdate(start, name, true);
    if name !in tf.tasks {
      return Some(NotFound(name)), out;
    }
    var task := tf.tasks[name];
    var prepared := Prepare(tf, w, task, args, parentArgs, parentEnv);
    if prepared.Err? {
      return Some(prepared.error), out;
    }
    var f := Frame(task.cmds, prepared.value.0, prepared.value.1, stepPath);
    FewerUnmarked(tf.tasks.Keys, Marked(start), name);
    err, out := RunSteps(tf, w, marks, f, [Banner(name, task.desc)]);
    if err.Some? {
      return;
    }
    MarkedUpdate(marks.visited, name, false);
    marks.visited := marks.visited[name := false];
  }

  /** The merging of a task's arguments and environment. */
  method Prepare(tf: Taskfile, w: World, task: Task, args: map<string, string>, parentArgs: map<string, string>, parentEnv: map<string, string>)
    returns (r: Result<(map<string, string>, map<string, string>), string>)
    ensures r == Prepared(tf, w, task, args, parentArgs, parentEnv)
  {
    var mergedArgs := Overlay(map[], parentArgs);
    assert mergedArgs == parentArgs;
    mergedArgs := Overlay(mergedArgs, args);
    var filled := FillDefaults(task.args, mergedArgs);
    if filled.Err? {
      return Err(filled.error);
    }
    var mergedEnv := Overlay(map[], tf.environment);
    assert mergedEnv == tf.environment;
    mergedEnv := Overlay(mergedEnv, parentEnv);
    mergedEnv := Overlay(mergedEnv, task.environment);
    var withSecrets := FetchIntoEnv(mergedEnv, tf.azureKeyVaults, w.fetch);
    if withSecrets.Err? {
      return Err(withSecrets.error);
    }
    r := Ok((filled.value, withSecrets.value));
  }

  /** The loop over the steps of a task, after the lines `out0`. */
  method RunSteps(tf: Taskfile, w: World, marks: Marks, f: Frame, out0: seq<string>) returns (err: Option<string>, out: seq<string>)
    requires Listings(w.order)
    modifies marks
    ensures Run(err, marks.visited, out) == Steps(tf, w, old(marks.visited), f, 0, out0)
    decreases |tf.tasks.Keys - Marked(marks.visited)|, 1, 2
  {
    ghost var entered := marks.visited;
    out := out0;
    var i := 0;
    while i < |f.cmds|
      invariant i <= |f.cmds|
      invariant Marked(marks.visited) == Marked(entered)
      invariant Steps(tf, w, marks.visited, f, i, out) == Steps(tf, w, entered, f, 0, out0)
    {
      err, out := RunStep(tf, w, marks, f, i, out);
      if err.Some? {
        return;
      }
      i := i + 1;
    }
    return None, out;
  }

  /** Step `i` of a task, after the lines `out0`: a failure is the result of
      the remaining steps; a success leaves the marks and hands on to the
      next step. */
  method RunStep(tf: Taskfile, w: World, marks: Marks, f: Frame, i: nat, out0: seq<string>) returns (err: Option<string>, out: seq<string>)
    requires Listings(w.order)
    requires i < |f.cmds|
    modifies marks
    ensures err.Some? ==> Run(err, marks.visited, out) == Steps(tf, w, old(marks.visited), f, i, out0)
    ensures err.None? ==> Marked(marks.visited) == Marked(old(marks.visited))
    ensures err.None? ==> Steps(tf, w, marks.visited, f, i + 1, out) == Steps(tf, w, old(marks.visited), f, i, out0)
    decreases |tf.tasks.Keys - Marked(marks.visited)|, 1, 1
  {
    var cmd := f.cmds[i];
    if cmd.task != "" || cmd.uses != "" {
      err, out := RunCallStep(tf, w, marks, f, i, out0);
      return;
    }
    var num := FormatStepNum(f.stepPath + [i + 1], |f.cmds|);
    StepsOnShell(tf, w, marks.visited, f, i, out0);
    var lines;
    err, lines := RunShellStep(w, tf.azureKeyVaults, f, i, num);
    out := out0 + lines;
  }

  /** Step `i` naming a task, or a reusable task: print its line and run
      the task with the step's arguments over the frame's. */
  method RunCallStep(tf: Taskfile, w: World, marks: Marks, f: Frame, i: nat, out0: seq<string>) returns (err: Option<string>, out: seq<string>)
    requires Listings(w.order)
    requires i < |f.cmds| && (f.cmds[i].task != "" || f.cmds[i].uses != "")
    modifies marks
    ensures err.Some? ==> Run(err, marks.visited, out) == Steps(tf, w, old(marks.visited), f, i, out0)
    ensures err.None? ==> Marked(marks.visited) == Marked(old(marks.visited))
    ensures err.None? ==> Steps(tf, w, marks.visited, f, i + 1, out) == Steps(tf, w, old(marks.visited), f, i, out0)
    decreases |tf.tasks.Keys - Marked(marks.visited)|, 1, 0
  {
    var cmd := f.cmds[i];
    var path := f.stepPath + [i + 1];
    var num := FormatStepNum(path, |f.cmds|);
    var callee, calleeArgs, line := CalleeOf(cmd, f.args, num);
    ghost var visited := marks.visited;
    ghost var child := Exec(tf, w, visited, callee, calleeArgs, calleeArgs, path, f.env);
    ghost var after := StepsOnCall(tf, w, visited, f, i, out0);
    var childOut;
    err, childOut := ExecuteTaskWithArgs(tf, w, marks, callee, calleeArgs, calleeArgs, path, f.env);
    out := out0 + [line] + childOut;
    assert child == Run(err, marks.visited, childOut) && out == after;
    if err.Some? {
      assert Steps(tf, w, visited, f, i, out0) == Run(err, marks.visited, out);
    } else {
      assert Steps(tf, w, visited, f, i, out0) == Steps(tf, w, marks.visited, f, i + 1, out);
    }
  }

  /** The task a step runs, its arguments (for `uses`, the step's own over
      the caller's, formatted as strings) and the step's line. */
  method CalleeOf(cmd: TaskCmd, args: map<string, string>, num: string) returns (callee: string, calleeArgs: map<string, string>, line: string)
    ensures (callee, calleeArgs, line) == Callee(cmd, args, num)
  {
    calleeArgs := args;
    if cmd.task != "" {
      callee, line := cmd.task, TaskLine(num, cmd.task);
    } else {
      callee, line := cmd.uses, UsesLine(num, cmd.uses);
      var usesArgs := Overlay(map[], args);
      assert usesArgs == args;
      calleeArgs := Overlay(usesArgs, FormatAll(cmd.args));
    }
  }

  /** The shell step `i`: substitute, print the step line, run the command
      and print its masked output. */
  method RunShellStep(w: World, vaults: seq<AzureKeyVaultConfig>, f: Frame, i: nat, num: string) returns (err: Option<string>, lines: seq<string>)
    requires Listings(w.order)
    requires i < |f.cmds|
    ensures (err, lines) == ShellStep(w, vaults, f, i, num)
  {
    var text := ShellCommandText(f.cmds[i].cmd, f.args, vaults, w);
    if text.Err? {
      return Some(text.error), [];
    }
    var shellErr, printed := RunShellCommand(text.value, f.env, w.osEnv, w.order(f.env.Keys), w.shell);
    lines := [ShellLine(num, text.value)] + printed;
    if shellErr.Some? {
      return Some(CommandFailed(shellErr.value)), lines;
    }
    return None, lines;
  }

  /** `kontraktor run <task> [key=value]...`, once the manifest is parsed:
      the arguments after the task name become the argument map, and the
      task runs with no marks, no caller arguments, no step path and no
      caller environment. */
  method RunTask(tf: Taskfile, w: World, args: seq<string>) returns (err: Option<string>, out: seq<string>)
    requires Listings(w.order)
    requires |args| >= 1
    ensures (forall i :: 1 <= i < |args| ==> KeyValue.IsPair(args[i])) ==>
      var r := Exec(tf, w, map[], args[0], KeyValue.Assigned(args[1..]), map[], [], map[]);
      err == r.err && out == r.out
    ensures (exists i :: 1 <= i < |args| && !KeyValue.IsPair(args[i])) ==>
      out == [] && exists i :: 1 <= i < |args| && !KeyValue.IsPair(args[i]) && err == Some(InvalidArgument(args[i]))
                               && forall j :: 1 <= j < i ==> KeyValue.IsPair(args[j])
  {
    var taskName := args[0];
    var argMap := KeyValue.ParseArgs(args[1..]);
    if argMap.Err? {
      ghost var i :| 0 <= i < |args| - 1 && argMap.error == args[1..][i] && !KeyValue.IsPair(args[1..][i])
                     && forall j :: 0 <= j < i ==> KeyValue.IsPair(args[1..][j]);
      assert forall j :: 1 <= j < i + 1 ==> KeyValue.IsPair(args[j]) by {
        forall j | 1 <= j < i + 1 ensures KeyValue.IsPair(args[j]) {
          assert args[j] == args[1..][j - 1];
        }
      }
      return Some(InvalidArgument(argMap.error)), [];
    }
    var marks := new Marks();
    err, out := ExecuteTaskWithArgs(tf, w, marks, taskName, argMap.value, map[], [], map[]);
  }

  // ---------------------------------------------------------------------
  // Properties of the run
  // ---------------------------------------------------------------------

  predicate OnlyTaskSteps(tf: Taskfile)
  {
    forall n, j :: n in tf.tasks && 0 <= j < |tf.tasks[n].cmds| ==> tf.tasks[n].cmds[j].task != ""
  }

  predicate AllDefaulted(tf: Taskfile)
  {
    forall n, j :: n in tf.tasks && 0 <= j < |tf.tasks[n].args| ==> !tf.tasks[n].args[j].default.Nil?
  }

  predicate VaultsAnswer(tf: Taskfile, w: World)
  {
    forall j :: 0 <= j < |tf.azureKeyVaults| ==> w.fetch(tf.azureKeyVaults[j]).Ok?
  }

  /** When every step names a task, every declared argument has a default
      and every vault answers, the runner fails exactly where the cycle
      walker of kontraktor/internal/taskfile/exec.go fails, with the same
      error, and leaves the same marks. */
  lemma {:induction false} ExecAgreesWithWalk(tf: Taskfile, w: World, visited: map<string, bool>, name: string, args: map<string, string>, parentArgs: map<string, string>, stepPath: seq<int>, parentEnv: map<string, string>)
    requires Listings(w.order) && OnlyTaskSteps(tf) && AllDefaulted(tf) && VaultsAnswer(tf, w)
    ensures var r := Exec(tf, w, visited, name, args, parentArgs, stepPath, parentEnv);
      (r.err, r.visited) == Walk(StepsOf(tf.tasks), FollowTask, visited, name)
    decreases |tf.tasks.Keys - Marked(visited)|, 0, 0
  {
    if !(name in visited && visited[name]) && name in tf.tasks {
      var entered := visited[name := true];
      MarkedUpdate(visited, name, true);
      FewerUnmarked(tf.tasks.Keys, Marked(visited), name);
      var task := tf.tasks[name];
      PreparedSucceeds(tf, w, task, args, parentArgs, parentEnv);
      var prepared := Prepared(tf, w, task, args, parentArgs, parentEnv).value;
      var f := Frame(task.cmds, prepared.0, prepared.1, stepPath);
      StepsAgreeWithWalk(tf, w, entered, f, 0, [Banner(name, task.desc)]);
      ExecRunsSteps(tf, w, visited, name, args, parentArgs, stepPath, parentEnv);
      WalkRunsSteps(StepsOf(tf.tasks), FollowTask, visited, name);
      var r := Steps(tf, w, entered, f, 0, [Banner(name, task.desc)]);
      var wr := WalkSteps(StepsOf(tf.tasks), FollowTask, entered, task.cmds, 0);
      assert (r.err, r.visited) == wr;
      if r.err.Some? {
        assert Exec(tf, w, visited, name, args, parentArgs, stepPath, parentEnv) == r;
        assert Walk(StepsOf(tf.tasks), FollowTask, visited, name) == wr;
      } else {
        assert Exec(tf, w, visited, name, args, parentArgs, stepPath, parentEnv) == Run(None, r.visited[name := false], r.out);
        assert Walk(StepsOf(tf.tasks), FollowTask, visited, name) == (None, wr.1[name := false]);
      }
    } else {
      EarlyStopsAgree(tf, w, visited, name, args, parentArgs, stepPath, parentEnv);
    }
  }

  /** A circular or unknown task stops the runner and the walker alike. */
  lemma EarlyStopsAgree(tf: Taskfile, w: World, visited: map<string, bool>, name: string, args: map<string, string>, parentArgs: map<string, string>, stepPath: seq<int>, parentEnv: map<string, string>)
    requires Listings(w.order)
    requires name in Marked(visited) || name !in tf.tasks
    ensures var r := Exec(tf, w, visited, name, args, parentArgs, stepPath, parentEnv);
      (r.err, r.visited) == Walk(StepsOf(tf.tasks), FollowTask, visited, name)
  {
    ExecStopsEarly(tf, w, visited, name, args, parentArgs, stepPath, parentEnv);
    WalkStopsEarly(StepsOf(tf.tasks), FollowTask, visited, name);
    if name in Marked(visited) {
      assert Exec(tf, w, visited, name, args, parentArgs, stepPath, parentEnv) == Run(Some(Circular(name)), visited, []);
      assert Walk(StepsOf(tf.tasks), FollowTask, visited, name) == (Some(Circular(name)), visited);
    } else {
      assert Exec(tf, w, visited, name, args, parentArgs, stepPath, parentEnv) == Run(Some(NotFound(name)), visited[name := true], []);
      assert Walk(StepsOf(tf.tasks), FollowTask, visited, name) == (Some(NotFound(name)), visited[name := true]);
    }
  }

  /** A task met while marked is circular; an unknown one is not found, and
      stays marked. */
  lemma ExecStopsEarly(tf: Taskfile, w: World, visited: map<string, bool>, name: string, args: map<string, string>, parentArgs: map<string, string>, stepPath: seq<int>, parentEnv: map<string, string>)
    requires Listings(w.order)
    requires name in Marked(visited) || name !in tf.tasks
    ensures Exec(tf, w, visited, name, args, parentArgs, stepPath, parentEnv)
         == if name in Marked(visited) then Run(Some(Circular(name)), visited, []) else Run(Some(NotFound(name)), visited[name := true], [])
  {
  }

  /** A task that is not marked, exists and prepares runs its steps with
      itself marked after its banner, and clears its mark when they all
      succeed. */
  lemma ExecRunsSteps(tf: Taskfile, w: World, visited: map<string, bool>, name: string, args: map<string, string>, parentArgs: map<string, string>, stepPath: seq<int>, parentEnv: map<string, string>)
    requires Listings(w.order)
    requires name !in Marked(visited) && name in tf.tasks
    requires Prepared(tf, w, tf.tasks[name], args, parentArgs, parentEnv).Ok?
    ensures var task := tf.tasks[name];
      var prepared := Prepared(tf, w, task, args, parentArgs, parentEnv).value;
      var r := Steps(tf, w, visited[name := true], Frame(task.cmds, prepared.0, prepared.1, stepPath), 0, [Banner(name, task.desc)]);
      Exec(tf, w, visited, name, args, parentArgs, stepPath, parentEnv) == if r.err.Some? then r else Run(None, r.visited[name := false], r.out)
  {
  }

  /** Preparing a task whose declared arguments all have defaults, when
      every vault answers, succeeds. */
  lemma PreparedSucceeds(tf: Taskfile, w: World, task: Task, args: map<string, string>, parentArgs: map<string, string>, parentEnv: map<string, string>)
    requires forall j :: 0 <= j < |task.args| ==> !task.args[j].default.Nil?
    requires VaultsAnswer(tf, w)
    ensures Prepared(tf, w, task, args, parentArgs, parentEnv).Ok?
  {
    ArgsWithDefaultsMeaning(task.args, parentArgs + args, 0);
    WithSecretsMeaning(tf.environment + parentEnv + task.environment, tf.azureKeyVaults, w.fetch, 0);
  }

  lemma {:induction false} StepsAgreeWithWalk(tf: Taskfile, w: World, visited: map<string, bool>, f: Frame, i: nat, out: seq<string>)
    requires Listings(w.order) && OnlyTaskSteps(tf) && AllDefaulted(tf) && VaultsAnswer(tf, w)
    requires i <= |f.cmds|
    requires forall j :: i <= j < |f.cmds| ==> f.cmds[j].task != ""
    ensures var r := Steps(tf, w, visited, f, i, out);
      (r.err, r.visited) == WalkSteps(StepsOf(tf.tasks), FollowTask, visited, f.cmds, i)
    decreases |tf.tasks.Keys - Marked(visited)|, 1, |f.cmds| - i
  {
    if i < |f.cmds| {
      var cmd := f.cmds[i];
      var path := f.stepPath + [i + 1];
      ExecAgreesWithWalk(tf, w, visited, cmd.task, f.args, f.args, path, f.env);
      var child := Exec(tf, w, visited, cmd.task, f.args, f.args, path, f.env);
      var after := StepsOnCall(tf, w, visited, f, i, out);
      WalkStepsFollows(StepsOf(tf.tasks), FollowTask, visited, f.cmds, i, cmd.task);
      if child.err.None? {
        StepsAgreeWithWalk(tf, w, child.visited, f, i + 1, after);
      }
    }
  }

  /** Step `i` naming a task, or a reusable task, runs it and, when it
      succeeds, hands on to step `i + 1` after the step's line and the
      callee's lines. */
  lemma StepsOnCall(tf: Taskfile, w: World, visited: map<string, bool>, f: Frame, i: nat, out: seq<string>) returns (after: seq<string>)
    requires Listings(w.order)
    requires i < |f.cmds| && (f.cmds[i].task != "" || f.cmds[i].uses != "")
    ensures var c := Callee(f.cmds[i], f.args, StepNum(f.stepPath + [i + 1], |f.cmds|));
      var child := Exec(tf, w, visited, c.0, c.1, c.1, f.stepPath + [i + 1], f.env);
      && after == out + [c.2] + child.out
      && Steps(tf, w, visited, f, i, out) == if child.err.Some? then Run(child.err, child.visited, after) else Steps(tf, w, child.visited, f, i + 1, after)
  {
    var c := Callee(f.cmds[i], f.args, StepNum(f.stepPath + [i + 1], |f.cmds|));
    var child := Exec(tf, w, visited, c.0, c.1, c.1, f.stepPath + [i + 1], f.env);
    after := out + [c.2] + child.out;
  }

  /** Any other step runs in the shell and, when it succeeds, hands on to
      step `i + 1` with the marks unchanged. */
  lemma StepsOnShell(tf: Taskfile, w: World, visited: map<string, bool>, f: Frame, i: nat, out: seq<string>)
    requires Listings(w.order)
    requires i < |f.cmds| && f.cmds[i].task == "" && f.cmds[i].uses == ""
    ensures var sh := ShellStep(w, tf.azureKeyVaults, f, i, StepNum(f.stepPath + [i + 1], |f.cmds|));
      Steps(tf, w, visited, f, i, out) == if sh.0.Some? then Run(sh.0, visited, out + sh.1) else Steps(tf, w, visited, f, i + 1, out + sh.1)
  {
  }

  /** A missing argument without a default, or a vault that fails, stops the
      task before it prints anything or runs any step, and leaves it
      marked. */
  lemma PreparationFailureRunsNothing(tf: Taskfile, w: World, visited: map<string, bool>, name: string, args: map<string, string>, parentArgs: map<string, string>, stepPath: seq<int>, parentEnv: map<string, string>)
    requires Listings(w.order)
    requires name !in Marked(visited) && name in tf.tasks
    requires Prepared(tf, w, tf.tasks[name], args, parentArgs, parentEnv).Err?
    ensures Exec(tf, w, visited, name, args, parentArgs, stepPath, parentEnv)
         == Run(Some(Prepared(tf, w, tf.tasks[name], args, parentArgs, parentEnv).error), visited[name := true], [])
  {
  }

  /** The arguments a task runs with: the given ones over the caller's, and
      the default of each declared argument neither supplies. */
  lemma ArgumentPrecedence(decls: seq<TaskArg>, parentArgs: map<string, string>, args: map<string, string>, k: string)
    requires ArgsWithDefaults(decls, parentArgs + args, 0).Ok?
    ensures var m := ArgsWithDefaults(decls, parentArgs + args, 0).value;
      && (k in args ==> k in m && m[k] == args[k])
      && (k in parentArgs && k !in args ==> k in m && m[k] == parentArgs[k])
  {
    ArgsWithDefaultsMeaning(decls, parentArgs + args, 0);
  }

  /** The environment a task runs with: the manifest's, then the caller's,
      then the task's, then the vault secrets, each layer over the ones
      before it. */
  lemma EnvironmentLayers(tf: Taskfile, w: World, parentEnv: map<string, string>, task: Task, k: string)
    requires forall j :: 0 <= j < |tf.azureKeyVaults| ==> w.fetch(tf.azureKeyVaults[j]).Ok? && k !in w.fetch(tf.azureKeyVaults[j]).value
    ensures WithSecrets(tf.environment + parentEnv + task.environment, tf.azureKeyVaults, w.fetch, 0).Ok?
    ensures var env := WithSecrets(tf.environment + parentEnv + task.environment, tf.azureKeyVaults, w.fetch, 0).value;
      && (k in task.environment ==> k in env && env[k] == task.environment[k])
      && (k !in task.environment && k in parentEnv ==> k in env && env[k] == parentEnv[k])
      && (k !in task.environment && k !in parentEnv && k in tf.environment ==> k in env && env[k] == tf.environment[k])
      && (k in env <==> k in task.environment || k in parentEnv || k in tf.environment)
  {
    WithSecretsMeaning(tf.environment + parentEnv + task.environment, tf.azureKeyVaults, w.fetch, 0);
  }
}
