/** The bash interpreter (internal/taskfile/interpreter/bash.go): a step of
    type "ktr@bash" whose content map has a string `command`. The command has
    its variables substituted and runs as `bash -c <command>` with an
    environment built only from the context: its environment entries, then
    its secrets, each as `K=V`. */
module BashInterpreter {
  import opened Wrappers
  import opened Yaml
  import opened Collections
  import opened Interpreter
  import opened Launch
  import Vars

  predicate CanHandle(cmdType: string)
  {
    cmdType == "ktr@bash"
  }

  const NotAMap := "invalid command content: must be a map"
  const NoCommand := "invalid command content: command field is required and must be a string"

  function SubstitutionFailed(e: string): string
  {
    "failed to substitute variables in command: " + e
  }

  /** The command text of a step, or why the step is refused. */
  function CommandText(content: Content): (r: Result<string, string>)
    ensures !content.MapContent? ==> r == Err(NotAMap)
    ensures content.MapContent? ==> (r.Ok? <==> "command" in content.fields && content.fields["command"].Str?)
    ensures r.Ok? ==> content.MapContent? && r.value == content.fields["command"].s
    ensures r.Err? && content.MapContent? ==> r.error == NoCommand
  {
    match content
    case MapContent(fields) =>
      if "command" in fields && fields["command"].Str? then Ok(fields["command"].s) else Err(NoCommand)
    case _ => Err(NotAMap)
  }

  /** The child's environment: the context's environment entries, then its
      secrets, each in the order given. */
  function ChildEnv(vars: Vars.Context, envOrder: seq<string>, secretOrder: seq<string>): seq<string>
    requires forall i :: 0 <= i < |envOrder| ==> envOrder[i] in vars.environment
    requires forall i :: 0 <= i < |secretOrder| ==> secretOrder[i] in vars.secrets
  {
    Entries(vars.environment, envOrder, "=") + Entries(vars.secrets, secretOrder, "=")
  }

  /** What Execute gives, for the environment `env` it hands the child. */
  function Outcome(cmd: Command, vars: Vars.Context, env: seq<string>, launch: Launcher, fuel: nat): Fueled<Result<CmdResult, string>>
  {
    match CommandText(cmd.content)
    case Err(e) => Finished(Err(e))
    case Ok(text) =>
      match Vars.SubstitutedAsWritten(text, vars, fuel)
      case OutOfFuel => OutOfFuel
      case Finished(Err(e)) => Finished(Err(SubstitutionFailed(e)))
      case Finished(Ok(s)) => Finished(Ok(Shape(launch("bash", ["-c", s], Some(env)))))
  }

  /** Execute. `envOrder` and `secretOrder` are the orders in which the loops
      visited the two maps; they are only chosen once the step has passed its
      checks, and `env` is then the environment the child was given. */
  method Execute(cmd: Command, ctx: TaskContext, launch: Launcher, fuel: nat) returns (r: Fueled<Result<CmdResult, string>>, env: seq<string>, envOrder: seq<string>, secretOrder: seq<string>)
    ensures r == Outcome(cmd, ctx.vars, env, launch, fuel)
    ensures r.Finished? && r.value.Ok? ==>
      && IsOrdering(envOrder, ctx.vars.environment.Keys)
      && IsOrdering(secretOrder, ctx.vars.secrets.Keys)
      && env == ChildEnv(ctx.vars, envOrder, secretOrder)
  {
    env, envOrder, secretOrder := [], [], [];
    var text := CommandText(cmd.content);
    if text.Err? {
      return Finished(Err(text.error)), env, envOrder, secretOrder;
    }
    var substituted := ctx.Substitute(text.value, fuel);
    if substituted.OutOfFuel? {
      return OutOfFuel, env, envOrder, secretOrder;
    }
    if substituted.value.Err? {
      return Finished(Err(SubstitutionFailed(substituted.value.error))), env, envOrder, secretOrder;
    }
    env, envOrder := AppendEntries([], ctx.vars.environment, "=");
    assert env == Entries(ctx.vars.environment, envOrder, "=");
    env, secretOrder := AppendEntries(env, ctx.vars.secrets, "=");
    assert env == ChildEnv(ctx.vars, envOrder, secretOrder);
    var outcome := launch("bash", ["-c", substituted.value.value], Some(env));
    r := Finished(Ok(Shape(outcome)));
    assert Outcome(cmd, ctx.vars, env, launch, fuel) == r;
  }

  /** A step that is refused or whose substitution fails launches nothing: its
      result is the same whatever the launcher and the environment. */
  lemma RefusedStepsLaunchNothing(cmd: Command, vars: Vars.Context, env1: seq<string>, env2: seq<string>, launch1: Launcher, launch2: Launcher, fuel: nat)
    requires CommandText(cmd.content).Err? || !Vars.SubstitutedAsWritten(CommandText(cmd.content).value, vars, fuel).Finished? || Vars.SubstitutedAsWritten(CommandText(cmd.content).value, vars, fuel).value.Err?
    ensures Outcome(cmd, vars, env1, launch1, fuel) == Outcome(cmd, vars, env2, launch2, fuel)
  {
  }

  /** The child's environment holds `K=V` for every environment entry and
      every secret, and nothing else. */
  lemma ChildEnvComplete(vars: Vars.Context, envOrder: seq<string>, secretOrder: seq<string>)
    requires IsOrdering(envOrder, vars.environment.Keys) && IsOrdering(secretOrder, vars.secrets.Keys)
    ensures |ChildEnv(vars, envOrder, secretOrder)| == |vars.environment| + |vars.secrets|
    ensures forall k :: k in vars.environment ==> k + "=" + vars.environment[k] in ChildEnv(vars, envOrder, secretOrder)
    ensures forall k :: k in vars.secrets ==> k + "=" + vars.secrets[k] in ChildEnv(vars, envOrder, secretOrder)
  {
    EntriesCover(vars.environment, envOrder, "=");
    EntriesCover(vars.secrets, secretOrder, "=");
  }

  /** Only `command` is read from the content: another field, such as an
      `environment` the step carries, changes nothing. */
  lemma OtherFieldsIgnored(cmdType: string, fields: map<string, Any>, key: string, value: Any, vars: Vars.Context, env: seq<string>, launch: Launcher, fuel: nat)
    requires key != "command"
    ensures Outcome(Command(cmdType, MapContent(fields[key := value])), vars, env, launch, fuel)
         == Outcome(Command(cmdType, MapContent(fields)), vars, env, launch, fuel)
  {
    assert "command" in fields[key := value] <==> "command" in fields;
  }
}
