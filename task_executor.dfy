/** The task executor of internal/task/task.go: check that every required
    argument was given, build the task's context, load the secrets when a
    secret manager is present, then run the commands in order through one
    interpreter and stop at the first that fails.

    The interpreter is a function `Interpret` of the command and the
    context's variables. The secret manager is the
    `SecretManager.Manager` of internal/secret/manager.go, or null. */
module TaskExecutor {
  import opened Wrappers
  import opened Yaml
  import opened Interpreter
  import Vars
  import SecretManager

  /** An argument a task declares. Its `default` is never applied. */
  datatype ArgDecl = ArgDecl(name: string, required: bool, default: string)

  datatype Task = Task(desc: string, args: seq<ArgDecl>, cmds: seq<Command>, environment: map<string, string>)

  type Interpret = (Command, Vars.Context) -> Result<CmdResult, string>

  function MissingArgument(name: string): string
  {
    "required argument '" + name + "' not provided"
  }

  function SecretsFailed(e: string): string
  {
    "failed to load secrets: " + e
  }

  function ExecutionFailed(e: string): string
  {
    "command execution failed: " + e
  }

  const CommandFailed := "command failed"

  /** The first required argument from position `i` on that `args` lacks. */
  function FirstMissing(decls: seq<ArgDecl>, args: map<string, Any>, i: nat): (r: Option<nat>)
    requires i <= |decls|
    ensures r.None? <==> forall j :: i <= j < |decls| && decls[j].required ==> decls[j].name in args
    ensures r.Some? ==> i <= r.value < |decls| && decls[r.value].required && decls[r.value].name !in args
    ensures r.Some? ==> forall j :: i <= j < r.value && decls[j].required ==> decls[j].name in args
    decreases |decls| - i
  {
    if i == |decls| then None
    else if decls[i].required && decls[i].name !in args then Some(i)
    else FirstMissing(decls, args, i + 1)
  }

  /** The commands from position `i` on, run in order in the context `vars`;
      the error of the first that fails. */
  function RunFrom(interpreter: Interpret, cmds: seq<Command>, vars: Vars.Context, i: nat): Option<string>
    requires i <= |cmds|
    decreases |cmds| - i
  {
    if i == |cmds| then None
    else match interpreter(cmds[i], vars)
      case Err(e) => Some(ExecutionFailed(e))
      case Ok(res) => if !res.success then Some(CommandFailed) else RunFrom(interpreter, cmds, vars, i + 1)
  }

  /** The context the commands run in. */
  function ContextOf(task: Task, args: map<string, Any>, secrets: map<string, string>): Vars.Context
  {
    Vars.Context(task.environment, secrets, args)
  }

  /** Execute, given what loading the secrets gave (`Ok(map[])` without a
      secret manager). */
  function Outcome(task: Task, args: map<string, Any>, secrets: Result<map<string, string>, string>, interpreter: Interpret): Option<string>
  {
    match FirstMissing(task.args, args, 0)
    case Some(j) => Some(MissingArgument(task.args[j].name))
    case None =>
      match secrets
      case Err(e) => Some(SecretsFailed(e))
      case Ok(s) => RunFrom(interpreter, task.cmds, ContextOf(task, args, s), 0)
  }

  /** A step succeeded: the interpreter gave a result, and it was a success. */
  predicate Succeeds(interpreter: Interpret, cmd: Command, vars: Vars.Context)
  {
    interpreter(cmd, vars).Ok? && interpreter(cmd, vars).value.success
  }

  class Executor {
    const secretManager: SecretManager.Manager?
    const interpreter: Interpret

    /** NewExecutor. */
    constructor (secretManager: SecretManager.Manager?, interpreter: Interpret)
      ensures this.secretManager == secretManager && this.interpreter == interpreter
    {
      this.secretManager := secretManager;
      this.interpreter := interpreter;
    }

    /** Execute. `secrets` is what loading the secrets gave, once every
        required argument is present. */
    method Execute(task: Task, args: map<string, Any>) returns (err: Option<string>, secrets: Result<map<string, string>, string>)
      ensures err == Outcome(task, args, secrets, interpreter)
      ensures secretManager == null ==> secrets == Ok(map[])
      ensures FirstMissing(task.args, args, 0).Some? ==> secrets == Ok(map[])
      ensures FirstMissing(task.args, args, 0).None? && secretManager != null ==> (secrets.Ok? <==> forall n :: n in secretManager.vaults ==> secretManager.vaults[n].answer.Ok?)
      ensures secrets.Err? ==> secretManager != null && exists n :: n in secretManager.vaults && secretManager.vaults[n].answer.Err? && secrets.error == SecretManager.VaultError(n, secretManager.vaults[n].answer.error)
      ensures FirstMissing(task.args, args, 0).None? && secretManager != null && secrets.Ok? ==>
        (forall k :: k in secrets.value <==> exists n :: SecretManager.Provides(secretManager.vaults, n, k)) &&
        forall k :: k in secrets.value ==> exists n :: SecretManager.Provides(secretManager.vaults, n, k) && secrets.value[k] == secretManager.vaults[n].answer.value[k]
    {
      secrets := Ok(map[]);
      for i := 0 to |task.args|
        invariant FirstMissing(task.args, args, 0) == FirstMissing(task.args, args, i)
      {
        var decl := task.args[i];
        if decl.required && decl.name !in args {
          return Some(MissingArgument(decl.name)), secrets;
        }
      }
      if secretManager != null {
        secrets := secretManager.GetSecrets();
        if secrets.Err? {
          return Some(SecretsFailed(secrets.error)), secrets;
        }
      }
      var vars := ContextOf(task, args, secrets.value);
      for i := 0 to |task.cmds|
        invariant RunFrom(interpreter, task.cmds, vars, i) == RunFrom(interpreter, task.cmds, vars, 0)
      {
        var result := interpreter(task.cmds[i], vars);
        if result.Err? {
          return Some(ExecutionFailed(result.error)), secrets;
        }
        if !result.value.success {
          return Some(CommandFailed), secrets;
        }
      }
      return None, secrets;
    }
  }

  /** From position `i` on, the run succeeds exactly when every command
      succeeds. */
  lemma {:induction false} RunFromSucceeds(interpreter: Interpret, cmds: seq<Command>, vars: Vars.Context, i: nat)
    requires i <= |cmds|
    ensures RunFrom(interpreter, cmds, vars, i).None? <==> forall j :: i <= j < |cmds| ==> Succeeds(interpreter, cmds[j], vars)
    decreases |cmds| - i
  {
    if i < |cmds| {
      RunFromSucceeds(interpreter, cmds, vars, i + 1);
    }
  }

  /** The first command that fails decides the error; none after it runs. */
  lemma {:induction false} FirstFailureDecides(interpreter: Interpret, cmds: seq<Command>, vars: Vars.Context, i: nat, j: nat)
    requires i <= j < |cmds|
    requires forall k :: i <= k < j ==> Succeeds(interpreter, cmds[k], vars)
    requires !Succeeds(interpreter, cmds[j], vars)
    ensures RunFrom(interpreter, cmds, vars, i) == if interpreter(cmds[j], vars).Err? then Some(ExecutionFailed(interpreter(cmds[j], vars).error)) else Some(CommandFailed)
    decreases j - i
  {
    if i < j {
      FirstFailureDecides(interpreter, cmds, vars, i + 1, j);
    }
  }

  /** A task succeeds exactly when every required argument is given, the
      secrets load, and every command succeeds in the context built from the
      task's environment, the secrets and the arguments exactly as given. */
  lemma SucceedsExactly(task: Task, args: map<string, Any>, secrets: Result<map<string, string>, string>, interpreter: Interpret)
    ensures Outcome(task, args, secrets, interpreter).None? <==>
      && (forall j :: 0 <= j < |task.args| && task.args[j].required ==> task.args[j].name in args)
      && secrets.Ok?
      && forall j :: 0 <= j < |task.cmds| ==> Succeeds(interpreter, task.cmds[j], ContextOf(task, args, secrets.value))
  {
    if FirstMissing(task.args, args, 0).None? && secrets.Ok? {
      RunFromSucceeds(interpreter, task.cmds, ContextOf(task, args, secrets.value), 0);
    }
  }

  /** A missing required argument, or a secret error, fails the task before
      any command runs: the outcome is the same for every interpreter. */
  lemma EarlyFailuresRunNothing(task: Task, args: map<string, Any>, secrets: Result<map<string, string>, string>, i1: Interpret, i2: Interpret)
    requires FirstMissing(task.args, args, 0).Some? || secrets.Err?
    ensures Outcome(task, args, secrets, i1) == Outcome(task, args, secrets, i2)
    ensures FirstMissing(task.args, args, 0).Some? ==> Outcome(task, args, secrets, i1) == Some(MissingArgument(task.args[FirstMissing(task.args, args, 0).value].name))
    ensures FirstMissing(task.args, args, 0).None? ==> Outcome(task, args, secrets, i1) == Some(SecretsFailed(secrets.error))
  {
  }

  /** A declared argument that is not given stays absent from the context:
      its default is never applied. */
  lemma DefaultsNotApplied(task: Task, args: map<string, Any>, secrets: map<string, string>, j: nat)
    requires j < |task.args| && task.args[j].name !in args
    ensures task.args[j].name !in ContextOf(task, args, secrets).args
  {
  }
}
