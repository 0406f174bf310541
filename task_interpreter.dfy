/** The task interpreter (internal/taskfile/interpreter/task.go): a step of
    type "task" names another task and the arguments to pass it. The named
    task runs through the executor the interpreter was built with, in a new
    context: the caller's environment and secrets copied, the caller's
    arguments overridden by the step's, and the task's name. */
module TaskInterpreter {
  import opened Wrappers
  import opened Yaml
  import opened Collections
  import opened Interpreter
  import Vars

  predicate CanHandle(cmdType: string)
  {
    cmdType == "task"
  }

  /** The executor: the task name, the merged arguments, and the new
      context's variables and task name. */
  type Executor = (string, map<string, Any>, Vars.Context, string) -> Result<CmdResult, string>

  const InvalidContent := "invalid command content for task interpreter"
  const NameRequired := "task name is required"

  /** Execute. The caller's context is only read. */
  method Execute(cmd: Command, ctx: TaskContext, executor: Executor) returns (r: Result<CmdResult, string>)
    ensures !cmd.content.TaskContent? ==> r == Err(InvalidContent)
    ensures cmd.content.TaskContent? && cmd.content.task.name == "" ==> r == Err(NameRequired)
    ensures cmd.content.TaskContent? && cmd.content.task.name != "" ==>
      var t := cmd.content.task;
      var merged := ctx.vars.args + t.args;
      r == executor(t.name, merged, Vars.Context(ctx.vars.environment, ctx.vars.secrets, merged), t.name)
  {
    if !cmd.content.TaskContent? {
      return Err(InvalidContent);
    }
    var t := cmd.content.task;
    if t.name == "" {
      return Err(NameRequired);
    }
    var merged := Overlay(map[], ctx.vars.args);
    assert merged == ctx.vars.args;
    merged := Overlay(merged, t.args);
    var callee := new TaskContext();
    callee.taskName := t.name;
    var environment := Overlay(callee.vars.environment, ctx.vars.environment);
    var secrets := Overlay(callee.vars.secrets, ctx.vars.secrets);
    assert environment == ctx.vars.environment && secrets == ctx.vars.secrets;
    callee.vars := Vars.Context(environment, secrets, merged);
    r := executor(t.name, merged, callee.vars, callee.taskName);
  }

  /** The arguments passed on: the step's value where it has one, the
      caller's otherwise, and no other names. */
  lemma MergedArgs(callerArgs: map<string, Any>, stepArgs: map<string, Any>)
    ensures (callerArgs + stepArgs).Keys == callerArgs.Keys + stepArgs.Keys
    ensures forall k :: k in stepArgs ==> (callerArgs + stepArgs)[k] == stepArgs[k]
    ensures forall k :: k in callerArgs && k !in stepArgs ==> (callerArgs + stepArgs)[k] == callerArgs[k]
  {
  }
}
