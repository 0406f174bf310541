/** The interpreter package's shared types (internal/taskfile/interpreter):
    a command is a type tag and a content value; an interpreter turns it into
    a result. `TaskContext` holds the variables a command sees and is updated
    in place; `Registry` keeps the interpreters in registration order.

    Go's `Content interface{}` holds one of the content records the
    interpreters accept, or anything else; `Content` lists them, with
    `OtherContent` for every other dynamic type. */
module Interpreter {
  import opened Wrappers
  import opened Yaml
  import opened Collections
  import Vars

  /** The record the docker interpreter accepts (docker.go). */
  datatype DockerCommand = DockerCommand(
    image: string,
    command: seq<string>,
    environment: map<string, string>,
    volumes: map<string, string>,
    network: string)

  /** The record the task interpreter accepts (task.go). */
  datatype TaskCommand = TaskCommand(name: string, args: map<string, Any>)

  datatype Content =
    | MapContent(fields: map<string, Any>)
    | DockerContent(docker: DockerCommand)
    | PythonContent(script: string, args: seq<string>)
    | TaskContent(task: TaskCommand)
    | OtherContent

  datatype Command = Command(cmdType: string, content: Content)

  /** A command's result: `error` is set by a run that failed. */
  datatype CmdResult = CmdResult(success: bool, output: string, error: Option<string>)

  /** The variables of a running task and its name. */
  class TaskContext {
    var vars: Vars.Context
    var taskName: string

    /** NewTaskContext: empty variables, no name. */
    constructor ()
      ensures vars == Vars.NewContext() && taskName == ""
    {
      vars := Vars.NewContext();
      taskName := "";
    }

    /** Copies `env` into the environment; other entries stay. */
    method SetEnvironment(env: map<string, string>)
      modifies this
      ensures vars == old(vars).(environment := old(vars).environment + env)
      ensures taskName == old(taskName)
    {
      var merged := Overlay(vars.environment, env);
      vars := vars.(environment := merged);
    }

    /** Copies `secrets` into the secrets; other entries stay. */
    method SetSecrets(secrets: map<string, string>)
      modifies this
      ensures vars == old(vars).(secrets := old(vars).secrets + secrets)
      ensures taskName == old(taskName)
    {
      var merged := Overlay(vars.secrets, secrets);
      vars := vars.(secrets := merged);
    }

    /** Copies `args` into the arguments; other entries stay. */
    method SetArgs(args: map<string, Any>)
      modifies this
      ensures vars == old(vars).(args := old(vars).args + args)
      ensures taskName == old(taskName)
    {
      var merged := Overlay(vars.args, args);
      vars := vars.(args := merged);
    }

    /** The variable substitution of this context's own variables, by the
        loop as the source writes it: a result has no token left, and an
        error quotes the whole input. */
    method Substitute(input: string, fuel: nat) returns (r: Fueled<Result<string, string>>)
      ensures r == Vars.SubstitutedAsWritten(input, vars, fuel)
      ensures r.Finished? && r.value.Ok? ==> !Vars.HasToken(r.value.value)
      ensures r.Finished? && r.value.Err? ==> r.value.error == Vars.UndefinedPrefix + input
    {
      r := Vars.SubstituteAsWritten(input, vars, fuel);
      if r.Finished? && r.value.Err? {
        Vars.AsWrittenErrorQuotesInput(input, vars, fuel);
      }
    }
  }

  /** The position of the first interpreter that handles `cmdType`. */
  function FirstHandler<I>(interpreters: seq<I>, cmdType: string, canHandle: (I, string) -> bool): (r: Option<nat>)
    ensures r.Some? ==> r.value < |interpreters| && canHandle(interpreters[r.value], cmdType)
    ensures r.Some? ==> forall j :: 0 <= j < r.value ==> !canHandle(interpreters[j], cmdType)
    ensures r.None? <==> forall j :: 0 <= j < |interpreters| ==> !canHandle(interpreters[j], cmdType)
  {
    if |interpreters| == 0 then None
    else if canHandle(interpreters[0], cmdType) then Some(0)
    else match FirstHandler(interpreters[1..], cmdType, canHandle)
      case None =>
        assert forall j :: 1 <= j < |interpreters| ==> interpreters[j] == interpreters[1..][j - 1];
        None
      case Some(k) => Some(k + 1)
  }

  function NoInterpreter(cmdType: string): string
  {
    "no interpreter found for command type: " + cmdType
  }

  /** The interpreters, in the order they were registered. `I` is the set of
      interpreters a program has; `canHandle` is their CanHandle. */
  class Registry<I> {
    var interpreters: seq<I>

    /** NewRegistry: no interpreters. */
    constructor ()
      ensures interpreters == []
    {
      interpreters := [];
    }

    /** Appends `interpreter` after the ones already registered. */
    method Register(interpreter: I)
      modifies this
      ensures interpreters == old(interpreters) + [interpreter]
    {
      interpreters := interpreters + [interpreter];
    }

    /** The first registered interpreter that handles `cmdType`. */
    method GetInterpreter(cmdType: string, canHandle: (I, string) -> bool) returns (r: Result<I, string>)
      ensures r.Ok? <==> FirstHandler(interpreters, cmdType, canHandle).Some?
      ensures r.Ok? ==> r.value == interpreters[FirstHandler(interpreters, cmdType, canHandle).value]
      ensures r.Err? ==> r.error == NoInterpreter(cmdType)
    {
      for i := 0 to |interpreters|
        invariant forall j :: 0 <= j < i ==> !canHandle(interpreters[j], cmdType)
      {
        if canHandle(interpreters[i], cmdType) {
          return Ok(interpreters[i]);
        }
      }
      return Err(NoInterpreter(cmdType));
    }
  }
}
