/** The default interpreter registry (internal/taskfile/interpreter/registry.go):
    bash, python, docker and the task interpreter, registered in that order.
    `Interp` is the set of interpreters the program has; the task interpreter
    carries the executor it was built with. */
module DefaultRegistry {
  import opened Wrappers
  import opened Interpreter
  import BashInterpreter
  import DockerInterpreter
  import TaskInterpreter

  datatype Interp = Bash | Python | Docker | TaskRef(executor: TaskInterpreter.Executor)

  /** CanHandle of each interpreter. */
  predicate CanHandle(i: Interp, cmdType: string)
  {
    match i
    case Bash => BashInterpreter.CanHandle(cmdType)
    case Python => cmdType == "python"
    case Docker => DockerInterpreter.CanHandle(cmdType)
    case TaskRef(_) => TaskInterpreter.CanHandle(cmdType)
  }

  /** NewDefaultRegistry. */
  method NewDefaultRegistry(executor: TaskInterpreter.Executor) returns (registry: Registry<Interp>)
    ensures fresh(registry)
    ensures |registry.interpreters| == 4
    ensures registry.interpreters[0] == Bash && registry.interpreters[1] == Python && registry.interpreters[2] == Docker
    ensures registry.interpreters[3].TaskRef? && registry.interpreters[3].executor == executor
  {
    registry := new Registry<Interp>();
    registry.Register(Bash);
    registry.Register(Python);
    registry.Register(Docker);
    registry.Register(TaskRef(executor));
  }

  /** What the default registry resolves each command type to. */
  lemma Resolutions(interpreters: seq<Interp>, executor: TaskInterpreter.Executor, cmdType: string)
    requires |interpreters| == 4
    requires interpreters[0] == Bash && interpreters[1] == Python && interpreters[2] == Docker
    requires interpreters[3].TaskRef? && interpreters[3].executor == executor
    ensures cmdType == "ktr@bash" ==> FirstHandler(interpreters, cmdType, CanHandle) == Some(0)
    ensures cmdType == "python" ==> FirstHandler(interpreters, cmdType, CanHandle) == Some(1)
    ensures cmdType == "docker" ==> FirstHandler(interpreters, cmdType, CanHandle) == Some(2)
    ensures cmdType == "task" ==> FirstHandler(interpreters, cmdType, CanHandle) == Some(3)
    ensures FirstHandler(interpreters, cmdType, CanHandle).None? <==> cmdType !in {"ktr@bash", "python", "docker", "task"}
  {
    var n := FirstHandler(interpreters, cmdType, CanHandle);
    if cmdType == "python" {
      assert !CanHandle(interpreters[0], cmdType);
    } else if cmdType == "docker" {
      assert !CanHandle(interpreters[0], cmdType) && !CanHandle(interpreters[1], cmdType);
    } else if cmdType == "task" {
      assert !CanHandle(interpreters[0], cmdType) && !CanHandle(interpreters[1], cmdType) && !CanHandle(interpreters[2], cmdType);
    }
  }

  /** The handled types are disjoint: no command type is handled by two
      kinds of interpreter, so the registration order decides nothing. */
  lemma HandledTypesDisjoint(i: Interp, j: Interp, cmdType: string)
    requires CanHandle(i, cmdType) && CanHandle(j, cmdType)
    ensures i.Bash? == j.Bash? && i.Python? == j.Python? && i.Docker? == j.Docker? && i.TaskRef? == j.TaskRef?
  {
  }

  /** "shell" has no interpreter. */
  lemma ShellUnhandled(interpreters: seq<Interp>, executor: TaskInterpreter.Executor)
    requires |interpreters| == 4
    requires interpreters[0] == Bash && interpreters[1] == Python && interpreters[2] == Docker
    requires interpreters[3].TaskRef? && interpreters[3].executor == executor
    ensures FirstHandler(interpreters, "shell", CanHandle).None?
  {
    Resolutions(interpreters, executor, "shell");
  }
}
