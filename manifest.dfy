/** The task manifest (internal/taskfile/taskfile.go): a version, the files it
    imports, a global environment and the tasks by name. `azureKeyVaults`
    stands for `Vaults.AzureKeyVault`, the list of vault configurations the
    older executor reads; a missing section is the empty list.

    `tasksPresent` is false when the decoder left `Tasks` a nil map (the file
    has no `tasks:` section, or one with no value); `tasks` is then empty, and
    writing into it panics. */
module Manifest {
  import opened Yaml

  /** A declared argument; `default` is `Nil` when none is given. */
  datatype TaskArg = TaskArg(name: string, argType: string, default: Any)

  /** One step: a shell command, a task reference, or a reusable task with
      arguments; unset fields are empty. */
  datatype TaskCmd = TaskCmd(cmd: string, task: string, uses: string, args: map<string, Any>)

  const EmptyCmd := TaskCmd("", "", "", map[])

  datatype Task = Task(
    desc: string,
    args: seq<TaskArg>,
    cmds: seq<TaskCmd>,
    environment: map<string, string>)

  /** A Key Vault and the environment names its secrets are exported under:
      `secrets` maps an environment name to a secret name. */
  datatype AzureKeyVaultConfig = AzureKeyVaultConfig(keyVaultName: string, secrets: map<string, string>)

  datatype Taskfile = Taskfile(
    version: string,
    imports: seq<string>,
    environment: map<string, string>,
    tasks: map<string, Task>,
    tasksPresent: bool,
    azureKeyVaults: seq<AzureKeyVaultConfig>)
}
