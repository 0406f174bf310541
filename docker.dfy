/** The docker interpreter (internal/taskfile/interpreter/docker.go): a step
    of type "docker" whose content is a `DockerCommand` with an image runs as
    `docker run --rm ...`. The argument list passes the context's environment,
    its secrets and the step's own environment as `-e K=V`, each volume as
    `-v host:container`, the network if one is named, then the image and the
    command words. The child inherits the parent's environment, and nothing is
    substituted. */
module DockerInterpreter {
  import opened Wrappers
  import opened Collections
  import opened Interpreter
  import opened Launch
  import Vars

  predicate CanHandle(cmdType: string)
  {
    cmdType == "docker"
  }

  const InvalidContent := "invalid command content for docker interpreter"
  const ImageRequired := "docker image is required"

  /** The `--network` pair, present only for a named network. */
  function NetworkArgs(network: string): seq<string>
  {
    if network != "" then ["--network", network] else []
  }

  /** The `-e` values: the context's environment entries, then its secrets,
      then the step's environment entries, each listed in the order the loop
      visited its map. */
  function EnvEntries(dc: DockerCommand, vars: Vars.Context, envOrder: seq<string>, secretOrder: seq<string>, cmdEnvOrder: seq<string>): seq<string>
    requires forall i :: 0 <= i < |envOrder| ==> envOrder[i] in vars.environment
    requires forall i :: 0 <= i < |secretOrder| ==> secretOrder[i] in vars.secrets
    requires forall i :: 0 <= i < |cmdEnvOrder| ==> cmdEnvOrder[i] in dc.environment
  {
    Entries(vars.environment, envOrder, "=") + Entries(vars.secrets, secretOrder, "=") + Entries(dc.environment, cmdEnvOrder, "=")
  }

  /** The whole argument list of `docker`. */
  function Args(dc: DockerCommand, vars: Vars.Context, envOrder: seq<string>, secretOrder: seq<string>, cmdEnvOrder: seq<string>, volumeOrder: seq<string>): seq<string>
    requires forall i :: 0 <= i < |envOrder| ==> envOrder[i] in vars.environment
    requires forall i :: 0 <= i < |secretOrder| ==> secretOrder[i] in vars.secrets
    requires forall i :: 0 <= i < |cmdEnvOrder| ==> cmdEnvOrder[i] in dc.environment
    requires forall i :: 0 <= i < |volumeOrder| ==> volumeOrder[i] in dc.volumes
  {
    ["run", "--rm"]
    + Flags("-e", EnvEntries(dc, vars, envOrder, secretOrder, cmdEnvOrder))
    + Flags("-v", Entries(dc.volumes, volumeOrder, ":"))
    + NetworkArgs(dc.network) + [dc.image] + dc.command
  }

  /** What Execute gives, for the argument list `args` it launches with. */
  function Outcome(cmd: Command, args: seq<string>, launch: Launcher): Result<CmdResult, string>
  {
    match cmd.content
    case DockerContent(dc) =>
      if dc.image == "" then Err(ImageRequired)
      else Ok(Shape(launch("docker", args, None)))
    case _ => Err(InvalidContent)
  }

  /** Execute. The four orders are those in which the loops visited the
      context's environment, its secrets, the step's environment and its
      volumes; they are only chosen once the step has passed its checks. */
  method Execute(cmd: Command, ctx: TaskContext, launch: Launcher) returns (r: Result<CmdResult, string>, args: seq<string>, envOrder: seq<string>, secretOrder: seq<string>, cmdEnvOrder: seq<string>, volumeOrder: seq<string>)
    ensures r == Outcome(cmd, args, launch)
    ensures r.Ok? ==>
      && cmd.content.DockerContent?
      && IsOrdering(envOrder, ctx.vars.environment.Keys)
      && IsOrdering(secretOrder, ctx.vars.secrets.Keys)
      && IsOrdering(cmdEnvOrder, cmd.content.docker.environment.Keys)
      && IsOrdering(volumeOrder, cmd.content.docker.volumes.Keys)
      && args == Args(cmd.content.docker, ctx.vars, envOrder, secretOrder, cmdEnvOrder, volumeOrder)
  {
    args, envOrder, secretOrder, cmdEnvOrder, volumeOrder := [], [], [], [], [];
    if !cmd.content.DockerContent? {
      return Err(InvalidContent), args, envOrder, secretOrder, cmdEnvOrder, volumeOrder;
    }
    var dc := cmd.content.docker;
    if dc.image == "" {
      return Err(ImageRequired), args, envOrder, secretOrder, cmdEnvOrder, volumeOrder;
    }
    args := ["run", "--rm"];
    args, envOrder := AppendFlagged(args, "-e", ctx.vars.environment, "=");
    args, secretOrder := AppendFlagged(args, "-e", ctx.vars.secrets, "=");
    args, cmdEnvOrder := AppendFlagged(args, "-e", dc.environment, "=");
    args, volumeOrder := AppendFlagged(args, "-v", dc.volumes, ":");
    OptionsSplit(dc, ctx.vars, envOrder, secretOrder, cmdEnvOrder, volumeOrder, args);
    args := args + NetworkArgs(dc.network);
    args := args + [dc.image];
    args := args + dc.command;
    r := Ok(Shape(launch("docker", args, None)));
  }

  /** The four appending loops, one after another, build `run --rm` and the
      options. */
  lemma OptionsSplit(dc: DockerCommand, vars: Vars.Context, envOrder: seq<string>, secretOrder: seq<string>, cmdEnvOrder: seq<string>, volumeOrder: seq<string>, built: seq<string>)
    requires forall i :: 0 <= i < |envOrder| ==> envOrder[i] in vars.environment
    requires forall i :: 0 <= i < |secretOrder| ==> secretOrder[i] in vars.secrets
    requires forall i :: 0 <= i < |cmdEnvOrder| ==> cmdEnvOrder[i] in dc.environment
    requires forall i :: 0 <= i < |volumeOrder| ==> volumeOrder[i] in dc.volumes
    requires built == ["run", "--rm"]
      + Flags("-e", Entries(vars.environment, envOrder, "="))
      + Flags("-e", Entries(vars.secrets, secretOrder, "="))
      + Flags("-e", Entries(dc.environment, cmdEnvOrder, "="))
      + Flags("-v", Entries(dc.volumes, volumeOrder, ":"))
    ensures built + NetworkArgs(dc.network) + [dc.image] + dc.command == Args(dc, vars, envOrder, secretOrder, cmdEnvOrder, volumeOrder)
  {
    var ea := Entries(vars.environment, envOrder, "=");
    var eb := Entries(vars.secrets, secretOrder, "=");
    var ec := Entries(dc.environment, cmdEnvOrder, "=");
    FlagsConcat("-e", ea, eb);
    FlagsConcat("-e", ea + eb, ec);
    Regroup(["run", "--rm"], Flags("-e", ea), Flags("-e", eb), Flags("-e", ec));
  }

  lemma Regroup(h: seq<string>, x: seq<string>, y: seq<string>, z: seq<string>)
    ensures h + x + y + z == h + (x + y + z)
  {
  }

  /** The parts of `h + x + y + t` where they stand. */
  lemma Parts(h: seq<string>, x: seq<string>, y: seq<string>, t: seq<string>)
    ensures var a := h + x + y + t;
      && a[..|h|] == h
      && a[|h|..|h| + |x|] == x
      && a[|h| + |x|..|h| + |x| + |y|] == y
      && a[|h| + |x| + |y|..] == t
  {
    var a := h + x + y + t;
    assert a == h + (x + (y + t));
  }

  /** The last flag of a non-empty flag list is `flag`; a step of the
      `ArgsLayout` proof. */
  lemma FlagsPenultimate(flag: string, values: seq<string>)
    requires |values| > 0
    ensures Flags(flag, values)[2 * |values| - 2] == flag
  {
  }

  /** The argument list is `run --rm`, the `-e` pairs, the `-v` pairs, and
      then the network, image and command words. */
  lemma ArgsLayout(dc: DockerCommand, vars: Vars.Context, envOrder: seq<string>, secretOrder: seq<string>, cmdEnvOrder: seq<string>, volumeOrder: seq<string>)
    requires forall i :: 0 <= i < |envOrder| ==> envOrder[i] in vars.environment
    requires forall i :: 0 <= i < |secretOrder| ==> secretOrder[i] in vars.secrets
    requires forall i :: 0 <= i < |cmdEnvOrder| ==> cmdEnvOrder[i] in dc.environment
    requires forall i :: 0 <= i < |volumeOrder| ==> volumeOrder[i] in dc.volumes
    ensures var a := Args(dc, vars, envOrder, secretOrder, cmdEnvOrder, volumeOrder);
      var e := EnvEntries(dc, vars, envOrder, secretOrder, cmdEnvOrder);
      var v := Entries(dc.volumes, volumeOrder, ":");
      var q := 2 + 2 * |e| + 2 * |v|;
      && q <= |a|
      && a[..2] == ["run", "--rm"]
      && a[2..2 + 2 * |e|] == Flags("-e", e)
      && a[2 + 2 * |e|..q] == Flags("-v", v)
      && a[q..] == NetworkArgs(dc.network) + [dc.image] + dc.command
  {
    var a := Args(dc, vars, envOrder, secretOrder, cmdEnvOrder, volumeOrder);
    var fe := Flags("-e", EnvEntries(dc, vars, envOrder, secretOrder, cmdEnvOrder));
    var fv := Flags("-v", Entries(dc.volumes, volumeOrder, ":"));
    var t := NetworkArgs(dc.network) + [dc.image] + dc.command;
    assert a == ["run", "--rm"] + fe + fv + t;
    Parts(["run", "--rm"], fe, fv, t);
  }

  /** The argument list ends with the image and the command words, and has
      `--network N` just before the image exactly when a network is named. */
  lemma ArgsTail(dc: DockerCommand, vars: Vars.Context, envOrder: seq<string>, secretOrder: seq<string>, cmdEnvOrder: seq<string>, volumeOrder: seq<string>)
    requires forall i :: 0 <= i < |envOrder| ==> envOrder[i] in vars.environment
    requires forall i :: 0 <= i < |secretOrder| ==> secretOrder[i] in vars.secrets
    requires forall i :: 0 <= i < |cmdEnvOrder| ==> cmdEnvOrder[i] in dc.environment
    requires forall i :: 0 <= i < |volumeOrder| ==> volumeOrder[i] in dc.volumes
    ensures var a := Args(dc, vars, envOrder, secretOrder, cmdEnvOrder, volumeOrder);
      var p := |a| - |dc.command| - 1;
      && 2 <= p
      && a[p] == dc.image
      && a[p + 1..] == dc.command
      && (a[p - 2] == "--network" <==> dc.network != "")
      && (dc.network != "" ==> a[p - 1] == dc.network)
  {
    ArgsLayout(dc, vars, envOrder, secretOrder, cmdEnvOrder, volumeOrder);
    var a := Args(dc, vars, envOrder, secretOrder, cmdEnvOrder, volumeOrder);
    var e := EnvEntries(dc, vars, envOrder, secretOrder, cmdEnvOrder);
    var v := Entries(dc.volumes, volumeOrder, ":");
    var q := 2 + 2 * |e| + 2 * |v|;
    var p := |a| - |dc.command| - 1;
    var t := a[q..];
    assert t[|t| - |dc.command| - 1] == dc.image;
    assert a[p + 1..] == t[|t| - |dc.command|..];
    if dc.network == "" {
      assert q == p;
      if |v| > 0 {
        FlagsPenultimate("-v", v);
        assert a[p - 2] == a[2 + 2 * |e|..q][2 * |v| - 2];
      } else if |e| > 0 {
        FlagsPenultimate("-e", e);
        assert a[p - 2] == a[2..2 + 2 * |e|][2 * |e| - 2];
      } else {
        assert a[p - 2] == a[..2][0];
      }
    } else {
      assert q + 2 == p;
      assert a[p - 2] == t[0];
    }
  }

  /** Every environment entry, secret and step environment entry is among
      the `-e` values, and every volume `host:container` among the `-v`
      values; there are no others. */
  lemma ArgsPassEverything(dc: DockerCommand, vars: Vars.Context, envOrder: seq<string>, secretOrder: seq<string>, cmdEnvOrder: seq<string>, volumeOrder: seq<string>)
    requires IsOrdering(envOrder, vars.environment.Keys)
    requires IsOrdering(secretOrder, vars.secrets.Keys)
    requires IsOrdering(cmdEnvOrder, dc.environment.Keys)
    requires IsOrdering(volumeOrder, dc.volumes.Keys)
    ensures var e := EnvEntries(dc, vars, envOrder, secretOrder, cmdEnvOrder);
      var v := Entries(dc.volumes, volumeOrder, ":");
      && |e| == |vars.environment| + |vars.secrets| + |dc.environment|
      && |v| == |dc.volumes|
      && (forall k :: k in vars.environment ==> k + "=" + vars.environment[k] in e)
      && (forall k :: k in vars.secrets ==> k + "=" + vars.secrets[k] in e)
      && (forall k :: k in dc.environment ==> k + "=" + dc.environment[k] in e)
      && (forall k :: k in dc.volumes ==> k + ":" + dc.volumes[k] in v)
  {
    EntriesCover(vars.environment, envOrder, "=");
    EntriesCover(vars.secrets, secretOrder, "=");
    EntriesCover(dc.environment, cmdEnvOrder, "=");
    EntriesCover(dc.volumes, volumeOrder, ":");
  }

  /** A step that is not a docker command, or has no image, launches
      nothing: its result is the same whatever the launcher. */
  lemma RefusedStepsLaunchNothing(cmd: Command, args1: seq<string>, args2: seq<string>, launch1: Launcher, launch2: Launcher)
    requires !cmd.content.DockerContent? || cmd.content.docker.image == ""
    ensures Outcome(cmd, args1, launch1) == Outcome(cmd, args2, launch2)
    ensures Outcome(cmd, args1, launch1).Err?
  {
  }
}
