/** The cycle walkers `ExecuteTask` of internal/taskfile/exec.go and
    kontraktor/internal/taskfile/exec.go. Both enter a task by marking it in
    a shared `visited` map, follow the steps that name another task in
    order, and clear the mark when every step succeeded; a task met while
    marked is a circular reference. The two differ only in which steps they
    follow, so the walk is written once over a step type `C` and a function
    `follow` giving the task a step names, if any.

    Go's `visited[name]` is false for a missing key: a name is marked when it
    is present with the value true. */
module CycleWalk {
  import opened Wrappers
  import opened Yaml
  import Manifest

  function Circular(name: string): string
  {
    "circular reference detected at task '" + name + "'"
  }

  function NotFound(name: string): string
  {
    "task '" + name + "' not found"
  }

  function Marked(visited: map<string, bool>): set<string>
  {
    set k | k in visited && visited[k]
  }

  /** The walk from `name`: its error, if any, and the `visited` map it
      leaves. A successful walk leaves exactly the marks it found and `name`
      cleared; a failed one removes no mark. Every call that goes deeper has
      marked one more task of `tasks`, which bounds the recursion. */
  function Walk<C>(tasks: map<string, seq<C>>, follow: C -> Option<string>, visited: map<string, bool>, name: string): (r: (Option<string>, map<string, bool>))
    ensures r.0.None? ==> name !in Marked(visited) && name in r.1 && !r.1[name] && Marked(r.1) == Marked(visited)
    ensures r.0.Some? ==> Marked(visited) <= Marked(r.1)
    decreases |tasks.Keys - Marked(visited)|, 0, 0
  {
    if name in visited && visited[name] then (Some(Circular(name)), visited)
    else
      var entered := visited[name := true];
      if name !in tasks then (Some(NotFound(name)), entered)
      else
        MarkedUpdate(visited, name, true);
        FewerUnmarked(tasks.Keys, Marked(visited), name);
        match WalkSteps(tasks, follow, entered, tasks[name], 0)
        case (None, after) =>
          MarkedUpdate(after, name, false);
          (None, after[name := false])
        case (Some(e), after) => (Some(e), after)
  }

  /** The steps from position `i` on, followed in order; the first failure
      stops the walk. */
  function WalkSteps<C>(tasks: map<string, seq<C>>, follow: C -> Option<string>, visited: map<string, bool>, cmds: seq<C>, i: nat): (r: (Option<string>, map<string, bool>))
    requires i <= |cmds|
    ensures r.0.None? ==> Marked(r.1) == Marked(visited)
    ensures r.0.Some? ==> Marked(visited) <= Marked(r.1)
    decreases |tasks.Keys - Marked(visited)|, 1, |cmds| - i
  {
    if i == |cmds| then (None, visited)
    else match follow(cmds[i])
      case None => WalkSteps(tasks, follow, visited, cmds, i + 1)
      case Some(child) =>
        match Walk(tasks, follow, visited, child)
        case (Some(e), after) => (Some(e), after)
        case (None, after) => WalkSteps(tasks, follow, after, cmds, i + 1)
  }

  /** A task met while marked is circular; an unknown one is not found, and
      stays marked. */
  lemma WalkStopsEarly<C>(tasks: map<string, seq<C>>, follow: C -> Option<string>, visited: map<string, bool>, name: string)
    requires name in Marked(visited) || name !in tasks
    ensures Walk(tasks, follow, visited, name)
         == if name in Marked(visited) then (Some(Circular(name)), visited) else (Some(NotFound(name)), visited[name := true])
  {
  }

  /** A task that is not marked and exists walks its steps with itself
      marked, and clears its mark when they all succeed. */
  lemma WalkRunsSteps<C>(tasks: map<string, seq<C>>, follow: C -> Option<string>, visited: map<string, bool>, name: string)
    requires name !in Marked(visited) && name in tasks
    ensures var wr := WalkSteps(tasks, follow, visited[name := true], tasks[name], 0);
      Walk(tasks, follow, visited, name) == if wr.0.None? then (None, wr.1[name := false]) else wr
  {
  }

  /** Step `i` naming `child` walks it and, when that succeeds, hands on to
      step `i + 1`. */
  lemma WalkStepsFollows<C>(tasks: map<string, seq<C>>, follow: C -> Option<string>, visited: map<string, bool>, cmds: seq<C>, i: nat, child: string)
    requires i < |cmds| && follow(cmds[i]) == Some(child)
    ensures var wc := Walk(tasks, follow, visited, child);
      WalkSteps(tasks, follow, visited, cmds, i) == if wc.0.Some? then wc else WalkSteps(tasks, follow, wc.1, cmds, i + 1)
  {
  }

  lemma MarkedUpdate(visited: map<string, bool>, name: string, b: bool)
    ensures Marked(visited[name := b]) == if b then Marked(visited) + {name} else Marked(visited) - {name}
  {
    var m := visited[name := b];
    forall k
      ensures k in Marked(m) <==> k in (if b then Marked(visited) + {name} else Marked(visited) - {name})
    {
      if k != name {
        assert k in m <==> k in visited;
      }
    }
  }

  /** Marking a task that was unmarked leaves fewer tasks to mark. */
  lemma FewerUnmarked(keys: set<string>, marked: set<string>, name: string)
    requires name in keys && name !in marked
    ensures |keys - (marked + {name})| < |keys - marked|
  {
    assert keys - (marked + {name}) == (keys - marked) - {name};
  }

  /** The `visited` map the walkers share. */
  class Marks {
    var visited: map<string, bool>

    constructor ()
      ensures visited == map[]
    {
      visited := map[];
    }
  }

  /** ExecuteTask over a step type and its `follow`. */
  method ExecuteTask<C>(tasks: map<string, seq<C>>, follow: C -> Option<string>, marks: Marks, name: string) returns (err: Option<string>)
    modifies marks
    ensures (err, marks.visited) == Walk(tasks, follow, old(marks.visited), name)
    decreases |tasks.Keys - Marked(marks.visited)|
  {
    if name in marks.visited && marks.visited[name] {
      return Some(Circular(name));
    }
    ghost var start := marks.visited;
    marks.visited := marks.visited[name := true];
    if name !in tasks {
      return Some(NotFound(name));
    }
    ghost var entered := marks.visited;
    MarkedUpdate(start, name, true);
    var cmds := tasks[name];
    for i := 0 to |cmds|
      invariant Marked(marks.visited) == Marked(entered)
      invariant WalkSteps(tasks, follow, marks.visited, cmds, i) == WalkSteps(tasks, follow, entered, cmds, 0)
    {
      var child := follow(cmds[i]);
      if child.Some? {
        FewerUnmarked(tasks.Keys, Marked(start), name);
        err := ExecuteTask(tasks, follow, marks, child.value);
        if err.Some? {
          return err;
        }
      }
    }
    marks.visited := marks.visited[name := false];
    return None;
  }

  /** A failed walk leaves the task it started from marked. */
  lemma FailureKeepsMark<C>(tasks: map<string, seq<C>>, follow: C -> Option<string>, visited: map<string, bool>, name: string)
    ensures Walk(tasks, follow, visited, name).0.Some? ==> name in Marked(Walk(tasks, follow, visited, name).1)
  {
    var entered := visited[name := true];
    assert name in Marked(entered);
  }

  /** A task that names itself fails as a circular reference. */
  lemma SelfReferenceFails<C>(tasks: map<string, seq<C>>, follow: C -> Option<string>, visited: map<string, bool>, name: string, step: C)
    requires name in tasks && tasks[name] == [step] && follow(step) == Some(name)
    requires name !in Marked(visited)
    ensures Walk(tasks, follow, visited, name).0 == Some(Circular(name))
  {
    var entered := visited[name := true];
    assert Walk(tasks, follow, entered, name) == (Some(Circular(name)), entered);
    assert WalkSteps(tasks, follow, entered, [step], 0) == (Some(Circular(name)), entered);
  }

  /** A task with no steps to follow succeeds and only clears its mark. */
  lemma LeafSucceeds<C>(tasks: map<string, seq<C>>, follow: C -> Option<string>, visited: map<string, bool>, name: string)
    requires name in tasks && name !in Marked(visited)
    requires forall j :: 0 <= j < |tasks[name]| ==> follow(tasks[name][j]).None?
    ensures Walk(tasks, follow, visited, name) == (None, visited[name := false])
  {
    var entered := visited[name := true];
    var cmds := tasks[name];
    LeafSteps(tasks, follow, entered, cmds, 0);
    assert entered[name := false] == visited[name := false];
  }

  lemma {:induction false} LeafSteps<C>(tasks: map<string, seq<C>>, follow: C -> Option<string>, visited: map<string, bool>, cmds: seq<C>, i: nat)
    requires i <= |cmds|
    requires forall j :: i <= j < |cmds| ==> follow(cmds[j]).None?
    ensures WalkSteps(tasks, follow, visited, cmds, i) == (None, visited)
    decreases |cmds| - i
  {
    if i < |cmds| {
      LeafSteps(tasks, follow, visited, cmds, i + 1);
    }
  }

  /** A diamond: `top` runs `left` and `right`, both of which run `bottom`.
      The second visit of `bottom` succeeds, because the first one cleared
      its mark. */
  lemma DiamondSucceeds<C>(tasks: map<string, seq<C>>, follow: C -> Option<string>, top: string, left: string, right: string, bottom: string, toLeft: C, toRight: C, toBottom: C)
    requires |{top, left, right, bottom}| == 4
    requires follow(toLeft) == Some(left) && follow(toRight) == Some(right) && follow(toBottom) == Some(bottom)
    requires top in tasks && tasks[top] == [toLeft, toRight]
    requires left in tasks && tasks[left] == [toBottom]
    requires right in tasks && tasks[right] == [toBottom]
    requires bottom in tasks && tasks[bottom] == []
    ensures Walk(tasks, follow, map[], top).0 == None
  {
    var v1 := map[top := true];
    var v2 := v1[left := true];
    LeafSucceeds(tasks, follow, v2, bottom);
    var v3 := v2[bottom := false];
    assert WalkSteps(tasks, follow, v3, [toBottom], 1) == (None, v3);
    assert Walk(tasks, follow, v1, left) == (None, v3[left := false]);
    var v4 := v3[left := false];
    var v5 := v4[right := true];
    LeafSucceeds(tasks, follow, v5, bottom);
    var v6 := v5[bottom := false];
    assert WalkSteps(tasks, follow, v6, [toBottom], 1) == (None, v6);
    assert Walk(tasks, follow, v4, right) == (None, v6[right := false]);
    assert WalkSteps(tasks, follow, v6[right := false], [toLeft, toRight], 2) == (None, v6[right := false]);
    assert WalkSteps(tasks, follow, v4, [toLeft, toRight], 1) == (None, v6[right := false]);
  }

  /** The steps of internal/taskfile/exec.go: a type tag and a content map. */
  datatype TypedCmd = TypedCmd(cmdType: string, content: map<string, Any>)

  /** A step of type "task" whose content has a non-empty string `name`. */
  function FollowTyped(cmd: TypedCmd): (r: Option<string>)
    ensures r.Some? <==> cmd.cmdType == "task" && "name" in cmd.content && cmd.content["name"].Str? && cmd.content["name"].s != ""
    ensures r.Some? ==> r.value == cmd.content["name"].s
  {
    if cmd.cmdType == "task" && "name" in cmd.content then
      match cmd.content["name"]
      case Str(n) => if n != "" then Some(n) else None
      case _ => None
    else None
  }

  /** A step of kontraktor/internal/taskfile/exec.go: its `Task` if set. */
  function FollowTask(cmd: Manifest.TaskCmd): (r: Option<string>)
    ensures r.Some? <==> cmd.task != ""
    ensures r.Some? ==> r.value == cmd.task
  {
    if cmd.task != "" then Some(cmd.task) else None
  }

  /** The tasks of a manifest as step lists. */
  function StepsOf(tasks: map<string, Manifest.Task>): (r: map<string, seq<Manifest.TaskCmd>>)
    ensures r.Keys == tasks.Keys
    ensures forall k :: k in r ==> r[k] == tasks[k].cmds
  {
    map k | k in tasks :: tasks[k].cmds
  }

  /** ExecuteTask of internal/taskfile/exec.go, whose tasks are lists of
      typed steps. */
  method ExecuteTypedTask(tasks: map<string, seq<TypedCmd>>, marks: Marks, name: string) returns (err: Option<string>)
    modifies marks
    ensures (err, marks.visited) == Walk(tasks, FollowTyped, old(marks.visited), name)
  {
    err := ExecuteTask(tasks, FollowTyped, marks, name);
  }

  /** ExecuteTask of kontraktor/internal/taskfile/exec.go, over a manifest. */
  method ExecuteManifestTask(tf: Manifest.Taskfile, marks: Marks, name: string) returns (err: Option<string>)
    modifies marks
    ensures (err, marks.visited) == Walk(StepsOf(tf.tasks), FollowTask, old(marks.visited), name)
  {
    err := ExecuteTask(StepsOf(tf.tasks), FollowTask, marks, name);
  }
}
