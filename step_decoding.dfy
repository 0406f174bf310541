/** Decoding of one entry of a task's `cmds` list (internal/taskfile/cmd.go;
    internal/taskfile/taskfile.go:37-64 holds the same code). A scalar entry is
    a shell command; a mapping entry names a task, a reusable task and its
    arguments; anything else is refused.

    Decoding the `args` value into a map is the YAML library's work and is the
    parameter `decodeArgs`. */
module StepDecoding {
  import opened Wrappers
  import opened Yaml
  import opened Manifest

  datatype DecodeError =
    | InvalidEntry(node: Node)     // "invalid cmd entry: %v"
    | ArgsError(message: string)   // the error of decoding an `args` value

  type ArgsDecoder = Node -> Result<map<string, Any>, string>

  /** A mapping lists keys and values alternately. */
  predicate WellFormed(node: Node)
  {
    node.kind == MappingNode ==> |node.content| % 2 == 0
  }

  /** One key/value pair applied to the fields decoded so far. */
  function ApplyPair(t: TaskCmd, k: Node, v: Node, decodeArgs: ArgsDecoder): Result<TaskCmd, DecodeError>
  {
    var t1 := if k.value == "task" then t.(task := v.value) else t;
    var t2 := if k.value == "uses" then t1.(uses := v.value) else t1;
    if k.value == "args" then
      match decodeArgs(v)
      case Err(e) => Err(ArgsError(e))
      case Ok(m) => Ok(t2.(args := m))
    else Ok(t2)
  }

  /** The pairs applied in order; a failure stops the walk and the fields
      written so far stay written. */
  function ApplyPairs(t: TaskCmd, pairs: seq<Node>, decodeArgs: ArgsDecoder): (TaskCmd, Option<DecodeError>)
    requires |pairs| % 2 == 0
    decreases |pairs|
  {
    if |pairs| == 0 then (t, None)
    else match ApplyPair(t, pairs[0], pairs[1], decodeArgs)
      case Err(e) => (t, Some(e))
      case Ok(t') => ApplyPairs(t', pairs[2..], decodeArgs)
  }

  /** The fields after decoding `node` into a record holding `t`, and the
      error, if any. */
  function Decode(t: TaskCmd, node: Node, decodeArgs: ArgsDecoder): (TaskCmd, Option<DecodeError>)
    requires WellFormed(node)
  {
    if node.kind == ScalarNode then (t.(cmd := node.value), None)
    else if node.kind == MappingNode then ApplyPairs(t, node.content, decodeArgs)
    else (t, Some(InvalidEntry(node)))
  }

  /** A `TaskCmd` being decoded: the YAML decoder hands `UnmarshalYAML` a
      record whose fields it writes one by one. */
  class CmdRecord {
    var cmd: string
    var task: string
    var uses: string
    var args: map<string, Any>

    function Value(): TaskCmd
      reads this
    {
      TaskCmd(cmd, task, uses, args)
    }

    /** A zero record. */
    constructor ()
      ensures Value() == EmptyCmd
    {
      cmd, task, uses, args := "", "", "", map[];
    }

    /** One key/value pair of a mapping entry: `task` and `uses` take the
        value's text, `args` the decoded map, and a failed decoding is
        returned with the record as it was. */
    method ApplyPairTo(k: Node, v: Node, decodeArgs: ArgsDecoder) returns (err: Option<DecodeError>)
      modifies this
      ensures ApplyPair(old(Value()), k, v, decodeArgs).Ok? ==> err.None? && Value() == ApplyPair(old(Value()), k, v, decodeArgs).value
      ensures ApplyPair(old(Value()), k, v, decodeArgs).Err? ==> err == Some(ApplyPair(old(Value()), k, v, decodeArgs).error) && Value() == old(Value())
    {
      if k.value == "task" {
        task := v.value;
      }
      if k.value == "uses" {
        uses := v.value;
      }
      if k.value == "args" {
        var m := decodeArgs(v);
        if m.Err? {
          return Some(ArgsError(m.error));
        }
        args := m.value;
      }
      return None;
    }

    method UnmarshalYAML(node: Node, decodeArgs: ArgsDecoder) returns (err: Option<DecodeError>)
      requires WellFormed(node)
      modifies this
      ensures (Value(), err) == Decode(old(Value()), node, decodeArgs)
    {
      if node.kind == ScalarNode {
        cmd := node.value;
        return None;
      }
      if node.kind == MappingNode {
        var i := 0;
        while i < |node.content|
          invariant 0 <= i <= |node.content| && i % 2 == 0
          invariant ApplyPairs(Value(), node.content[i..], decodeArgs) == Decode(old(Value()), node, decodeArgs)
        {
          var rest := node.content[i..];
          assert rest[0] == node.content[i] && rest[1] == node.content[i + 1] && rest[2..] == node.content[i + 2..];
          var e := ApplyPairTo(node.content[i], node.content[i + 1], decodeArgs);
          if e.Some? {
            return e;
          }
          i := i + 2;
        }
        return None;
      }
      return Some(InvalidEntry(node));
    }
  }

  /** The value of the last pair whose key is `key`. */
  function LastValue(pairs: seq<Node>, key: string): Option<Node>
    requires |pairs| % 2 == 0
    decreases |pairs|
  {
    if |pairs| == 0 then None
    else match LastValue(pairs[2..], key)
      case Some(v) => Some(v)
      case None => if pairs[0].value == key then Some(pairs[1]) else None
  }

  /** Whether some `args` value fails to decode. */
  predicate SomeArgsFail(pairs: seq<Node>, decodeArgs: ArgsDecoder)
    requires |pairs| % 2 == 0
  {
    exists i :: 0 <= i < |pairs| / 2 && pairs[2 * i].value == "args" && decodeArgs(pairs[2 * i + 1]).Err?
  }

  lemma SomeArgsFailStep(pairs: seq<Node>, decodeArgs: ArgsDecoder)
    requires |pairs| % 2 == 0 && |pairs| > 0
    ensures SomeArgsFail(pairs, decodeArgs) <==>
      (pairs[0].value == "args" && decodeArgs(pairs[1]).Err?) || SomeArgsFail(pairs[2..], decodeArgs)
  {
    var rest := pairs[2..];
    if SomeArgsFail(pairs, decodeArgs) && !(pairs[0].value == "args" && decodeArgs(pairs[1]).Err?) {
      var i :| 0 <= i < |pairs| / 2 && pairs[2 * i].value == "args" && decodeArgs(pairs[2 * i + 1]).Err?;
      assert rest[2 * (i - 1)] == pairs[2 * i] && rest[2 * (i - 1) + 1] == pairs[2 * i + 1];
    }
    if SomeArgsFail(rest, decodeArgs) {
      var i :| 0 <= i < |rest| / 2 && rest[2 * i].value == "args" && decodeArgs(rest[2 * i + 1]).Err?;
      assert pairs[2 * (i + 1)] == rest[2 * i] && pairs[2 * (i + 1) + 1] == rest[2 * i + 1];
    }
  }

  /** A mapping entry decodes without error exactly when every `args` value
      decodes; then `task`, `uses` and `args` hold the LAST pair for their key
      (or stay as they were when the key is absent), `cmd` is untouched and
      every other key is ignored. */
  lemma {:induction false} MappingFields(t: TaskCmd, pairs: seq<Node>, decodeArgs: ArgsDecoder)
    requires |pairs| % 2 == 0
    ensures ApplyPairs(t, pairs, decodeArgs).1.None? <==> !SomeArgsFail(pairs, decodeArgs)
    ensures ApplyPairs(t, pairs, decodeArgs).0.cmd == t.cmd
    ensures ApplyPairs(t, pairs, decodeArgs).1.None? ==>
      var r := ApplyPairs(t, pairs, decodeArgs).0;
      && r.task == (match LastValue(pairs, "task") case Some(v) => v.value case None => t.task)
      && r.uses == (match LastValue(pairs, "uses") case Some(v) => v.value case None => t.uses)
      && (match LastValue(pairs, "args") case Some(v) => decodeArgs(v) == Ok(r.args) case None => r.args == t.args)
    decreases |pairs|
  {
    if |pairs| > 0 {
      SomeArgsFailStep(pairs, decodeArgs);
      match ApplyPair(t, pairs[0], pairs[1], decodeArgs)
      case Err(e) =>
      case Ok(t') =>
        MappingFields(t', pairs[2..], decodeArgs);
    }
  }

  /** A scalar entry sets the command and nothing else; a node that is
      neither a scalar nor a mapping is refused and changes nothing. */
  lemma ScalarAndOtherNodes(t: TaskCmd, node: Node, decodeArgs: ArgsDecoder)
    requires WellFormed(node)
    ensures node.kind == ScalarNode ==>
      Decode(t, node, decodeArgs) == (TaskCmd(node.value, t.task, t.uses, t.args), None)
    ensures node.kind != ScalarNode && node.kind != MappingNode ==>
      Decode(t, node, decodeArgs) == (t, Some(InvalidEntry(node)))
  {
  }

  /** `uses: docker-build` followed by `args:` decodes to a reusable task
      with the decoded arguments; a repeated `task` key keeps the later
      value. */
  lemma UsesWithArgs(usesValue: Node, argsValue: Node, decodeArgs: ArgsDecoder)
    requires decodeArgs(argsValue).Ok?
    ensures var n := Node(MappingNode, "", [Node(ScalarNode, "uses", []), usesValue, Node(ScalarNode, "args", []), argsValue]);
      Decode(EmptyCmd, n, decodeArgs) == (TaskCmd("", "", usesValue.value, decodeArgs(argsValue).value), None)
  {
    var pairs := [Node(ScalarNode, "uses", []), usesValue, Node(ScalarNode, "args", []), argsValue];
    var t1 := EmptyCmd.(uses := usesValue.value);
    var t2 := t1.(args := decodeArgs(argsValue).value);
    assert ApplyPair(EmptyCmd, pairs[0], pairs[1], decodeArgs) == Ok(t1);
    assert ApplyPair(t1, pairs[2..][0], pairs[2..][1], decodeArgs) == Ok(t2);
    assert pairs[2..][2..] == [];
    assert ApplyPairs(t1, pairs[2..], decodeArgs) == ApplyPairs(t2, [], decodeArgs);
    assert ApplyPairs(EmptyCmd, pairs, decodeArgs) == ApplyPairs(t1, pairs[2..], decodeArgs);
    assert Decode(EmptyCmd, Node(MappingNode, "", pairs), decodeArgs) == (t2, None);
  }

  lemma LaterTaskKeyWins(first: string, second: string, decodeArgs: ArgsDecoder)
    ensures var n := Node(MappingNode, "", [Node(ScalarNode, "task", []), Node(ScalarNode, first, []),
                                            Node(ScalarNode, "task", []), Node(ScalarNode, second, [])]);
      Decode(EmptyCmd, n, decodeArgs) == (EmptyCmd.(task := second), None)
  {
    var pairs := [Node(ScalarNode, "task", []), Node(ScalarNode, first, []),
                  Node(ScalarNode, "task", []), Node(ScalarNode, second, [])];
    var t1 := EmptyCmd.(task := first);
    assert ApplyPair(EmptyCmd, pairs[0], pairs[1], decodeArgs) == Ok(t1);
    assert ApplyPair(t1, pairs[2..][0], pairs[2..][1], decodeArgs) == Ok(EmptyCmd.(task := second));
    assert pairs[2..][2..] == [];
    assert ApplyPairs(t1, pairs[2..], decodeArgs) == ApplyPairs(EmptyCmd.(task := second), [], decodeArgs);
    assert ApplyPairs(EmptyCmd, pairs, decodeArgs) == ApplyPairs(t1, pairs[2..], decodeArgs);
    assert Decode(EmptyCmd, Node(MappingNode, "", pairs), decodeArgs) == (EmptyCmd.(task := second), None);
  }
}
