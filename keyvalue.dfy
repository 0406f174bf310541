/** The `key=value` command-line arguments that both generations of the CLI
    accept after the task name: each argument is split at its first `=` (the
    value may itself contain `=`), an argument without `=` is refused, and a
    later argument overrides an earlier one with the same key. */
module KeyValue {
  import opened Wrappers
  import opened Strings

  predicate IsPair(arg: string)
  {
    Contains(arg, "=")
  }

  function Key(arg: string): string
    requires IsPair(arg)
  {
    SplitFirst(arg, "=").value.0
  }

  function Value(arg: string): string
    requires IsPair(arg)
  {
    SplitFirst(arg, "=").value.1
  }

  /** The map the arguments build when all of them are pairs: each argument
      in turn writes its key. */
  function Assigned(args: seq<string>): map<string, string>
    requires forall i :: 0 <= i < |args| ==> IsPair(args[i])
  {
    if |args| == 0 then map[]
    else Assigned(args[..|args| - 1])[Key(args[|args| - 1]) := Value(args[|args| - 1])]
  }

  /** Splits each argument at its first `=`; the error names the first
      argument that has none. */
  method ParseArgs(args: seq<string>) returns (r: Result<map<string, string>, string>)
    ensures r.Ok? <==> forall i :: 0 <= i < |args| ==> IsPair(args[i])
    ensures r.Ok? ==> r.value == Assigned(args)
    ensures r.Err? ==> exists i :: 0 <= i < |args| && r.error == args[i] && !IsPair(args[i])
                                   && forall j :: 0 <= j < i ==> IsPair(args[j])
  {
    var m: map<string, string> := map[];
    for i := 0 to |args|
      invariant forall j :: 0 <= j < i ==> IsPair(args[j])
      invariant m == Assigned(args[..i])
    {
      var kv := SplitFirst(args[i], "=");
      if kv.None? {
        return Err(args[i]);
      }
      assert args[..i + 1][..i] == args[..i];
      m := m[kv.value.0 := kv.value.1];
    }
    assert args[..|args|] == args;
    return Ok(m);
  }

  /** An argument whose key has no `=` splits back into that key and the
      rest, whatever the rest holds. */
  lemma SplitsAtFirstEquals(key: string, value: string)
    requires '=' !in key
    ensures IsPair(key + "=" + value)
    ensures Key(key + "=" + value) == key && Value(key + "=" + value) == value
  {
    var s := key + "=" + value;
    assert s[|key|..] == "=" + value;
    assert HasPrefix(s[|key|..], "=");
    forall m | 0 <= m < |key|
      ensures !HasPrefix(s[m..], "=")
    {
      assert s[m..][0] == key[m];
    }
    IndexOfAt(s, "=", |key|);
  }

  /** The keys of the map are exactly the keys of the arguments. */
  lemma {:induction false} AssignedKeys(args: seq<string>)
    requires forall i :: 0 <= i < |args| ==> IsPair(args[i])
    ensures forall k :: k in Assigned(args) <==> exists i :: 0 <= i < |args| && Key(args[i]) == k
  {
    if |args| > 0 {
      var init := args[..|args| - 1];
      AssignedKeys(init);
      forall k | k in Assigned(args)
        ensures exists i :: 0 <= i < |args| && Key(args[i]) == k
      {
        if k != Key(args[|args| - 1]) {
          assert k in Assigned(init);
          var i :| 0 <= i < |init| && Key(init[i]) == k;
          assert Key(args[i]) == k;
        }
      }
      forall i | 0 <= i < |args|
        ensures Key(args[i]) in Assigned(args)
      {
        if i < |args| - 1 {
          assert Key(init[i]) == Key(args[i]);
        }
      }
    }
  }

  /** Each key holds the value of the LAST argument that names it. */
  lemma {:induction false} AssignedLastWins(args: seq<string>, i: nat)
    requires forall j :: 0 <= j < |args| ==> IsPair(args[j])
    requires i < |args| && forall j :: i < j < |args| ==> Key(args[j]) != Key(args[i])
    ensures Key(args[i]) in Assigned(args) && Assigned(args)[Key(args[i])] == Value(args[i])
  {
    if i < |args| - 1 {
      var init := args[..|args| - 1];
      assert init[i] == args[i];
      AssignedLastWins(init, i);
    }
  }

  /** `x=1 x=2` gives x = "2". */
  lemma LaterDuplicateOverrides()
    ensures IsPair("x=1") && IsPair("x=2")
    ensures Assigned(["x=1", "x=2"]) == map["x" := "2"]
  {
    SplitsAtFirstEquals("x", "1");
    SplitsAtFirstEquals("x", "2");
    assert "x=1" == "x" + "=" + "1";
    assert "x=2" == "x" + "=" + "2";
    assert ["x=1", "x=2"][..1] == ["x=1"];
    assert ["x=1"][..0] == [];
  }
}
