/** What the bash and docker interpreters share (internal/taskfile/interpreter):
    the process they start is a `Launcher`, and the `K=V` lists they build
    from maps. A launch is the program, its arguments and its environment
    (`None` when the child inherits the parent's); the launcher answers with
    the combined output and, for a run that failed, its error. */
module Launch {
  import opened Wrappers
  import opened Strings
  import opened Collections
  import opened Interpreter

  datatype RunOutcome = RunOutcome(output: string, failure: Option<string>)

  type Launcher = (string, seq<string>, Option<seq<string>>) -> RunOutcome

  /** The result an interpreter makes of a run: a failure keeps the output as
      it came, a success trims it. */
  function Shape(o: RunOutcome): CmdResult
  {
    if o.failure.None? then CmdResult(true, TrimSpace(o.output), None)
    else CmdResult(false, o.output, o.failure)
  }

  /** A successful run gives the part of its output between the leading and
      the trailing white space, starting at `i`: the result neither starts
      nor ends with white space, and nothing but white space is dropped. A
      failed run gives its output as it came, with the launch error. */
  lemma ShapeMeaning(o: RunOutcome) returns (i: nat)
    ensures Shape(o).success <==> o.failure.None?
    ensures o.failure.None? ==>
      var out := Shape(o).output;
      && Shape(o).error.None?
      && i + |out| <= |o.output| && out == o.output[i..i + |out|]
      && AllSpace(o.output[..i]) && AllSpace(o.output[i + |out|..])
      && (out == [] || (!IsSpace(out[0]) && !IsSpace(out[|out| - 1])))
    ensures o.failure.Some? ==> Shape(o).output == o.output && Shape(o).error == o.failure
  {
    i := 0;
    if o.failure.None? {
      i := TrimSpaceMeaning(o.output);
    }
  }

  /** `key<sep>value` for each key of `order`, in that order. */
  function Entries(m: map<string, string>, order: seq<string>, sep: string): (r: seq<string>)
    requires forall i :: 0 <= i < |order| ==> order[i] in m
    ensures |r| == |order|
  {
    if |order| == 0 then []
    else Entries(m, order[..|order| - 1], sep) + [order[|order| - 1] + sep + m[order[|order| - 1]]]
  }

  lemma {:induction false} EntriesAt(m: map<string, string>, order: seq<string>, sep: string, i: nat)
    requires forall j :: 0 <= j < |order| ==> order[j] in m
    requires i < |order|
    ensures Entries(m, order, sep)[i] == order[i] + sep + m[order[i]]
    decreases |order|
  {
    var n := |order| - 1;
    if i < n {
      EntriesAt(m, order[..n], sep, i);
    }
  }

  /** Each value preceded by `flag`: `flag v0 flag v1 ...`. */
  function Flags(flag: string, values: seq<string>): (r: seq<string>)
    ensures |r| == 2 * |values|
  {
    if |values| == 0 then []
    else Flags(flag, values[..|values| - 1]) + [flag, values[|values| - 1]]
  }

  lemma {:induction false} FlagsAt(flag: string, values: seq<string>, i: nat)
    requires i < |values|
    ensures Flags(flag, values)[2 * i] == flag && Flags(flag, values)[2 * i + 1] == values[i]
    decreases |values|
  {
    var n := |values| - 1;
    if i < n {
      FlagsAt(flag, values[..n], i);
    }
  }

  lemma {:induction false} FlagsConcat(flag: string, xs: seq<string>, ys: seq<string>)
    ensures Flags(flag, xs + ys) == Flags(flag, xs) + Flags(flag, ys)
    decreases |ys|
  {
    if |ys| > 0 {
      var n := |ys| - 1;
      assert (xs + ys)[..|xs| + n] == xs + ys[..n];
      FlagsConcat(flag, xs, ys[..n]);
    } else {
      assert xs + ys == xs;
    }
  }

  lemma FlaggedStep(flag: string, m: map<string, string>, order: seq<string>, sep: string, i: nat)
    requires i < |order| && forall j :: 0 <= j < |order| ==> order[j] in m
    ensures Flags(flag, Entries(m, order[..i + 1], sep)) == Flags(flag, Entries(m, order[..i], sep)) + [flag, order[i] + sep + m[order[i]]]
  {
    var e := order[i] + sep + m[order[i]];
    var es := Entries(m, order[..i], sep);
    assert order[..i + 1][..i] == order[..i];
    assert Entries(m, order[..i + 1], sep) == es + [e];
    assert (es + [e])[..|es|] == es;
  }

  /** A listing of a whole map names every entry of it once. */
  lemma EntriesCover(m: map<string, string>, order: seq<string>, sep: string)
    requires IsOrdering(order, m.Keys)
    ensures |Entries(m, order, sep)| == |m|
    ensures forall k :: k in m ==> k + sep + m[k] in Entries(m, order, sep)
  {
    var es := Entries(m, order, sep);
    forall k | k in m
      ensures k + sep + m[k] in es
    {
      var i :| 0 <= i < |order| && order[i] == k;
      EntriesAt(m, order, sep, i);
    }
  }

  /** `for k, v := range m { acc = append(acc, k + sep + v) }`, in the order
      the loop visits `m`. */
  method AppendEntries(acc: seq<string>, m: map<string, string>, sep: string) returns (r: seq<string>, order: seq<string>)
    ensures IsOrdering(order, m.Keys)
    ensures r == acc + Entries(m, order, sep)
  {
    order := SomeOrder(m.Keys);
    r := acc;
    for i := 0 to |order|
      invariant r == acc + Entries(m, order[..i], sep)
    {
      assert order[..i + 1][..i] == order[..i];
      r := r + [order[i] + sep + m[order[i]]];
    }
    assert order[..|order|] == order;
  }

  /** `for k, v := range m { acc = append(acc, flag, k + sep + v) }`, in the
      order the loop visits `m`. */
  method AppendFlagged(acc: seq<string>, flag: string, m: map<string, string>, sep: string) returns (r: seq<string>, order: seq<string>)
    ensures IsOrdering(order, m.Keys)
    ensures r == acc + Flags(flag, Entries(m, order, sep))
  {
    order := SomeOrder(m.Keys);
    r := acc;
    var i := 0;
    while i < |order|
      invariant 0 <= i <= |order|
      invariant r == acc + Flags(flag, Entries(m, order[..i], sep))
    {
      FlaggedStep(flag, m, order, sep, i);
      r := r + [flag, order[i] + sep + m[order[i]]];
      i := i + 1;
    }
    assert order[..|order|] == order;
  }
}
