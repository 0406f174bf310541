/** The shell steps of the older command-line program (cmd/kontraktor/main.go):
    `runShellCommand` runs `bash -c <command>` with the parent's environment
    merged with the task's, prints each line of the child's standard output
    with every value of the task's environment masked, and reports the first
    error of the pipe, the start, the wait or the scanner.

    The child process is the parameter `shell`: given the command and the
    environment list, it answers with what the pipe, the start, the output
    lines, the wait and the scanner gave. The parent's environment
    (`os.Environ()`) is the parameter `osEnv`. Each loop over the task's
    environment visits its keys in the order `order`. */
module ShellCommand {
  import opened Wrappers
  import opened Strings
  import opened Collections
  import opened Launch
  import KeyValue

  const Placeholder := "<<SENSITIVE>>"

  /** What running the command gave, step by step. */
  datatype Process = Process(
    pipeError: Option<string>,
    startError: Option<string>,
    lines: seq<string>,
    waitError: Option<string>,
    scanError: Option<string>)

  /** `bash -c <command>` run with the given environment list. */
  type Shell = (string, seq<string>) -> Process

  function PipeFailed(e: string): string
  {
    "failed to create stdout pipe: " + e
  }

  function StartFailed(e: string): string
  {
    "failed to start command: " + e
  }

  function WaitFailed(e: string): string
  {
    "command failed: " + e
  }

  /** An entry of the parent's environment survives the merge when it has
      the `K=V` form and the task's environment does not set `K`. */
  predicate Kept(e: string, env: map<string, string>)
  {
    KeyValue.IsPair(e) && KeyValue.Key(e) !in env
  }

  /** The surviving entries of the parent's environment, in their order. */
  function KeptEntries(base: seq<string>, env: map<string, string>): seq<string>
  {
    if |base| == 0 then []
    else KeptEntries(base[..|base| - 1], env) + (if Kept(base[|base| - 1], env) then [base[|base| - 1]] else [])
  }

  /** The child's environment: the surviving parent entries, then `K=V` for
      each entry of the task's environment. */
  function ChildEnv(base: seq<string>, env: map<string, string>, order: seq<string>): seq<string>
    requires IsOrdering(order, env.Keys)
  {
    KeptEntries(base, env) + Entries(env, order, "=")
  }

  /** An entry survives exactly when it is a `K=V` entry of the parent whose
      `K` the task does not set. */
  lemma {:induction false} KeptExactly(base: seq<string>, env: map<string, string>)
    ensures forall e :: e in KeptEntries(base, env) <==> e in base && Kept(e, env)
    decreases |base|
  {
    if |base| > 0 {
      var n := |base| - 1;
      KeptExactly(base[..n], env);
      assert base == base[..n] + [base[n]];
    }
  }

  /** mergeWithOSEnv. The source also fills a `seen` set that nothing reads;
      the model leaves it out. */
  method MergeWithOSEnv(base: seq<string>, env: map<string, string>, order: seq<string>) returns (result: seq<string>)
    requires IsOrdering(order, env.Keys)
    ensures result == ChildEnv(base, env, order)
  {
    result := [];
    for i := 0 to |base|
      invariant result == KeptEntries(base[..i], env)
    {
      assert base[..i + 1][..i] == base[..i];
      var kv := SplitFirst(base[i], "=");
      if kv.Some? {
        if kv.value.0 in env {
          continue;
        }
        result := result + [base[i]];
      }
    }
    assert base[..|base|] == base;
    for i := 0 to |order|
      invariant result == KeptEntries(base, env) + Entries(env, order[..i], "=")
    {
      assert order[..i + 1][..i] == order[..i];
      result := result + [order[i] + "=" + env[order[i]]];
    }
    assert order[..|order|] == order;
  }

  /** The child's environment sets every variable of the task to the task's
      value, and keeps from the parent only the `K=V` entries the task does
      not override. */
  lemma ChildEnvMeaning(base: seq<string>, env: map<string, string>, order: seq<string>)
    requires IsOrdering(order, env.Keys)
    ensures |ChildEnv(base, env, order)| == |KeptEntries(base, env)| + |env|
    ensures forall k :: k in env ==> k + "=" + env[k] in ChildEnv(base, env, order)
    ensures forall e :: e in ChildEnv(base, env, order) ==>
      (e in base && Kept(e, env)) || exists k :: k in env && e == k + "=" + env[k]
  {
    KeptExactly(base, env);
    EntriesCover(env, order, "=");
    var entries := Entries(env, order, "=");
    forall e | e in ChildEnv(base, env, order) && e !in KeptEntries(base, env)
      ensures exists k :: k in env && e == k + "=" + env[k]
    {
      var i :| 0 <= i < |entries| && entries[i] == e;
      EntriesAt(env, order, "=", i);
    }
  }

  /** The masking as evidently intended: one output line with the value of
      every key of `order` replaced by the placeholder, in that order, an
      empty value skipped. */
  function Masked(line: string, env: map<string, string>, order: seq<string>): string
    requires forall i :: 0 <= i < |order| ==> order[i] in env
  {
    if |order| == 0 then line
    else
      var l := Masked(line, env, order[..|order| - 1]);
      var v := env[order[|order| - 1]];
      if v != "" && Contains(l, v) then ReplaceAll(l, v, Placeholder) else l
  }

  /** The masking loop as the source writes it: an empty value is contained
      in every line, and replacing it inserts the placeholder around every
      rune. */
  function MaskedAsWritten(line: string, env: map<string, string>, order: seq<string>): string
    requires forall i :: 0 <= i < |order| ==> order[i] in env
  {
    if |order| == 0 then line
    else
      var l := MaskedAsWritten(line, env, order[..|order| - 1]);
      var v := env[order[|order| - 1]];
      if Contains(l, v) then ReplaceAll(l, v, Placeholder) else l
  }

  /** Masks one line, as the source does: every value, the empty one
      included. */
  method MaskLine(line: string, env: map<string, string>, order: seq<string>) returns (r: string)
    requires IsOrdering(order, env.Keys)
    ensures r == MaskedAsWritten(line, env, order)
  {
    r := line;
    for i := 0 to |order|
      invariant r == MaskedAsWritten(line, env, order[..i])
    {
      assert order[..i + 1][..i] == order[..i];
      var v := env[order[i]];
      if Contains(r, v) {
        r := ReplaceAll(r, v, Placeholder);
      }
    }
    assert order[..|order|] == order;
  }

  /** Where no value of the environment is empty, the masking as written is
      the corrected masking. */
  lemma {:induction false} MaskingAgrees(line: string, env: map<string, string>, order: seq<string>)
    requires forall i :: 0 <= i < |order| ==> order[i] in env && env[order[i]] != ""
    ensures MaskedAsWritten(line, env, order) == Masked(line, env, order)
    decreases |order|
  {
    if |order| > 0 {
      MaskingAgrees(line, env, order[..|order| - 1]);
    }
  }

  /** As written, a line that contains no value of the environment is printed
      as it came; since every line contains the empty value, this needs every
      value to be non-empty. */
  lemma {:induction false} MaskedAsWrittenUnchanged(line: string, env: map<string, string>, order: seq<string>)
    requires forall i :: 0 <= i < |order| ==> order[i] in env && !Contains(line, env[order[i]])
    ensures MaskedAsWritten(line, env, order) == line
    decreases |order|
  {
    if |order| > 0 {
      MaskedAsWrittenUnchanged(line, env, order[..|order| - 1]);
    }
  }

  /** The corrected masking: a line that holds no non-empty value of the
      environment is printed as it came. */
  lemma {:induction false} MaskedUnchanged(line: string, env: map<string, string>, order: seq<string>)
    requires forall i :: 0 <= i < |order| ==> order[i] in env
    requires forall i :: 0 <= i < |order| ==> env[order[i]] == "" || !Contains(line, env[order[i]])
    ensures Masked(line, env, order) == line
    decreases |order|
  {
    if |order| > 0 {
      MaskedUnchanged(line, env, order[..|order| - 1]);
    }
  }

  /** A line that is exactly the one value of the environment is printed as
      the placeholder. */
  lemma MaskedWholeValue(k: string, v: string)
    requires v != ""
    ensures MaskedAsWritten(v, map[k := v], [k]) == Placeholder
  {
    assert [k][..0] == [];
    assert MaskedAsWritten(v, map[k := v], []) == v;
    assert HasPrefix(v, v);
    assert v[|v|..] == "";
    assert ReplaceAll(v, v, Placeholder) == Placeholder + ReplaceAll("", v, Placeholder);
  }

  /** Replacing a value whose first rune does not occur in `a` leaves `a`
      alone. */
  lemma {:induction false} ReplaceAfterPlain(a: string, rest: string, v: string)
    requires v != "" && v[0] !in a
    ensures ReplaceAll(a + rest, v, Placeholder) == a + ReplaceAll(rest, v, Placeholder)
    decreases |a|
  {
    if |a| > 0 {
      var s := a + rest;
      assert !HasPrefix(s, v) by {
        assert s[0] == a[0] != v[0];
        if |v| <= |s| {
          assert s[..|v|][0] == s[0];
        }
      }
      assert s[1..] == a[1..] + rest;
      ReplaceAfterPlain(a[1..], rest, v);
      assert a == [a[0]] + a[1..];
    } else {
      assert a + rest == rest;
    }
  }

  /** A value at the front, with no other occurrence after it, is replaced. */
  lemma ReplaceAtFront(v: string, b: string)
    requires v != "" && !Contains(b, v)
    ensures HasPrefix(v + b, v)
    ensures ReplaceAll(v + b, v, Placeholder) == Placeholder + b
  {
    var t := v + b;
    assert t[..|v|] == v;
    assert t[|v|..] == b;
    ReplaceAbsent(b, v, Placeholder);
  }

  /** The one occurrence of `v` in `a + v + b` is found and replaced. */
  lemma ReplaceValueInside(v: string, a: string, b: string)
    requires v != "" && v[0] !in a && !Contains(b, v)
    ensures Contains(a + v + b, v)
    ensures ReplaceAll(a + v + b, v, Placeholder) == a + Placeholder + b
  {
    var t := v + b;
    assert a + v + b == a + t;
    ReplaceAtFront(v, b);
    ReplaceAfterPlain(a, t, v);
    assert ReplaceAll(a + t, v, Placeholder) == a + (Placeholder + b);
    assert a + Placeholder + b == a + (Placeholder + b);
    assert (a + t)[|a|..] == t;
    ContainsAt(a + t, v, |a|);
  }

  /** A non-empty value inside a line, after text without its first rune and
      before text without it, is replaced by the placeholder, and the text
      around it is printed as it came, by both maskings. */
  lemma MaskedValueInside(k: string, v: string, a: string, b: string)
    requires v != "" && v[0] !in a && !Contains(b, v)
    ensures Masked(a + v + b, map[k := v], [k]) == a + Placeholder + b
    ensures MaskedAsWritten(a + v + b, map[k := v], [k]) == a + Placeholder + b
  {
    assert [k][..0] == [];
    ReplaceValueInside(v, a, b);
  }

  lemma {:induction false} InterleaveLength(s: string, sep: string)
    ensures |Interleave(s, sep)| == |s| + (|s| + 1) * |sep|
    decreases |s|
  {
    if |s| > 0 {
      InterleaveLength(s[1..], sep);
    }
  }

  /** The masking loop as written garbles every line as soon as one variable
      of the task's environment is empty: the line grows by a placeholder
      around each of its runes, though it holds no secret. The corrected
      loop prints it unchanged. */
  lemma EmptyValueGarbles(line: string, k: string)
    ensures MaskedAsWritten(line, map[k := ""], [k]) == Interleave(line, Placeholder)
    ensures |MaskedAsWritten(line, map[k := ""], [k])| == |line| + (|line| + 1) * |Placeholder|
    ensures Masked(line, map[k := ""], [k]) == line
  {
    assert [k][..0] == [];
    assert HasPrefix(line, "");
    InterleaveLength(line, Placeholder);
  }

  /** Every output line, masked as the source masks it. */
  function MaskAll(lines: seq<string>, env: map<string, string>, order: seq<string>): seq<string>
    requires IsOrdering(order, env.Keys)
  {
    seq(|lines|, i requires 0 <= i < |lines| => MaskedAsWritten(lines[i], env, order))
  }

  /** runShellCommand: the error it returns and the lines it prints. The
      output is printed before the wait, so a failed command still prints
      its output; a scanner error is returned as it came. */
  function ShellOutcome(cmdStr: string, env: map<string, string>, osEnv: seq<string>, order: seq<string>, shell: Shell): (r: (Option<string>, seq<string>))
    requires IsOrdering(order, env.Keys)
    ensures var p := shell(cmdStr, ChildEnv(osEnv, env, order));
      r.0.None? <==> p.pipeError.None? && p.startError.None? && p.waitError.None? && p.scanError.None?
    ensures var p := shell(cmdStr, ChildEnv(osEnv, env, order));
      p.pipeError.Some? || p.startError.Some? ==> r.1 == []
    ensures var p := shell(cmdStr, ChildEnv(osEnv, env, order));
      p.pipeError.None? && p.startError.None? ==>
        |r.1| == |p.lines| && forall i :: 0 <= i < |p.lines| ==> r.1[i] == MaskedAsWritten(p.lines[i], env, order)
  {
    var p := shell(cmdStr, ChildEnv(osEnv, env, order));
    if p.pipeError.Some? then (Some(PipeFailed(p.pipeError.value)), [])
    else if p.startError.Some? then (Some(StartFailed(p.startError.value)), [])
    else
      var printed := MaskAll(p.lines, env, order);
      if p.waitError.Some? then (Some(WaitFailed(p.waitError.value)), printed)
      else (p.scanError, printed)
  }

  /** runShellCommand. */
  method RunShellCommand(cmdStr: string, env: map<string, string>, osEnv: seq<string>, order: seq<string>, shell: Shell) returns (err: Option<string>, printed: seq<string>)
    requires IsOrdering(order, env.Keys)
    ensures (err, printed) == ShellOutcome(cmdStr, env, osEnv, order, shell)
  {
    var childEnv := MergeWithOSEnv(osEnv, env, order);
    var p := shell(cmdStr, childEnv);
    printed := [];
    if p.pipeError.Some? {
      return Some(PipeFailed(p.pipeError.value)), printed;
    }
    if p.startError.Some? {
      return Some(StartFailed(p.startError.value)), printed;
    }
    for i := 0 to |p.lines|
      invariant printed == MaskAll(p.lines[..i], env, order)
    {
      var line := MaskLine(p.lines[i], env, order);
      printed := printed + [line];
    }
    assert p.lines[..|p.lines|] == p.lines;
    if p.waitError.Some? {
      return Some(WaitFailed(p.waitError.value)), printed;
    }
    return p.scanError, printed;
  }
}
