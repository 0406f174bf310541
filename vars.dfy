/** Variable substitution (internal/vars): layered lookup of a name in the
    environment, the secrets and the task arguments, and the repeated
    replacement of `${NAME}` tokens.

    The token is the regular expression `\${([^}]+)}`: `$`, `{`, one or more
    runes other than `}` (new lines included), then `}`. A pass replaces the
    leftmost non-overlapping tokens from left to right, so the scan below walks
    the text once, taking a token wherever one starts.

    The source's loop repeats passes until the text is token-free or, as
    written, until a pass yields the ORIGINAL input again; a text that settles
    on some other value with tokens left keeps the loop running forever.
    `SubstituteAsWritten` models that loop, and it is the one `SubstituteMap`
    and the interpreters' `TaskContext.Substitute` run, as the source does.
    `Substitute` is the loop as evidently intended, which stops when a pass
    changes nothing. The two differ both ways: on `${A}${U}` with A = `a` and U
    unknown only the corrected loop stops, and on a two-cycle A = `${B}`,
    B = `${A}` only the loop as written stops. Both take `fuel`, the number of
    passes allowed, and answer `OutOfFuel` past it. */
module Vars {
  import opened Wrappers
  import opened Strings
  import opened Yaml
  import opened Collections

  datatype VariableType = EnvVar | SecretVar | ArgVar | UnknownVar

  datatype Variable = Variable(kind: VariableType, name: string, value: string)

  /** The variables a substitution may use; `args` hold decoded YAML values. */
  datatype Context = Context(environment: map<string, string>, secrets: map<string, string>, args: map<string, Any>)

  function NewContext(): (c: Context)
    ensures c.environment == map[] && c.secrets == map[] && c.args == map[]
  {
    Context(map[], map[], map[])
  }

  function NotFound(name: string): string
  {
    "variable '" + name + "' not found"
  }

  /** Looks `name` up in the environment, then the secrets, then the
      arguments (rendered with `%v`); the first source holding it wins. */
  function GetVariable(ctx: Context, name: string): (r: Result<Variable, string>)
    ensures r.Err? <==> name !in ctx.environment && name !in ctx.secrets && name !in ctx.args
    ensures r.Err? ==> r.error == NotFound(name)
    ensures r.Ok? ==> r.value.name == name
    ensures name in ctx.environment ==> r.value.kind == EnvVar && r.value.value == ctx.environment[name]
    ensures name !in ctx.environment && name in ctx.secrets ==>
              r.value.kind == SecretVar && r.value.value == ctx.secrets[name]
    ensures name !in ctx.environment && name !in ctx.secrets && name in ctx.args ==>
              r.value.kind == ArgVar && r.value.value == Format(ctx.args[name])
  {
    if name in ctx.environment then Ok(Variable(EnvVar, name, ctx.environment[name]))
    else if name in ctx.secrets then Ok(Variable(SecretVar, name, ctx.secrets[name]))
    else if name in ctx.args then Ok(Variable(ArgVar, name, Format(ctx.args[name])))
    else Err(NotFound(name))
  }

  /** The position of the first `}` in `t`. */
  function CloseIndex(t: string): (r: Option<nat>)
    ensures r.Some? ==> r.value < |t|
  {
    if |t| == 0 then None
    else if t[0] == '}' then Some(0)
    else match CloseIndex(t[1..])
      case None => None
      case Some(k) => Some(k + 1)
  }

  /** CloseIndex finds the first `}`, and none when there is none. */
  lemma {:induction false} CloseIndexMeaning(t: string)
    ensures var r := CloseIndex(t);
      && (r.Some? ==> r.value < |t| && t[r.value] == '}' && '}' !in t[..r.value])
      && (r.None? ==> '}' !in t)
    decreases |t|
  {
    if |t| > 0 && t[0] != '}' {
      CloseIndexMeaning(t[1..]);
      match CloseIndex(t[1..])
      case None =>
        assert t == [t[0]] + t[1..];
      case Some(k) =>
        assert t[..k + 1] == [t[0]] + t[1..][..k];
    }
  }

  /** The name inside the token that starts `s`, if one does. */
  function LeadingToken(s: string): (r: Option<string>)
    ensures r.Some? ==> |r.value| + 3 <= |s|
  {
    if |s| >= 2 && s[0] == '$' && s[1] == '{' then
      match CloseIndex(s[2..])
      case Some(k) => if k > 0 then Some(s[2..2 + k]) else None
      case None => None
    else None
  }

  /** A token found at the front is `${`, a non-empty name without `}`, and
      `}`. */
  lemma LeadingTokenMeaning(s: string)
    ensures var r := LeadingToken(s);
      r.Some? ==> r.value != [] && '}' !in r.value && |r.value| + 3 <= |s| && s[..|r.value| + 3] == "${" + r.value + "}"
  {
    if |s| >= 2 && s[0] == '$' && s[1] == '{' {
      CloseIndexMeaning(s[2..]);
      match CloseIndex(s[2..])
      case Some(k) =>
        if k > 0 {
          assert s[..k + 3] == "${" + s[2..2 + k] + "}";
        }
      case None =>
    }
  }

  /** regexp.MatchString: a token starts somewhere in `s`. */
  predicate HasToken(s: string)
    decreases |s|
  {
    LeadingToken(s).Some? || (|s| > 0 && HasToken(s[1..]))
  }

  /** What a pass puts in place of the token `${name}`: an escaped name
      `$X` gives back `${X}`, a known name its value, an unknown name the token
      itself. */
  function Replacement(name: string, ctx: Context): string
  {
    if HasPrefix(name, "$") then "${" + name[1..] + "}"
    else match GetVariable(ctx, name)
      case Ok(v) => v.value
      case Err(_) => "${" + name + "}"
  }

  /** One pass of regexp.ReplaceAllStringFunc over `s`. */
  function Pass(s: string, ctx: Context): string
    decreases |s|
  {
    if |s| == 0 then ""
    else match LeadingToken(s)
      case Some(name) => Replacement(name, ctx) + Pass(s[|name| + 3..], ctx)
      case None => [s[0]] + Pass(s[1..], ctx)
  }

  /** The names of the tokens a pass replaces, in order. */
  function Tokens(s: string): seq<string>
    decreases |s|
  {
    if |s| == 0 then []
    else match LeadingToken(s)
      case Some(name) => [name] + Tokens(s[|name| + 3..])
      case None => Tokens(s[1..])
  }

  lemma LeadingTokenOf(name: string, rest: string)
    requires name != [] && '}' !in name
    ensures LeadingToken("${" + name + "}" + rest) == Some(name)
  {
    var s := "${" + name + "}" + rest;
    var t := s[2..];
    assert t == name + "}" + rest;
    assert t[|name|] == '}';
    assert forall j :: 0 <= j < |name| ==> t[j] == name[j];
    CloseIndexMeaning(t);
    assert t[..|name|] == name;
    assert CloseIndex(t) == Some(|name|);
    assert s[2..2 + |name|] == name;
  }

  /** A pass replaces a token that opens the text and carries on after it. */
  lemma PassOfToken(name: string, rest: string, ctx: Context)
    requires name != [] && '}' !in name
    ensures Pass("${" + name + "}" + rest, ctx) == Replacement(name, ctx) + Pass(rest, ctx)
    ensures Tokens("${" + name + "}" + rest) == [name] + Tokens(rest)
  {
    LeadingTokenOf(name, rest);
    var s := "${" + name + "}" + rest;
    assert s[|name| + 3..] == rest;
  }

  /** `${$X}` becomes `${X}` in a pass. */
  lemma PassUnescapes(x: string, rest: string, ctx: Context)
    requires '}' !in x
    ensures Pass("${$" + x + "}" + rest, ctx) == "${" + x + "}" + Pass(rest, ctx)
  {
    assert "${$" + x + "}" + rest == "${" + ("$" + x) + "}" + rest;
    PassOfToken("$" + x, rest, ctx);
    assert HasPrefix("$" + x, "$");
    assert ("$" + x)[1..] == x;
  }

  /** A token naming no variable is left as it is. */
  lemma PassKeepsUndefined(name: string, rest: string, ctx: Context)
    requires name != [] && '}' !in name && name[0] != '$'
    requires name !in ctx.environment && name !in ctx.secrets && name !in ctx.args
    ensures Pass("${" + name + "}" + rest, ctx) == "${" + name + "}" + Pass(rest, ctx)
  {
    PassOfToken(name, rest, ctx);
  }

  /** MatchString agrees with the scan: some token starts in `s` exactly when
      a pass finds one to replace. */
  lemma {:induction false} HasTokenIffTokens(s: string)
    ensures HasToken(s) <==> Tokens(s) != []
    decreases |s|
  {
    if |s| > 0 && LeadingToken(s).None? {
      HasTokenIffTokens(s[1..]);
    }
  }

  /** A token that a pass puts back as it found it. */
  predicate KeptAsIs(name: string, ctx: Context)
  {
    Replacement(name, ctx) == "${" + name + "}"
  }

  /** A pass leaves the text alone when every token it meets is replaced by
      itself; in particular a token-free text is a fixed point. */
  lemma {:induction false} PassFixes(s: string, ctx: Context)
    requires forall i :: 0 <= i < |Tokens(s)| ==> KeptAsIs(Tokens(s)[i], ctx)
    ensures Pass(s, ctx) == s
    decreases |s|
  {
    if |s| > 0 {
      var lead := LeadingToken(s);
      if lead.Some? {
        var name := lead.value;
        var rest := s[|name| + 3..];
        var ts, rs := Tokens(s), Tokens(rest);
        assert ts == [name] + rs;
        assert KeptAsIs(ts[0], ctx);
        forall i | 0 <= i < |rs|
          ensures KeptAsIs(rs[i], ctx)
        {
          assert rs[i] == ts[i + 1];
        }
        PassFixes(rest, ctx);
        PassKeepsToken(s, name, ctx);
      } else {
        assert Tokens(s) == Tokens(s[1..]);
        PassFixes(s[1..], ctx);
        PassKeepsRune(s, ctx);
      }
    }
  }

  /** The step of PassFixes at a leading token put back as it was. */
  lemma PassKeepsToken(s: string, name: string, ctx: Context)
    requires LeadingToken(s) == Some(name) && KeptAsIs(name, ctx)
    requires Pass(s[|name| + 3..], ctx) == s[|name| + 3..]
    ensures Pass(s, ctx) == s
  {
    LeadingTokenMeaning(s);
    var rest := s[|name| + 3..];
    assert Pass(s, ctx) == Replacement(name, ctx) + Pass(rest, ctx);
    assert s == s[..|name| + 3] + rest;
  }

  /** The step of PassFixes at a rune that starts no token. */
  lemma PassKeepsRune(s: string, ctx: Context)
    requires |s| > 0 && LeadingToken(s).None?
    requires Pass(s[1..], ctx) == s[1..]
    ensures Pass(s, ctx) == s
  {
    assert Pass(s, ctx) == [s[0]] + Pass(s[1..], ctx);
    assert s == [s[0]] + s[1..];
  }

  lemma TokenFreeFixed(s: string, ctx: Context)
    requires !HasToken(s)
    ensures Pass(s, ctx) == s
  {
    HasTokenIffTokens(s);
    PassFixes(s, ctx);
  }

  const UndefinedPrefix := "undefined variables found in: "

  /** The verdict once the loop has stopped on `result`. */
  function Conclude(result: string): (r: Result<string, string>)
    ensures r.Ok? <==> !HasToken(result)
    ensures r.Ok? ==> r.value == result
    ensures r.Err? ==> r.error == UndefinedPrefix + result
  {
    if HasToken(result) then Err(UndefinedPrefix + result) else Ok(result)
  }

  // ---------------------------------------------------------------------------
  // The two loops, stated over any pass `pass` and any token test `pending`;
  // the source's are these with Pass and HasToken. Their lemmas are proved
  // here once, for every pass.

  /** `k` applications of `pass` to `s`. */
  function Repeated(pass: string -> string, s: string, k: nat): string
    decreases k
  {
    if k == 0 then s else Repeated(pass, pass(s), k - 1)
  }

  /** The loop as written: it stops on a text without tokens, or when a pass
      gives back the original input. */
  function RepeatAsWritten(pass: string -> string, pending: string -> bool, input: string, result: string, fuel: nat): Fueled<string>
    decreases fuel
  {
    if !pending(result) then Finished(result)
    else if fuel == 0 then OutOfFuel
    else
      var next := pass(result);
      if next == input then Finished(next) else RepeatAsWritten(pass, pending, input, next, fuel - 1)
  }

  /** The loop as evidently intended: it stops on a text without tokens, or
      when a pass changes nothing. */
  function Repeat(pass: string -> string, pending: string -> bool, result: string, fuel: nat): Fueled<string>
    decreases fuel
  {
    if !pending(result) then Finished(result)
    else if fuel == 0 then OutOfFuel
    else
      var next := pass(result);
      if next == result then Finished(next) else Repeat(pass, pending, next, fuel - 1)
  }

  lemma {:induction false} RepeatAsWrittenStops(pass: string -> string, pending: string -> bool, input: string, result: string, fuel: nat)
    requires RepeatAsWritten(pass, pending, input, result, fuel).Finished?
    ensures var r := RepeatAsWritten(pass, pending, input, result, fuel).value; !pending(r) || r == input
    decreases fuel
  {
    if pending(result) && pass(result) != input {
      RepeatAsWrittenStops(pass, pending, input, pass(result), fuel - 1);
    }
  }

  lemma {:induction false} RepeatAsWrittenStuck(pass: string -> string, pending: string -> bool, input: string, result: string, fuel: nat)
    requires pending(result) && pass(result) == result && result != input
    ensures RepeatAsWritten(pass, pending, input, result, fuel) == OutOfFuel
    decreases fuel
  {
    if fuel > 0 {
      RepeatAsWrittenStuck(pass, pending, input, result, fuel - 1);
    }
  }

  lemma {:induction false} RepeatSettles(pass: string -> string, pending: string -> bool, result: string, fuel: nat) returns (k: nat)
    requires Repeat(pass, pending, result, fuel).Finished?
    ensures var r := Repeat(pass, pending, result, fuel).value;
      (!pending(r) || pass(r) == r) && k <= fuel && Repeated(pass, result, k) == r
    decreases fuel
  {
    if !pending(result) || pass(result) == result {
      k := 0;
    } else {
      var j := RepeatSettles(pass, pending, pass(result), fuel - 1);
      k := j + 1;
    }
  }

  lemma {:induction false} RepeatFuelMonotone(pass: string -> string, pending: string -> bool, result: string, fuel: nat, more: nat)
    requires fuel <= more && Repeat(pass, pending, result, fuel).Finished?
    ensures Repeat(pass, pending, result, more) == Repeat(pass, pending, result, fuel)
    decreases fuel
  {
    if pending(result) && pass(result) != result {
      RepeatFuelMonotone(pass, pending, pass(result), fuel - 1, more - 1);
    }
  }

  lemma {:induction false} RepeatAgreesOnSuccess(pass: string -> string, pending: string -> bool, input: string, result: string, fuel: nat)
    requires RepeatAsWritten(pass, pending, input, result, fuel).Finished?
    requires !pending(RepeatAsWritten(pass, pending, input, result, fuel).value)
    ensures Repeat(pass, pending, result, fuel) == RepeatAsWritten(pass, pending, input, result, fuel)
    decreases fuel
  {
    if pending(result) {
      var next := pass(result);
      if next != input {
        if next == result {
          RepeatAsWrittenStuck(pass, pending, input, result, fuel - 1);
        } else {
          RepeatAgreesOnSuccess(pass, pending, input, next, fuel - 1);
        }
      }
    }
  }

  lemma RepeatStuckAfterOne(pass: string -> string, pending: string -> bool, input: string, after: string, fuel: nat)
    requires pending(input) && pass(input) == after
    requires pending(after) && pass(after) == after && after != input
    ensures Repeat(pass, pending, input, 2) == Finished(after)
    ensures RepeatAsWritten(pass, pending, input, input, fuel) == OutOfFuel
  {
    assert Repeat(pass, pending, input, 2) == Repeat(pass, pending, after, 1);
    if fuel > 0 {
      assert RepeatAsWritten(pass, pending, input, input, fuel) == RepeatAsWritten(pass, pending, input, after, fuel - 1);
      RepeatAsWrittenStuck(pass, pending, input, after, fuel - 1);
    }
  }

  lemma RepeatTwoPasses(pass: string -> string, pending: string -> bool, input: string, mid: string, out: string)
    requires pending(input) && pass(input) == mid && mid != input
    requires pending(mid) && pass(mid) == out && out != mid && out != input
    requires !pending(out)
    ensures Repeat(pass, pending, input, 2) == Finished(out)
    ensures RepeatAsWritten(pass, pending, input, input, 2) == Finished(out)
  {
    assert Repeat(pass, pending, input, 2) == Repeat(pass, pending, mid, 1) == Repeat(pass, pending, out, 0);
    assert RepeatAsWritten(pass, pending, input, input, 2) == RepeatAsWritten(pass, pending, input, mid, 1)
      == RepeatAsWritten(pass, pending, input, out, 0);
  }

  /** A pass that swaps two texts with tokens: the corrected loop never
      stops, while the loop as written stops on the second pass, which gives
      back the input. */
  lemma {:induction false} RepeatTwoCycle(pass: string -> string, pending: string -> bool, x: string, y: string, fuel: nat)
    requires pending(x) && pending(y) && x != y
    requires pass(x) == y && pass(y) == x
    ensures Repeat(pass, pending, x, fuel) == OutOfFuel
    ensures Repeat(pass, pending, y, fuel) == OutOfFuel
    ensures RepeatAsWritten(pass, pending, x, x, 2) == Finished(x)
    decreases fuel
  {
    if fuel > 0 {
      RepeatTwoCycle(pass, pending, x, y, fuel - 1);
    }
    assert RepeatAsWritten(pass, pending, x, x, 2) == RepeatAsWritten(pass, pending, x, y, 1);
  }

  /** The pass of a context, as a function of the text. */
  function PassIn(ctx: Context): string -> string
  {
    s => Pass(s, ctx)
  }

  /** `k` passes over `s`. */
  function Iterate(s: string, ctx: Context, k: nat): string
  {
    Repeated(PassIn(ctx), s, k)
  }

  // ---------------------------------------------------------------------------
  // The loop as written: it stops when a pass gives back the original input.

  function LoopAsWritten(input: string, result: string, ctx: Context, fuel: nat): Fueled<string>
  {
    RepeatAsWritten(PassIn(ctx), HasToken, input, result, fuel)
  }

  function SubstitutedAsWritten(input: string, ctx: Context, fuel: nat): Fueled<Result<string, string>>
  {
    match LoopAsWritten(input, input, ctx, fuel)
    case Finished(result) => Finished(Conclude(result))
    case OutOfFuel => OutOfFuel
  }

  /** Substitutor.Substitute exactly as the source loops; `fuel` bounds the
      number of passes. */
  method SubstituteAsWritten(input: string, ctx: Context, fuel: nat) returns (r: Fueled<Result<string, string>>)
    ensures r == SubstitutedAsWritten(input, ctx, fuel)
  {
    var result := input;
    var left := fuel;
    while true
      invariant LoopAsWritten(input, result, ctx, left) == LoopAsWritten(input, input, ctx, fuel)
      decreases left
    {
      if !HasToken(result) {
        break;
      }
      if left == 0 {
        return OutOfFuel;
      }
      var next := Pass(result, ctx);
      if next == input {
        result := next;
        break;
      }
      result, left := next, left - 1;
    }
    r := Finished(Conclude(result));
  }

  /** As written, the loop stops only on a token-free text or on the input
      itself, so an error always quotes the input. */
  lemma AsWrittenStopsOnInput(input: string, result: string, ctx: Context, fuel: nat)
    requires LoopAsWritten(input, result, ctx, fuel).Finished?
    ensures var r := LoopAsWritten(input, result, ctx, fuel).value; !HasToken(r) || r == input
  {
    RepeatAsWrittenStops(PassIn(ctx), HasToken, input, result, fuel);
  }

  lemma AsWrittenErrorQuotesInput(input: string, ctx: Context, fuel: nat)
    requires SubstitutedAsWritten(input, ctx, fuel).Finished?
    requires SubstitutedAsWritten(input, ctx, fuel).value.Err?
    ensures SubstitutedAsWritten(input, ctx, fuel).value.error == UndefinedPrefix + input
  {
    AsWrittenStopsOnInput(input, input, ctx, fuel);
  }

  /** Once the text has settled on a value other than the input with tokens
      left, the loop as written never stops. */
  lemma AsWrittenStuck(input: string, result: string, ctx: Context, fuel: nat)
    requires HasToken(result) && Pass(result, ctx) == result && result != input
    ensures LoopAsWritten(input, result, ctx, fuel) == OutOfFuel
  {
    RepeatAsWrittenStuck(PassIn(ctx), HasToken, input, result, fuel);
  }

  // ---------------------------------------------------------------------------
  // The loop as evidently intended: it stops when a pass changes nothing.

  function Loop(result: string, ctx: Context, fuel: nat): Fueled<string>
  {
    Repeat(PassIn(ctx), HasToken, result, fuel)
  }

  function Substituted(input: string, ctx: Context, fuel: nat): Fueled<Result<string, string>>
  {
    match Loop(input, ctx, fuel)
    case Finished(result) => Finished(Conclude(result))
    case OutOfFuel => OutOfFuel
  }

  /** Substitutor.Substitute, stopping when a pass changes nothing. */
  method Substitute(input: string, ctx: Context, fuel: nat) returns (r: Fueled<Result<string, string>>)
    ensures r == Substituted(input, ctx, fuel)
  {
    var result := input;
    var left := fuel;
    while true
      invariant Loop(result, ctx, left) == Loop(input, ctx, fuel)
      decreases left
    {
      if !HasToken(result) {
        break;
      }
      if left == 0 {
        return OutOfFuel;
      }
      var next := Pass(result, ctx);
      if next == result {
        break;
      }
      result, left := next, left - 1;
    }
    r := Finished(Conclude(result));
  }

  /** Where the loop stops, the text is what some number of passes made of the
      input, and one more pass would not change it. */
  lemma LoopSettles(result: string, ctx: Context, fuel: nat) returns (k: nat)
    requires Loop(result, ctx, fuel).Finished?
    ensures var r := Loop(result, ctx, fuel).value;
      Pass(r, ctx) == r && k <= fuel && Iterate(result, ctx, k) == r
  {
    k := RepeatSettles(PassIn(ctx), HasToken, result, fuel);
    var r := Loop(result, ctx, fuel).value;
    if !HasToken(r) {
      TokenFreeFixed(r, ctx);
    }
  }

  /** A successful substitution is token-free and stable; a failed one quotes
      a stable text whose remaining tokens name no variable. */
  lemma SubstitutedMeaning(input: string, ctx: Context, fuel: nat)
    requires Substituted(input, ctx, fuel).Finished?
    ensures var x := Substituted(input, ctx, fuel).value;
      && (x.Ok? ==> !HasToken(x.value) && exists k :: 0 <= k <= fuel && Iterate(input, ctx, k) == x.value)
      && (x.Err? ==> exists r :: x.error == UndefinedPrefix + r && HasToken(r) && Pass(r, ctx) == r
                                 && exists k :: 0 <= k <= fuel && Iterate(input, ctx, k) == r)
  {
    var k := LoopSettles(input, ctx, fuel);
    var r := Loop(input, ctx, fuel).value;
    assert Iterate(input, ctx, k) == r;
  }

  /** More fuel never changes an answer: `fuel` only bounds the work. */
  lemma LoopFuelMonotone(result: string, ctx: Context, fuel: nat, more: nat)
    requires fuel <= more && Loop(result, ctx, fuel).Finished?
    ensures Loop(result, ctx, more) == Loop(result, ctx, fuel)
  {
    RepeatFuelMonotone(PassIn(ctx), HasToken, result, fuel, more);
  }

  /** Whenever the loop as written succeeds, the corrected loop gives the same
      text with the same fuel. */
  lemma AsWrittenSuccessAgrees(input: string, result: string, ctx: Context, fuel: nat)
    requires LoopAsWritten(input, result, ctx, fuel).Finished?
    requires !HasToken(LoopAsWritten(input, result, ctx, fuel).value)
    ensures Loop(result, ctx, fuel) == LoopAsWritten(input, result, ctx, fuel)
  {
    RepeatAgreesOnSuccess(PassIn(ctx), HasToken, input, result, fuel);
  }

  lemma SubstituteAgreesOnSuccess(input: string, ctx: Context, fuel: nat)
    requires SubstitutedAsWritten(input, ctx, fuel).Finished?
    requires SubstitutedAsWritten(input, ctx, fuel).value.Ok?
    ensures Substituted(input, ctx, fuel) == SubstitutedAsWritten(input, ctx, fuel)
  {
    AsWrittenSuccessAgrees(input, input, ctx, fuel);
  }

  // ---------------------------------------------------------------------------
  // Properties of both loops.

  /** A text without tokens comes back unchanged and without error. */
  lemma TokenFreeInput(input: string, ctx: Context, fuel: nat)
    requires !HasToken(input)
    ensures Pass(input, ctx) == input
    ensures Substituted(input, ctx, fuel) == Finished(Ok(input))
    ensures SubstitutedAsWritten(input, ctx, fuel) == Finished(Ok(input))
  {
    TokenFreeFixed(input, ctx);
  }

  /** A text whose tokens are all unknown and unescaped is left unchanged by
      the first pass, so both loops report it as undefined. */
  lemma UnknownTokensFail(input: string, ctx: Context, fuel: nat)
    requires HasToken(input) && fuel >= 1
    requires forall i :: 0 <= i < |Tokens(input)| ==>
      var name := Tokens(input)[i];
      !HasPrefix(name, "$") && name !in ctx.environment && name !in ctx.secrets && name !in ctx.args
    ensures Substituted(input, ctx, fuel) == Finished(Err(UndefinedPrefix + input))
    ensures SubstitutedAsWritten(input, ctx, fuel) == Finished(Err(UndefinedPrefix + input))
  {
    forall i | 0 <= i < |Tokens(input)|
      ensures KeptAsIs(Tokens(input)[i], ctx)
    {
      TokensNonEmpty(input, i);
    }
    PassFixes(input, ctx);
  }

  lemma {:induction false} TokensNonEmpty(s: string, i: nat)
    requires i < |Tokens(s)|
    ensures Tokens(s)[i] != [] && '}' !in Tokens(s)[i]
    decreases |s|
  {
    LeadingTokenMeaning(s);
    match LeadingToken(s)
    case Some(name) =>
      if i > 0 {
        TokensNonEmpty(s[|name| + 3..], i - 1);
      }
    case None =>
      TokensNonEmpty(s[1..], i);
  }

  /** A name a token can carry that is not escaped. */
  predicate VarName(name: string)
  {
    name != [] && '}' !in name && name[0] != '$'
  }

  /** A text without a `$`. */
  predicate Plain(v: string)
  {
    forall i :: 0 <= i < |v| ==> v[i] != '$'
  }

  /** Text without a `$` starts no token: a pass copies it and goes on. */
  lemma {:induction false} PassPlain(v: string, rest: string, ctx: Context)
    requires Plain(v)
    ensures Pass(v + rest, ctx) == v + Pass(rest, ctx)
    ensures HasToken(v + rest) == HasToken(rest)
    decreases |v|
  {
    if |v| == 0 {
      assert v + rest == rest;
    } else {
      var s, t := v + rest, v[1..] + rest;
      assert s[0] == v[0] != '$';
      assert LeadingToken(s) == None;
      assert s[1..] == t;
      assert HasToken(s) == HasToken(t);
      PassPlain(v[1..], rest, ctx);
      var p := Pass(rest, ctx);
      assert Pass(s, ctx) == [v[0]] + (v[1..] + p);
      assert [v[0]] + (v[1..] + p) == ([v[0]] + v[1..]) + p;
      assert [v[0]] + v[1..] == v;
    }
  }

  /** A text without a `$` has no token and is a fixed point of a pass. */
  lemma PlainFixed(v: string, ctx: Context)
    requires Plain(v)
    ensures !HasToken(v) && Pass(v, ctx) == v
  {
    PassPlain(v, "", ctx);
    assert v + "" == v;
  }

  /** A text that is one token: a pass gives its replacement. */
  lemma TokenAlone(name: string, ctx: Context)
    requires name != [] && '}' !in name
    ensures HasToken("${" + name + "}")
    ensures Pass("${" + name + "}", ctx) == Replacement(name, ctx)
  {
    LeadingTokenOf(name, "");
    PassOfToken(name, "", ctx);
    assert "${" + name + "}" + "" == "${" + name + "}";
  }

  /** The replacement of an unescaped defined name is its value. */
  lemma ReplacementOfDefined(name: string, ctx: Context)
    requires VarName(name) && name in ctx.environment
    ensures Replacement(name, ctx) == ctx.environment[name]
  {
    assert !HasPrefix(name, "$");
  }

  /** Resolution is recursive: with FOO = "${BAR}" and BAR = "baz" (any two
      names, and any value without a `$`), "${FOO}" becomes "baz" after two
      passes. */
  lemma NestedResolution(foo: string, bar: string, v: string, ctx: Context)
    requires VarName(foo) && VarName(bar) && Plain(v)
    requires foo in ctx.environment && ctx.environment[foo] == "${" + bar + "}"
    requires bar in ctx.environment && ctx.environment[bar] == v
    ensures Substituted("${" + foo + "}", ctx, 2) == Finished(Ok(v))
    ensures SubstitutedAsWritten("${" + foo + "}", ctx, 2) == Finished(Ok(v))
  {
    var input, mid := "${" + foo + "}", "${" + bar + "}";
    TokenAlone(foo, ctx);
    TokenAlone(bar, ctx);
    ReplacementOfDefined(foo, ctx);
    ReplacementOfDefined(bar, ctx);
    PlainFixed(v, ctx);
    assert v != mid && v != input by {
      assert mid[0] == '$' && input[0] == '$';
    }
    assert foo != bar;
    assert mid[2..|mid| - 1] == bar && input[2..|input| - 1] == foo;
    ResolvedInTwoPasses(input, mid, v, ctx);
  }

  /** A text that two passes resolve, each changing it, comes out of both
      loops as the second pass left it. */
  lemma ResolvedInTwoPasses(input: string, mid: string, out: string, ctx: Context)
    requires HasToken(input) && Pass(input, ctx) == mid && mid != input
    requires HasToken(mid) && Pass(mid, ctx) == out && out != mid && out != input
    requires !HasToken(out)
    ensures Substituted(input, ctx, 2) == Finished(Ok(out))
    ensures SubstitutedAsWritten(input, ctx, 2) == Finished(Ok(out))
  {
    RepeatTwoPasses(PassIn(ctx), HasToken, input, mid, out);
  }

  /** An escaped token is unwrapped by one pass and, since the text changed,
      expanded by the next: "${$A}" with A = "a" comes out as "a", not as the
      literal "${A}". */
  lemma EscapeExpandedNextPass(x: string, v: string, ctx: Context)
    requires VarName(x) && Plain(v)
    requires x in ctx.environment && ctx.environment[x] == v
    ensures Substituted("${$" + x + "}", ctx, 2) == Finished(Ok(v))
    ensures SubstitutedAsWritten("${$" + x + "}", ctx, 2) == Finished(Ok(v))
  {
    var input, mid := "${$" + x + "}", "${" + x + "}";
    assert input == "${" + ("$" + x) + "}";
    TokenAlone("$" + x, ctx);
    assert HasPrefix("$" + x, "$") && ("$" + x)[1..] == x;
    assert Pass(input, ctx) == mid;
    TokenAlone(x, ctx);
    ReplacementOfDefined(x, ctx);
    PlainFixed(v, ctx);
    assert v != mid && v != input by {
      assert mid[0] == '$' && input[0] == '$';
    }
    assert mid != input by {
      assert |mid| < |input|;
    }
    ResolvedInTwoPasses(input, mid, v, ctx);
  }

  /** The passes over "${A}${U}" with A = "a" and U unknown: the first gives
      "a${U}", which still has a token and which no later pass changes. */
  lemma PassesWithUnknown(a: string, u: string, v: string, ctx: Context)
    requires VarName(a) && VarName(u) && Plain(v)
    requires a in ctx.environment && ctx.environment[a] == v
    requires u !in ctx.environment && u !in ctx.secrets && u !in ctx.args
    ensures var input, after := "${" + a + "}" + "${" + u + "}", v + "${" + u + "}";
      && HasToken(input) && Pass(input, ctx) == after
      && HasToken(after) && Pass(after, ctx) == after && after != input
  {
    var tu := "${" + u + "}";
    var input, after := "${" + a + "}" + tu, v + tu;
    assert "${" + a + "}" + "${" + u + "}" == input;
    assert v + "${" + u + "}" == after;
    LeadingTokenOf(a, tu);
    assert HasToken(input);
    PassOfToken(a, tu, ctx);
    ReplacementOfDefined(a, ctx);
    TokenAlone(u, ctx);
    assert Pass(input, ctx) == after;
    PassPlain(v, tu, ctx);
    assert after != input by {
      if |v| == 0 {
        assert |after| < |input|;
      } else {
        assert after[0] == v[0] && input[0] == '$';
      }
    }
  }

  /** With A = "a" and U unknown (any such names, and any value without a
      `$`), "${A}${U}" becomes "a${U}" in one pass and stays so: the loop as
      written never stops, the corrected one reports U. */
  lemma UnresolvedAfterProgress(a: string, u: string, v: string, ctx: Context, fuel: nat)
    requires VarName(a) && VarName(u) && Plain(v)
    requires a in ctx.environment && ctx.environment[a] == v
    requires u !in ctx.environment && u !in ctx.secrets && u !in ctx.args
    ensures SubstitutedAsWritten("${" + a + "}" + "${" + u + "}", ctx, fuel) == OutOfFuel
    ensures Substituted("${" + a + "}" + "${" + u + "}", ctx, 2) == Finished(Err(UndefinedPrefix + (v + "${" + u + "}")))
  {
    PassesWithUnknown(a, u, v, ctx);
    StuckAfterOnePass("${" + a + "}" + "${" + u + "}", v + "${" + u + "}", ctx, fuel);
  }

  /** A text whose first pass gives another text with tokens that no pass
      changes: the corrected loop reports it, the loop as written never
      stops. */
  lemma StuckAfterOnePass(input: string, after: string, ctx: Context, fuel: nat)
    requires HasToken(input) && Pass(input, ctx) == after
    requires HasToken(after) && Pass(after, ctx) == after && after != input
    ensures Substituted(input, ctx, 2) == Finished(Err(UndefinedPrefix + after))
    ensures SubstitutedAsWritten(input, ctx, fuel) == OutOfFuel
  {
    RepeatStuckAfterOne(PassIn(ctx), HasToken, input, after, fuel);
  }

  /** With A = "${B}" and B = "${A}" (any two names), "${A}" alternates with
      "${B}": the loop as written stops on the second pass, which gives back
      the input, and reports it undefined; the corrected loop never stops. */
  lemma MutualReferenceDiffers(a: string, b: string, ctx: Context, fuel: nat)
    requires VarName(a) && VarName(b) && a != b
    requires a in ctx.environment && ctx.environment[a] == "${" + b + "}"
    requires b in ctx.environment && ctx.environment[b] == "${" + a + "}"
    ensures var x := "${" + a + "}";
      SubstitutedAsWritten(x, ctx, 2) == Finished(Err(UndefinedPrefix + x)) && Substituted(x, ctx, fuel) == OutOfFuel
  {
    var x, y := "${" + a + "}", "${" + b + "}";
    TokenAlone(a, ctx);
    TokenAlone(b, ctx);
    ReplacementOfDefined(a, ctx);
    ReplacementOfDefined(b, ctx);
    assert x != y by {
      assert x[2..|x| - 1] == a && y[2..|y| - 1] == b;
    }
    TwoCycleDiffers(x, y, ctx, fuel);
  }

  /** Two texts with tokens that a pass swaps: the loop as written reports
      the input on the second pass, the corrected loop never stops. */
  lemma TwoCycleDiffers(x: string, y: string, ctx: Context, fuel: nat)
    requires HasToken(x) && HasToken(y) && x != y
    requires Pass(x, ctx) == y && Pass(y, ctx) == x
    ensures SubstitutedAsWritten(x, ctx, 2) == Finished(Err(UndefinedPrefix + x))
    ensures Substituted(x, ctx, fuel) == OutOfFuel
  {
    RepeatTwoCycle(PassIn(ctx), HasToken, x, y, fuel);
  }

  // ---------------------------------------------------------------------------

  function MapError(key: string, err: string): string
  {
    "failed to substitute in value for '" + key + "': " + err
  }

  /** Substitutor.SubstituteMap over the keys in the order `order`, for any
      way `outcome` of substituting one value: the values are substituted in
      that order, and the first that fails fails the map. */
  function MapOutcome(outcome: string -> Fueled<Result<string, string>>, input: map<string, string>, order: seq<string>): Fueled<Result<map<string, string>, string>>
    requires forall j :: 0 <= j < |order| ==> order[j] in input
    decreases |order|
  {
    if |order| == 0 then Finished(Ok(map[]))
    else
      var n := |order| - 1;
      match MapOutcome(outcome, input, order[..n])
      case OutOfFuel => OutOfFuel
      case Finished(Err(e)) => Finished(Err(e))
      case Finished(Ok(m)) =>
        match outcome(input[order[n]])
        case OutOfFuel => OutOfFuel
        case Finished(Err(e)) => Finished(Err(MapError(order[n], e)))
        case Finished(Ok(v)) => Finished(Ok(m[order[n] := v]))
  }

  /** Once a prefix of the keys has failed, the later keys change nothing. */
  lemma {:induction false} MapFailureSticks(outcome: string -> Fueled<Result<string, string>>, input: map<string, string>, order: seq<string>, i: nat)
    requires forall j :: 0 <= j < |order| ==> order[j] in input
    requires i <= |order| && !(MapOutcome(outcome, input, order[..i]).Finished? && MapOutcome(outcome, input, order[..i]).value.Ok?)
    ensures MapOutcome(outcome, input, order) == MapOutcome(outcome, input, order[..i])
    decreases |order|
  {
    if i == |order| {
      assert order[..i] == order;
    } else {
      var n := |order| - 1;
      var prefix := order[..n];
      assert prefix[..i] == order[..i];
      MapFailureSticks(outcome, input, prefix, i);
    }
  }

  /** What the map loop promises, for any order and any outcome: on success
      the keys are those of the order and each value is the outcome of its
      key's value; when every value succeeds the map does; an error or a lack
      of fuel comes from some key, and an error names that key. */
  lemma {:induction false} MapOutcomeMeaning(outcome: string -> Fueled<Result<string, string>>, input: map<string, string>, order: seq<string>)
    requires forall j :: 0 <= j < |order| ==> order[j] in input
    ensures var r := MapOutcome(outcome, input, order);
      && (r.Finished? && r.value.Ok? ==>
            (forall k :: k in r.value.value <==> k in order)
            && forall k :: k in r.value.value ==> outcome(input[k]) == Finished(Ok(r.value.value[k])))
      && ((forall j :: 0 <= j < |order| ==> outcome(input[order[j]]).Finished? && outcome(input[order[j]]).value.Ok?)
            ==> r.Finished? && r.value.Ok?)
      && (r.Finished? && r.value.Err? ==>
            exists j :: 0 <= j < |order| && outcome(input[order[j]]).Finished? && outcome(input[order[j]]).value.Err?
              && r.value.error == MapError(order[j], outcome(input[order[j]]).value.error))
      && (r.OutOfFuel? ==> exists j :: 0 <= j < |order| && outcome(input[order[j]]).OutOfFuel?)
    decreases |order|
  {
    if |order| > 0 {
      var n := |order| - 1;
      var prefix := order[..n];
      MapOutcomeMeaning(outcome, input, prefix);
      assert forall j :: 0 <= j < n ==> prefix[j] == order[j];
      assert forall k :: k in order <==> k in prefix || k == order[n] by {
        assert order == prefix + [order[n]];
      }
    }
  }

  /** The outcome of substituting one value with the given fuel. */
  function SubstitutionOf(ctx: Context, fuel: nat): string -> Fueled<Result<string, string>>
  {
    x => SubstitutedAsWritten(x, ctx, fuel)
  }

  /** Substitutor.SubstituteMap when the loop visits the keys in the order
      `order`. */
  function SubstitutedMap(input: map<string, string>, order: seq<string>, ctx: Context, fuel: nat): Fueled<Result<map<string, string>, string>>
    requires IsOrdering(order, input.Keys)
  {
    MapOutcome(SubstitutionOf(ctx, fuel), input, order)
  }

  /** Substitutor.SubstituteMap: substitutes every value, visiting the keys in
      the map's iteration order `order`, and stops at the first value that
      fails. */
  method SubstituteMap(input: map<string, string>, ctx: Context, fuel: nat)
    returns (r: Fueled<Result<map<string, string>, string>>, order: seq<string>)
    ensures IsOrdering(order, input.Keys)
    ensures r == SubstitutedMap(input, order, ctx, fuel)
  {
    order := SomeOrder(input.Keys);
    ghost var outcome := SubstitutionOf(ctx, fuel);
    var result: map<string, string> := map[];
    for i := 0 to |order|
      invariant MapOutcome(outcome, input, order[..i]) == Finished(Ok(result))
    {
      assert order[..i + 1][..i] == order[..i];
      var k := order[i];
      var s := SubstituteAsWritten(input[k], ctx, fuel);
      assert outcome(input[k]) == s;
      if s.OutOfFuel? {
        MapFailureSticks(outcome, input, order, i + 1);
        return OutOfFuel, order;
      }
      if s.value.Err? {
        MapFailureSticks(outcome, input, order, i + 1);
        return Finished(Err(MapError(k, s.value.error))), order;
      }
      result := result[k := s.value.value];
    }
    assert order[..|order|] == order;
    r := Finished(Ok(result));
  }

  /** On success the keys are the input's and each value is its substitution;
      when every value substitutes the map does; a failure comes from some
      value, and an error names its key and, since the loop as written stops
      with tokens left only on its input, quotes that key's whole value. */
  lemma SubstitutedMapMeaning(input: map<string, string>, order: seq<string>, ctx: Context, fuel: nat)
    requires IsOrdering(order, input.Keys)
    ensures var r := SubstitutedMap(input, order, ctx, fuel);
      && (r.Finished? && r.value.Ok? ==>
            r.value.value.Keys == input.Keys
            && forall k :: k in input ==> SubstitutedAsWritten(input[k], ctx, fuel) == Finished(Ok(r.value.value[k])))
      && ((forall k :: k in input ==> SubstitutedAsWritten(input[k], ctx, fuel).Finished? && SubstitutedAsWritten(input[k], ctx, fuel).value.Ok?)
            ==> r.Finished? && r.value.Ok?)
      && (r.Finished? && r.value.Err? ==>
            exists k :: k in input && SubstitutedAsWritten(input[k], ctx, fuel) == Finished(Err(UndefinedPrefix + input[k]))
              && r.value.error == MapError(k, UndefinedPrefix + input[k]))
      && (r.OutOfFuel? ==> exists k :: k in input && SubstitutedAsWritten(input[k], ctx, fuel).OutOfFuel?)
  {
    var outcome := SubstitutionOf(ctx, fuel);
    MapOutcomeMeaning(outcome, input, order);
    var r := SubstitutedMap(input, order, ctx, fuel);
    if r.Finished? && r.value.Ok? {
      assert r.value.value.Keys == input.Keys;
    }
    if r.Finished? && r.value.Err? {
      var j :| 0 <= j < |order| && outcome(input[order[j]]).Finished? && outcome(input[order[j]]).value.Err?
              && r.value.error == MapError(order[j], outcome(input[order[j]]).value.error);
      var k := order[j];
      assert k in input;
      AsWrittenErrorQuotesInput(input[k], ctx, fuel);
    }
    if r.OutOfFuel? {
      var j :| 0 <= j < |order| && outcome(input[order[j]]).OutOfFuel?;
      assert order[j] in input;
    }
  }
}
