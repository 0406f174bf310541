/** The Go `strings` and `strconv` helpers the core relies on, over `seq<char>`
    (one `char` per rune). */
module Strings {

  import opened Wrappers

  predicate HasPrefix(s: string, prefix: string)
  {
    |prefix| <= |s| && s[..|prefix|] == prefix
  }

  /** strings.Contains: some suffix of `s` starts with `sub`; the empty string
      is contained in every string. */
  predicate Contains(s: string, sub: string)
    decreases |s|
  {
    HasPrefix(s, sub) || (|s| > 0 && Contains(s[1..], sub))
  }

  lemma {:induction false} ContainsAt(s: string, sub: string, i: nat)
    requires i <= |s| && HasPrefix(s[i..], sub)
    ensures Contains(s, sub)
    decreases i
  {
    if i > 0 {
      assert s[1..][i - 1..] == s[i..];
      ContainsAt(s[1..], sub, i - 1);
    }
  }

  /** The position of the leftmost occurrence of `sep` in `s`. */
  function IndexOf(s: string, sep: string): (r: Option<nat>)
    ensures r.Some? ==> r.value + |sep| <= |s| && HasPrefix(s[r.value..], sep)
    ensures r.Some? ==> forall j :: 0 <= j < r.value ==> !HasPrefix(s[j..], sep)
    ensures r.None? <==> !Contains(s, sep)
    decreases |s|
  {
    if HasPrefix(s, sep) then Some(0)
    else if |s| == 0 then None
    else
      match IndexOf(s[1..], sep)
      case None => None
      case Some(j) =>
        assert forall i :: 1 <= i <= j ==> s[i..] == s[1..][i - 1..];
        assert s[j + 1..] == s[1..][j..];
        Some(j + 1)
  }

  /** The leftmost occurrence is where it starts when none starts before. */
  lemma IndexOfAt(s: string, sep: string, j: nat)
    requires j <= |s| && HasPrefix(s[j..], sep)
    requires forall m :: 0 <= m < j ==> !HasPrefix(s[m..], sep)
    ensures IndexOf(s, sep) == Some(j)
  {
    ContainsAt(s, sep, j);
  }

  /** strings.SplitN(s, sep, 2) for a non-empty `sep`: the text before the first
      `sep` and the text after it, or None when `sep` does not occur. */
  function SplitFirst(s: string, sep: string): (r: Option<(string, string)>)
    requires sep != ""
    ensures r.None? <==> !Contains(s, sep)
    ensures r.Some? ==> r.value.0 + sep + r.value.1 == s
    ensures r.Some? ==> forall j :: 0 <= j < |r.value.0| ==> !HasPrefix(s[j..], sep)
  {
    match IndexOf(s, sep)
    case None => None
    case Some(i) =>
      var before, after := s[..i], s[i + |sep|..];
      assert before + sep + after == s by {
        assert s == s[..i] + s[i..i + |sep|] + s[i + |sep|..];
      }
      Some((before, after))
  }

  /** strings.ReplaceAll. A non-empty `pat` is replaced at each leftmost,
      non-overlapping occurrence; an empty `pat` matches before every rune and
      at the end, so `repl` is inserted around every rune. */
  function ReplaceAll(s: string, pat: string, repl: string): string
    decreases |s|
  {
    if pat == "" then Interleave(s, repl)
    else if |s| == 0 then ""
    else if HasPrefix(s, pat) then repl + ReplaceAll(s[|pat|..], pat, repl)
    else [s[0]] + ReplaceAll(s[1..], pat, repl)
  }

  function Interleave(s: string, sep: string): string
    decreases |s|
  {
    if |s| == 0 then sep else sep + [s[0]] + Interleave(s[1..], sep)
  }

  lemma {:induction false} ReplaceAbsent(s: string, pat: string, repl: string)
    requires pat != "" && !Contains(s, pat)
    ensures ReplaceAll(s, pat, repl) == s
    decreases |s|
  {
    if |s| > 0 {
      ReplaceAbsent(s[1..], pat, repl);
    }
  }

  /** strings.Join. */
  function Join(parts: seq<string>, sep: string): string
  {
    if |parts| == 0 then ""
    else if |parts| == 1 then parts[0]
    else parts[0] + sep + Join(parts[1..], sep)
  }

  /** strings.ToUpper, one rune at a time. The model maps the ASCII letters and
      the two other runes whose upper case is ASCII (dotless i and long s) and
      leaves every other rune alone, so it is exact whenever its result is
      compared with ASCII text, which is all the core does with it. */
  function ToUpper(s: string): (r: string)
    ensures |r| == |s|
  {
    if |s| == 0 then "" else [UpperRune(s[0])] + ToUpper(s[1..])
  }

  function UpperRune(c: char): char
  {
    if 'a' <= c <= 'z' then (c as int - 32) as char
    else if c == '\U{131}' then 'I'
    else if c == '\U{17F}' then 'S'
    else c
  }

  /** Upper-casing twice is upper-casing once. */
  lemma {:induction false} ToUpperIdempotent(s: string)
    ensures ToUpper(ToUpper(s)) == ToUpper(s)
  {
    if |s| > 0 {
      ToUpperIdempotent(s[1..]);
      assert ToUpper(s)[1..] == ToUpper(s[1..]);
    }
  }

  /** Text whose every rune is its own upper case is left as it is. */
  lemma {:induction false} ToUpperFixed(s: string)
    requires forall i :: 0 <= i < |s| ==> UpperRune(s[i]) == s[i]
    ensures ToUpper(s) == s
  {
    if |s| > 0 {
      ToUpperFixed(s[1..]);
    }
  }

  /** unicode.IsSpace. */
  predicate IsSpace(c: char)
  {
    c == ' ' || ('\t' <= c <= '\r') || c == '\U{85}' || c == '\U{A0}' || c == '\U{1680}'
    || ('\U{2000}' <= c <= '\U{200A}') || c == '\U{2028}' || c == '\U{2029}'
    || c == '\U{202F}' || c == '\U{205F}' || c == '\U{3000}'
  }

  /** Every rune of `t` is white space. */
  predicate AllSpace(t: string)
  {
    forall k :: 0 <= k < |t| ==> IsSpace(t[k])
  }

  function TrimLeft(s: string): string
  {
    if |s| > 0 && IsSpace(s[0]) then TrimLeft(s[1..]) else s
  }

  function TrimRight(s: string): string
  {
    if |s| > 0 && IsSpace(s[|s| - 1]) then TrimRight(s[..|s| - 1]) else s
  }

  /** strings.TrimSpace: drops leading and trailing white space and nothing else. */
  function TrimSpace(s: string): string
  {
    TrimRight(TrimLeft(s))
  }

  /** TrimLeft drops a prefix of white space and stops at the first rune that
      is not. */
  lemma {:induction false} TrimLeftMeaning(s: string)
    ensures var r := TrimLeft(s);
      |r| <= |s| && r == s[|s| - |r|..] && AllSpace(s[..|s| - |r|]) && (r == [] || !IsSpace(r[0]))
    decreases |s|
  {
    if |s| > 0 && IsSpace(s[0]) {
      TrimLeftMeaning(s[1..]);
      var r := TrimLeft(s[1..]);
      assert s[..|s| - |r|] == [s[0]] + s[1..][..|s| - 1 - |r|];
    }
  }

  /** TrimRight drops a suffix of white space and stops at the last rune that
      is not. */
  lemma {:induction false} TrimRightMeaning(s: string)
    ensures var r := TrimRight(s);
      |r| <= |s| && r == s[..|r|] && AllSpace(s[|r|..]) && (r == [] || !IsSpace(r[|r| - 1]))
    decreases |s|
  {
    if |s| > 0 && IsSpace(s[|s| - 1]) {
      TrimRightMeaning(s[..|s| - 1]);
      var r := TrimRight(s[..|s| - 1]);
      assert s[|r|..] == s[..|s| - 1][|r|..] + [s[|s| - 1]];
    }
  }

  /** TrimSpace keeps a slice of `s`, from `i` on: everything before it and
      everything after it is white space, and the slice neither starts nor
      ends with white space. */
  lemma TrimSpaceMeaning(s: string) returns (i: nat)
    ensures var r := TrimSpace(s);
      && i + |r| <= |s| && r == s[i..i + |r|] && AllSpace(s[..i]) && AllSpace(s[i + |r|..])
      && (r == [] || (!IsSpace(r[0]) && !IsSpace(r[|r| - 1])))
  {
    var l := TrimLeft(s);
    var r := TrimRight(l);
    TrimLeftMeaning(s);
    TrimRightMeaning(l);
    i := |s| - |l|;
    assert r == s[i..i + |r|];
    assert l[|r|..] == s[i + |r|..];
    if r != [] {
      assert r[0] == l[0];
    }
  }

  function DigitChar(d: nat): char
    requires d < 10
  {
    ('0' as int + d) as char
  }

  /** fmt's %d for a natural number. */
  function NatToString(n: nat): (r: string)
    ensures |r| > 0
    ensures forall i :: 0 <= i < |r| ==> '0' <= r[i] <= '9'
    decreases n
  {
    if n < 10 then [DigitChar(n)] else NatToString(n / 10) + [DigitChar(n % 10)]
  }

  /** fmt's %d for an integer. */
  function IntToString(i: int): string
  {
    if i < 0 then "-" + NatToString(-i) else NatToString(i)
  }

  predicate IsDigits(s: string)
  {
    |s| > 0 && forall i :: 0 <= i < |s| ==> '0' <= s[i] <= '9'
  }

  /** Reads back a decimal numeral. */
  function ParseNat(s: string): nat
    requires IsDigits(s)
    decreases |s|
  {
    if |s| == 1 then s[0] as nat - '0' as nat
    else ParseNat(s[..|s| - 1]) * 10 + (s[|s| - 1] as nat - '0' as nat)
  }

  lemma {:induction false} ParseNatToString(n: nat)
    ensures IsDigits(NatToString(n)) && ParseNat(NatToString(n)) == n
    decreases n
  {
    if n >= 10 {
      ParseNatToString(n / 10);
      var s := NatToString(n);
      assert s[..|s| - 1] == NatToString(n / 10);
    }
  }
}
