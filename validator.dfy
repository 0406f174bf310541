/** Checks on environment variable names and values (internal/env/validator.go). */
module EnvValidator {
  import opened Wrappers
  import opened Strings
  import Collections

  /** Every rejection: the offending name (empty for a value) and the reason. */
  datatype ValidationError = ValidationError(varName: string, reason: string)
  {
    function Message(): string
    {
      "invalid environment variable '" + varName + "': " + reason
    }
  }

  const EmptyName := "name cannot be empty"
  const BadName := "name must start with a letter or underscore and contain only letters, numbers, and underscores"
  const ReservedName := "name is reserved and cannot be overridden"
  const NulValue := "value cannot contain null bytes"

  /** The names a task may not set, compared after upper-casing. */
  const Reserved: set<string> := {
    "PATH", "HOME", "USER", "SHELL", "PWD", "OLDPWD", "TERM",
    "LANG", "LC_ALL", "TZ", "EDITOR", "VISUAL", "PAGER", "MANPATH"
  }

  predicate IsLetter(c: char)
  {
    'a' <= c <= 'z' || 'A' <= c <= 'Z'
  }

  predicate IsDigit(c: char)
  {
    '0' <= c <= '9'
  }

  /** The POSIX name grammar `[a-zA-Z_][a-zA-Z0-9_]*`, stated over positions. */
  ghost predicate IsPosixName(name: string)
  {
    && |name| > 0
    && (IsLetter(name[0]) || name[0] == '_')
    && forall i :: 1 <= i < |name| ==> IsLetter(name[i]) || IsDigit(name[i]) || name[i] == '_'
  }

  /** Scans the tail of a name for characters outside `[a-zA-Z0-9_]`. */
  function TailMatches(s: string): (r: bool)
    ensures r <==> forall i :: 0 <= i < |s| ==> IsLetter(s[i]) || IsDigit(s[i]) || s[i] == '_'
  {
    if |s| == 0 then true
    else (IsLetter(s[0]) || IsDigit(s[0]) || s[0] == '_') && TailMatches(s[1..])
  }

  /** The anchored match of `^[a-zA-Z_][a-zA-Z0-9_]*$`. */
  function MatchesNamePattern(name: string): bool
  {
    |name| > 0 && (IsLetter(name[0]) || name[0] == '_') && TailMatches(name[1..])
  }

  /** ValidateName: an empty name, a name outside the POSIX grammar and a
      reserved name (in any letter case) are rejected, in that order of checks. */
  function ValidateName(name: string): (r: Option<ValidationError>)
    ensures r.None? <==> IsPosixName(name) && ToUpper(name) !in Reserved
    ensures r.Some? ==> r.value.varName == name
    ensures name == "" ==> r == Some(ValidationError("", EmptyName))
    ensures name != "" && !IsPosixName(name) ==> r == Some(ValidationError(name, BadName))
    ensures IsPosixName(name) && ToUpper(name) in Reserved ==> r == Some(ValidationError(name, ReservedName))
  {
    assert MatchesNamePattern(name) <==> IsPosixName(name) by {
      if |name| > 0 {
        assert forall i :: 1 <= i < |name| ==> name[i] == name[1..][i - 1];
      }
    }
    if name == "" then Some(ValidationError(name, EmptyName))
    else if !MatchesNamePattern(name) then Some(ValidationError(name, BadName))
    else if ToUpper(name) in Reserved then Some(ValidationError(name, ReservedName))
    else None
  }

  /** strings.ContainsRune(value, 0). */
  function ContainsNul(s: string): (r: bool)
    ensures r <==> exists i :: 0 <= i < |s| && s[i] == '\0'
  {
    if |s| == 0 then false
    else s[0] == '\0' || (assert forall i :: 1 <= i < |s| ==> s[i] == s[1..][i - 1]; ContainsNul(s[1..]))
  }

  /** ValidateValue: only a NUL character makes a value invalid. */
  function ValidateValue(value: string): (r: Option<ValidationError>)
    ensures r.None? <==> forall i :: 0 <= i < |value| ==> value[i] != '\0'
    ensures r.Some? ==> r.value == ValidationError("", NulValue)
  {
    if ContainsNul(value) then Some(ValidationError("", NulValue)) else None
  }

  /** Whether every entry of an environment map passes both checks. */
  ghost predicate ValidMap(env: map<string, string>)
  {
    forall name :: name in env ==> ValidateName(name).None? && ValidateValue(env[name]).None?
  }

  /** The rejection ValidateMap reports for one entry, if any. */
  function EntryError(name: string, value: string): Option<ValidationError>
  {
    if ValidateName(name).Some? then ValidateName(name) else ValidateValue(value)
  }

  /** ValidateMap: visits the entries in map order and returns the first
      rejection; which one that is depends on the order, so the contract only
      says it belongs to some entry. */
  method ValidateMap(env: map<string, string>) returns (r: Option<ValidationError>)
    ensures r.None? <==> ValidMap(env)
    ensures r.Some? ==> exists name :: name in env && r == EntryError(name, env[name])
  {
    var order := Collections.SomeOrder(env.Keys);
    for i := 0 to |order|
      invariant forall j :: 0 <= j < i ==> EntryError(order[j], env[order[j]]).None?
    {
      var name := order[i];
      var err := ValidateName(name);
      if err.Some? {
        return err;
      }
      err := ValidateValue(env[name]);
      if err.Some? {
        return err;
      }
    }
    return None;
  }

  /** A POSIX name without lower-case letters that is not reserved is
      accepted: upper-casing leaves it as it is. */
  lemma UpperCaseNamesAccepted(name: string)
    requires IsPosixName(name) && forall i :: 0 <= i < |name| ==> !('a' <= name[i] <= 'z')
    requires name !in Reserved
    ensures ValidateName(name).None?
  {
    ToUpperFixed(name);
  }

  lemma RejectedNames()
    ensures ValidateName("1FOO") == Some(ValidationError("1FOO", BadName))
    ensures ValidateName("FOO-BAR") == Some(ValidationError("FOO-BAR", BadName))
    ensures ValidateName("FOO BAR") == Some(ValidationError("FOO BAR", BadName))
  {
    assert "FOO-BAR"[3] == '-';
    assert "FOO BAR"[3] == ' ';
  }

  /** The reserved list is consulted after upper-casing, so `path` fails like `PATH`. */
  lemma ReservedNamesIgnoreCase()
    ensures ValidateName("PATH") == Some(ValidationError("PATH", ReservedName))
    ensures ValidateName("path") == Some(ValidationError("path", ReservedName))
  {
    assert ToUpper("path") == "PATH";
    assert ToUpper("PATH") == "PATH";
  }

  lemma ValueExamples()
    ensures ValidateValue("").None? && ValidateValue("foo bar").None? && ValidateValue("foo@bar").None?
    ensures ValidateValue("foo\0bar") == Some(ValidationError("", NulValue))
  {
    assert "foo\0bar"[3] == '\0';
  }
}
