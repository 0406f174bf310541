/** Where an import of a manifest comes from (internal/taskfile/taskfile.go
    and internal/taskfile/import.go): an HTTP(S) URL, a file inside a git
    repository written `<repo>.git//<path>`, or a local path.

    The file system, the network and git are the parameter `World`: what a
    path holds, what a download or a clone produces. */
module ImportSource {
  import opened Wrappers
  import opened Strings
  import opened Manifest

  predicate IsHTTPImport(path: string)
  {
    HasPrefix(path, "http://") || HasPrefix(path, "https://")
  }

  predicate IsGitImport(path: string)
  {
    Contains(path, ".git//")
  }

  const GitSeparator := ".git//"

  /** strings.SplitN(path, ".git//", 2): the repository URL (the text before
      the first `.git//`, plus `.git`) and the path inside the repository. */
  function SplitGitImport(path: string): (r: Option<(string, string)>)
    ensures r.Some? <==> IsGitImport(path)
    ensures r.Some? ==> r.value.0 + "//" + r.value.1 == path
    ensures r.Some? ==> |r.value.0| >= 4 && r.value.0[|r.value.0| - 4..] == ".git"
    ensures r.Some? ==> forall j :: 0 <= j < |r.value.0| - 4 ==> !HasPrefix(path[j..], GitSeparator)
  {
    match SplitFirst(path, GitSeparator)
    case None => None
    case Some((before, after)) =>
      var repo := before + ".git";
      assert GitSeparator == ".git" + "//";
      assert repo + "//" + after == before + GitSeparator + after;
      assert repo[|before|..] == ".git" && |repo| - 4 == |before|;
      Some((repo, after))
  }

  /** A file is loaded: `OpenFailed` is the error of opening it,
      `DecodeFailed` the error of decoding its YAML. */
  datatype ReadFailure = OpenFailed(message: string) | DecodeFailed(message: string)

  /** The collaborators of manifest loading.
      - `present`: `os.Stat` does not report that the path does not exist;
      - `read`: opening and decoding the manifest at a path;
      - `validate`: the manifest's `Validate` method, giving its error;
      - `download`: `downloadToTemp`, the temporary file holding the URL's body;
      - `tempDir`: the directory `os.MkdirTemp` creates for a git import;
      - `clone`: cloning a repository into a directory, giving its error;
      - `join`: `filepath.Join`. */
  datatype World = World(
    present: string -> bool,
    read: string -> Result<Taskfile, ReadFailure>,
    validate: Taskfile -> Option<string>,
    download: string -> Result<string, string>,
    tempDir: string -> Result<string, string>,
    clone: (string, string) -> Option<string>,
    join: (string, string) -> string)

  /** The split is exact: `<prefix>.git//<rest>` gives back the prefix plus
      `.git` and the rest, for any rest, when no `.git//` starts inside the
      prefix. */
  lemma {:induction false} SplitRoundTrip(prefix: string, rest: string)
    requires !Contains(prefix + ".git/", GitSeparator)
    ensures SplitGitImport(prefix + GitSeparator + rest) == Some((prefix + ".git", rest))
  {
    var path := prefix + GitSeparator + rest;
    assert path[|prefix|..] == GitSeparator + rest;
    var q := prefix + ".git/";
    assert q == path[..|q|];
    forall m | 0 <= m < |prefix|
      ensures !HasPrefix(path[m..], GitSeparator)
    {
      if HasPrefix(path[m..], GitSeparator) {
        assert q[m..][..6] == path[m..][..6];
        ContainsAt(q, GitSeparator, m);
      }
    }
    IndexOfAt(path, GitSeparator, |prefix|);
    assert path[..|prefix|] == prefix;
    assert path[|prefix| + |GitSeparator|..] == rest;
  }
}
