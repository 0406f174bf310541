/** Loading a manifest and, recursively, the manifests it imports. Two
    versions of `ParseTaskfile` exist and both are modelled:
    - `Legacy` (internal/taskfile/taskfile.go): open, decode, then for each
      import classify it HTTP first, then git, else local path;
    - `Current` (internal/taskfile/import.go): check the path exists, open,
      decode, validate, then classify each import git first, then HTTP.
    Both merge each imported file's tasks into the importing file, keeping
    every name already present, and give up on the first failure. A file
    without a `tasks:` section has a nil task map, and merging a task into it
    panics; the panic is the error `NilMapPanic`, which no caller wraps.

    An import may lead back to the file itself, and the source then recurses
    without end; the model counts nested loads with `fuel` and answers
    `OutOfFuel` when it runs out. */
module TaskfileParse {
  import opened Wrappers
  import opened Strings
  import opened Collections
  import opened Manifest
  import opened ImportSource

  datatype Variant = Legacy | Current

  /** Opening, decoding and (in the current version) checking one file. */
  function Load(v: Variant, w: World, path: string): (r: Result<Taskfile, string>)
    ensures v == Current && !w.present(path) ==> r == Err("taskfile not found: " + path)
    ensures r.Ok? <==> (
      && (v == Current ==> w.present(path))
      && w.read(path).Ok?
      && (v == Current ==> w.validate(w.read(path).value).None?))
    ensures r.Ok? ==> r.value == w.read(path).value
  {
    if v == Current && !w.present(path) then Err("taskfile not found: " + path)
    else match w.read(path)
      case Err(OpenFailed(e)) => Err("open taskfile: " + e)
      case Err(DecodeFailed(e)) => Err(if v == Legacy then "decode yaml: " + e else "decode yaml in " + path + ": " + e)
      case Ok(tf) =>
        if v == Current && w.validate(tf).Some? then Err("invalid taskfile: " + w.validate(tf).value)
        else Ok(tf)
  }

  /** cloneAndGetFile: the local path of the file a git import names. */
  function CloneAndGetFile(v: Variant, w: World, gitImport: string): (r: Result<string, string>)
    ensures !IsGitImport(gitImport) ==> r == Err("invalid git import: " + gitImport)
    ensures r.Ok? ==>
      var (repo, file) := SplitGitImport(gitImport).value;
      && w.tempDir(gitImport).Ok?
      && w.clone(repo, w.tempDir(gitImport).value).None?
      && r.value == w.join(w.tempDir(gitImport).value, file)
      && (v == Current ==> w.present(r.value))
  {
    match SplitGitImport(gitImport)
    case None => Err("invalid git import: " + gitImport)
    case Some((repo, file)) =>
      match w.tempDir(gitImport)
      case Err(e) => Err(e)
      case Ok(dir) =>
        match w.clone(repo, dir)
        case Some(e) => Err(if v == Legacy then e else "git clone failed: " + e)
        case None =>
          var full := w.join(dir, file);
          if v == Current && !w.present(full) then Err("file " + file + " not found in repo " + repo)
          else Ok(full)
  }

  datatype Source = Http | Git | Local

  /** How an import is fetched. */
  function SourceOf(v: Variant, path: string): (r: Source)
    ensures r == Http ==> IsHTTPImport(path)
    ensures r == Git ==> IsGitImport(path)
    ensures r == Local <==> !IsHTTPImport(path) && !IsGitImport(path)
  {
    if v == Legacy then
      if IsHTTPImport(path) then Http else if IsGitImport(path) then Git else Local
    else
      if IsGitImport(path) then Git else if IsHTTPImport(path) then Http else Local
  }

  /** The file to load for one import, or the error that stops the parse. */
  function ImportFile(v: Variant, w: World, importPath: string): (r: Result<string, string>)
    ensures SourceOf(v, importPath) == Local ==> r == Ok(importPath)
  {
    match SourceOf(v, importPath)
    case Http =>
      (match w.download(importPath)
       case Err(e) => Err("download import " + importPath + ": " + e)
       case Ok(f) => Ok(f))
    case Git =>
      (match CloneAndGetFile(v, w, importPath)
       case Err(e) => Err("git import " + importPath + ": " + e)
       case Ok(f) => Ok(f))
    case Local => Ok(importPath)
  }

  /** The Go runtime's panic on a write into a nil map. It differs from every
      error message of the loader, which all start with another word. */
  const NilMapPanic := "panic: assignment to entry in nil map"

  /** The merge loop over one imported file's tasks, as written: a name the
      importing file has is kept, any other is added; with a nil task map the
      first name added panics. */
  function Merged(tf: Taskfile, imported: Taskfile): (r: Result<Taskfile, string>)
    ensures r.Err? <==> !tf.tasksPresent && imported.tasks != map[]
    ensures r.Err? ==> r.error == NilMapPanic
    ensures r.Ok? ==> r.value.(tasks := tf.tasks) == tf
    ensures r.Ok? ==> forall k :: k in r.value.tasks <==> k in tf.tasks || k in imported.tasks
    ensures r.Ok? ==> forall k :: k in tf.tasks ==> r.value.tasks[k] == tf.tasks[k]
    ensures r.Ok? ==> forall k :: k in imported.tasks && k !in tf.tasks ==> r.value.tasks[k] == imported.tasks[k]
  {
    if !tf.tasksPresent && imported.tasks != map[] then Err(NilMapPanic)
    else Ok(tf.(tasks := imported.tasks + tf.tasks))
  }

  /** The merge as evidently intended: a nil task map is made before the
      first write, so every imported task is merged and nothing panics. */
  function MergedAllocating(tf: Taskfile, imported: Taskfile): (r: Taskfile)
  {
    tf.(tasks := imported.tasks + tf.tasks, tasksPresent := tf.tasksPresent || imported.tasks != map[])
  }

  /** The corrected merge keeps every task of the importing file, adds every
      other imported task, changes nothing else, and agrees with the merge as
      written wherever that one does not panic. */
  lemma AllocatingMergeKeepsTasks(tf: Taskfile, imported: Taskfile)
    ensures var r := MergedAllocating(tf, imported);
      && r.(tasks := tf.tasks, tasksPresent := tf.tasksPresent) == tf
      && (forall k :: k in r.tasks <==> k in tf.tasks || k in imported.tasks)
      && (forall k :: k in tf.tasks ==> r.tasks[k] == tf.tasks[k])
      && (forall k :: k in imported.tasks && k !in tf.tasks ==> r.tasks[k] == imported.tasks[k])
      && (Merged(tf, imported).Ok? ==> Merged(tf, imported).value == r)
  {
  }

  /** The error of a failed import: the loader wraps it with the import's
      path, but a panic passes through unwrapped. */
  function ImportFailed(importPath: string, e: string): string
  {
    if e == NilMapPanic then e else "import " + importPath + ": " + e
  }

  /** The manifest at `path` with its imports merged in. */
  function Parsed(v: Variant, w: World, path: string, fuel: nat): Fueled<Result<Taskfile, string>>
    decreases fuel, 0, 0
  {
    if fuel == 0 then OutOfFuel
    else match Load(v, w, path)
      case Err(e) => Finished(Err(e))
      case Ok(tf) => ImportAll(v, w, tf, tf.imports, 0, fuel - 1)
  }

  /** The imports from position `i` on, merged into `tf` one after another. */
  function ImportAll(v: Variant, w: World, tf: Taskfile, imports: seq<string>, i: nat, fuel: nat): Fueled<Result<Taskfile, string>>
    requires i <= |imports|
    decreases fuel, 1, |imports| - i
  {
    if i == |imports| then Finished(Ok(tf))
    else match ImportFile(v, w, imports[i])
      case Err(e) => Finished(Err(e))
      case Ok(file) =>
        match Parsed(v, w, file, fuel)
        case OutOfFuel => OutOfFuel
        case Finished(Err(e)) => Finished(Err(ImportFailed(imports[i], e)))
        case Finished(Ok(imported)) =>
          match Merged(tf, imported)
          case Err(e) => Finished(Err(e))
          case Ok(merged) => ImportAll(v, w, merged, imports, i + 1, fuel)
  }

  /** ParseTaskfile, at most `fuel` files deep. */
  method ParseTaskfile(v: Variant, w: World, path: string, fuel: nat) returns (r: Fueled<Result<Taskfile, string>>)
    ensures r == Parsed(v, w, path, fuel)
    decreases fuel
  {
    if fuel == 0 {
      return OutOfFuel;
    }
    var loaded := Load(v, w, path);
    if loaded.Err? {
      return Finished(Err(loaded.error));
    }
    var tf := loaded.value;
    var imports := tf.imports;
    for i := 0 to |imports|
      invariant ImportAll(v, w, tf, imports, i, fuel - 1) == Parsed(v, w, path, fuel)
    {
      var file := ImportFile(v, w, imports[i]);
      if file.Err? {
        return Finished(Err(file.error));
      }
      var imported := ParseTaskfile(v, w, file.value, fuel - 1);
      if imported.OutOfFuel? {
        return OutOfFuel;
      }
      if imported.value.Err? {
        return Finished(Err(ImportFailed(imports[i], imported.value.error)));
      }
      if !tf.tasksPresent && imported.value.value.tasks != map[] {
        return Finished(Err(NilMapPanic));
      }
      var tasks := AddAbsent(tf.tasks, imported.value.value.tasks);
      tf := tf.(tasks := tasks);
    }
    return Finished(Ok(tf));
  }

  /** Merging imports never replaces a task the importing file has, and
      takes nothing but tasks from the imported files. */
  lemma {:induction false} ImportAllKeepsFile(v: Variant, w: World, tf: Taskfile, imports: seq<string>, i: nat, fuel: nat)
    requires i <= |imports|
    ensures ImportAll(v, w, tf, imports, i, fuel).Finished? && ImportAll(v, w, tf, imports, i, fuel).value.Ok? ==>
      var r := ImportAll(v, w, tf, imports, i, fuel).value.value;
      && r.(tasks := tf.tasks) == tf
      && forall k :: k in tf.tasks ==> k in r.tasks && r.tasks[k] == tf.tasks[k]
    decreases |imports| - i
  {
    if i < |imports| {
      match ImportFile(v, w, imports[i])
      case Err(_) =>
      case Ok(file) =>
        match Parsed(v, w, file, fuel)
        case OutOfFuel =>
        case Finished(Err(_)) =>
        case Finished(Ok(imported)) =>
          if Merged(tf, imported).Ok? {
            ImportAllKeepsFile(v, w, Merged(tf, imported).value, imports, i + 1, fuel);
          }
    }
  }

  /** A parsed manifest is the root file with only tasks added: version,
      imports, environment and vaults are the root's, and every root task is
      kept as written. */
  lemma RootTasksKept(v: Variant, w: World, path: string, fuel: nat)
    ensures Parsed(v, w, path, fuel).Finished? && Parsed(v, w, path, fuel).value.Ok? ==>
      var r := Parsed(v, w, path, fuel).value.value;
      var root := w.read(path).value;
      && Load(v, w, path).Ok?
      && r.(tasks := root.tasks) == root
      && forall k :: k in root.tasks ==> k in r.tasks && r.tasks[k] == root.tasks[k]
  {
    if fuel > 0 && Load(v, w, path).Ok? {
      var tf := Load(v, w, path).value;
      ImportAllKeepsFile(v, w, tf, tf.imports, 0, fuel - 1);
    }
  }

  /** An earlier import beats a later one: a task the `i`-th import brings
      that is not yet known ends up in the result as that import has it. */
  lemma EarlierImportWins(v: Variant, w: World, tf: Taskfile, imports: seq<string>, i: nat, fuel: nat, imported: Taskfile)
    requires i < |imports| && ImportFile(v, w, imports[i]).Ok?
    requires Parsed(v, w, ImportFile(v, w, imports[i]).value, fuel) == Finished(Ok(imported))
    ensures ImportAll(v, w, tf, imports, i, fuel).Finished? && ImportAll(v, w, tf, imports, i, fuel).value.Ok? ==>
      var r := ImportAll(v, w, tf, imports, i, fuel).value.value;
      forall k :: k in imported.tasks && k !in tf.tasks ==> k in r.tasks && r.tasks[k] == imported.tasks[k]
  {
    if Merged(tf, imported).Ok? {
      ImportAllKeepsFile(v, w, Merged(tf, imported).value, imports, i + 1, fuel);
    }
  }

  /** No partial manifest: a successful parse fetched and parsed every
      import, so any failing import makes the whole parse fail. */
  lemma {:induction false} NoPartialManifest(v: Variant, w: World, tf: Taskfile, imports: seq<string>, i: nat, fuel: nat)
    requires i <= |imports|
    ensures ImportAll(v, w, tf, imports, i, fuel).Finished? && ImportAll(v, w, tf, imports, i, fuel).value.Ok? ==>
      forall j :: i <= j < |imports| ==>
        && ImportFile(v, w, imports[j]).Ok?
        && Parsed(v, w, ImportFile(v, w, imports[j]).value, fuel).Finished?
        && Parsed(v, w, ImportFile(v, w, imports[j]).value, fuel).value.Ok?
    decreases |imports| - i
  {
    if i < |imports| {
      match ImportFile(v, w, imports[i])
      case Err(_) =>
      case Ok(file) =>
        match Parsed(v, w, file, fuel)
        case OutOfFuel =>
        case Finished(Err(_)) =>
        case Finished(Ok(imported)) =>
          if Merged(tf, imported).Ok? {
            NoPartialManifest(v, w, Merged(tf, imported).value, imports, i + 1, fuel);
          }
    }
  }

  /** A manifest without a `tasks:` section whose first import brings a task
      stops with the nil-map panic, whatever its other imports hold. */
  lemma ImportIntoNoTasksPanics(v: Variant, w: World, path: string, fuel: nat, imported: Taskfile)
    requires fuel > 0 && Load(v, w, path).Ok?
    requires var tf := Load(v, w, path).value;
      && !tf.tasksPresent && |tf.imports| > 0 && ImportFile(v, w, tf.imports[0]).Ok?
      && Parsed(v, w, ImportFile(v, w, tf.imports[0]).value, fuel - 1) == Finished(Ok(imported))
    requires imported.tasks != map[]
    ensures Parsed(v, w, path, fuel) == Finished(Err(NilMapPanic))
  {
  }

  /** A file whose first import is itself, as a local path, never finishes
      loading, however deep the model may go. */
  lemma {:induction false} SelfImportNeverFinishes(v: Variant, w: World, path: string, fuel: nat)
    requires Load(v, w, path).Ok? && |Load(v, w, path).value.imports| > 0
    requires Load(v, w, path).value.imports[0] == path && SourceOf(v, path) == Local
    ensures Parsed(v, w, path, fuel) == OutOfFuel
    decreases fuel
  {
    if fuel > 0 {
      SelfImportNeverFinishes(v, w, path, fuel - 1);
    }
  }

  /** The two versions disagree exactly on an import that is both an HTTP URL
      and a git import. */
  lemma ClassificationsDiffer(path: string)
    ensures SourceOf(Legacy, path) != SourceOf(Current, path) <==> IsHTTPImport(path) && IsGitImport(path)
  {
  }

  /** An HTTPS URL of a git repository, such as `https://h/r.git//f`, is a
      download for the older version and a clone of `https://h/r.git` for
      the newer one. */
  lemma HttpsGitImport(prefix: string, rest: string)
    requires HasPrefix(prefix, "https://") && !Contains(prefix + ".git/", GitSeparator)
    ensures var path := prefix + GitSeparator + rest;
      && SourceOf(Legacy, path) == Http
      && SourceOf(Current, path) == Git
      && SplitGitImport(path) == Some((prefix + ".git", rest))
  {
    var path := prefix + GitSeparator + rest;
    SplitRoundTrip(prefix, rest);
    assert path[..8] == prefix[..8];
  }
}
