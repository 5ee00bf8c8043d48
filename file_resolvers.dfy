/** `resolve_configuration_file`: turns the target given on the command
    line into the configuration file to read. The file system calls it makes
    (`canonicalize`, `is_dir`, `exists`) are given as a value. */
module FileResolvers {
  import opened Basics
  import opened Paths

  /** The three file system queries the resolver makes; `canonicalize`
      sees the target's text as typed. */
  datatype FileSystem = FileSystem(
    canonicalize: string -> Option<Path>,
    isDir: Path -> bool,
    isPresent: Path -> bool)

  /** The two ways resolution fails, both reported as "Target does not
      exists": the target as typed cannot be canonicalised, or the resolved
      file is not there. */
  datatype ResolveError =
    | TargetDoesNotExist(target: string)
    | FileDoesNotExist(path: Path)

  /** The file looked for under a canonical target: `rask.yaml` inside it
      when it is a directory, the target itself otherwise. */
  function Candidate(fs: FileSystem, canonical: Path): (file: Path)
    ensures fs.isDir(canonical) ==>
      file == Path(canonical.absolute, canonical.comps + [DefaultFileName]) && Parent(file) == Some(canonical)
    ensures !fs.isDir(canonical) ==> file == canonical
  {
    if fs.isDir(canonical) then
      PushParent(canonical, DefaultFileName);
      Push(canonical, DefaultFile)
    else canonical
  }

  /** Resolves `target`: an uncanonicalisable target fails with the target
      as typed; otherwise the candidate file is returned when it exists and
      reported missing when it does not. */
  method ResolveConfigurationFile(fs: FileSystem, target: string) returns (r: Result<Path, ResolveError>)
    ensures fs.canonicalize(target).None? <==> r == Err(TargetDoesNotExist(target))
    ensures fs.canonicalize(target).Some? ==>
      var file := Candidate(fs, fs.canonicalize(target).value);
      && (fs.isPresent(file) ==> r == Ok(file))
      && (!fs.isPresent(file) ==> r == Err(FileDoesNotExist(file)))
    ensures r.Ok? ==> fs.isPresent(r.value)
  {
    var canonical := fs.canonicalize(target);
    if canonical.None? {
      return Err(TargetDoesNotExist(target));
    }
    var resolved := canonical.value;
    if fs.isDir(resolved) {
      PushParent(resolved, DefaultFileName);
      resolved := Push(resolved, DefaultFile);
    }
    if !fs.isPresent(resolved) {
      return Err(FileDoesNotExist(resolved));
    }
    return Ok(resolved);
  }

  /** A resolved file sits inside the canonical target or is that target:
      its parent is the target exactly when the target is a directory, and
      then its last component is `rask.yaml`. */
  lemma CandidateInTarget(fs: FileSystem, canonical: Path)
    requires canonical.comps == [] || canonical.comps[|canonical.comps| - 1] != DefaultFileName
    ensures var file := Candidate(fs, canonical);
      && (fs.isDir(canonical) <==> Parent(file) == Some(canonical))
      && (fs.isDir(canonical) <==> LastIs(file, DefaultFileName))
  {
    if !fs.isDir(canonical) && Parent(canonical).Some? {
      assert |Parent(canonical).value.comps| < |canonical.comps|;
    }
  }
}
