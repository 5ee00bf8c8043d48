/** What both `parse_config` variants read: the YAML record of one
    configuration file, the glob expansion of a pattern, and the task list
    built from the record's `tasks` mapping. Reading the YAML file and
    expanding the glob are outside the model; they are given as an
    environment. */
module ConfigSources {
  import opened Basics
  import opened Paths

  /** The YAML record `ConfigFile`: `directories` and `tasks` default to empty. */
  datatype ConfigFile = ConfigFile(name: string, directories: seq<string>, tasks: map<string, string>)

  /** One item yielded by the glob iterator: a matching path or an entry
      that could not be read. */
  datatype GlobEntry = Match(path: Path) | Unreadable

  /** `glob(pattern)`: a pattern error, or the entries in match order. */
  datatype GlobOutcome = PatternError(message: string) | Entries(entries: seq<GlobEntry>)

  /** The errors `parse_config` and `validate_config` return as strings:
      "Failed to get parent directory", "Failed to read glob pattern: ..."
      and "Duplicate config name ... found: ...". */
  datatype ConfigError =
    | NoParentDirectory
    | GlobPatternError(message: string)
    | DuplicateName(name: string, path: Path)

  /** The outside world of `parse_config`: the YAML file at each readable
      path, the glob expander, and a rank that every matched child has below
      its parent. The source has no cycle guard; the rank is the promise that
      the glob graph it walks has no cycle. */
  datatype Env = Env(files: map<Path, ConfigFile>, glob: Path -> GlobOutcome, rank: Path -> nat)
  {
    /** Every match of one glob is a readable file ranked below `owner`. */
    ghost predicate MatchesKnown(owner: Path, entries: seq<GlobEntry>)
    {
      forall k :: 0 <= k < |entries| && entries[k].Match? ==>
        entries[k].path in files && rank(entries[k].path) < rank(owner)
    }

    ghost predicate GlobKnown(owner: Path, outcome: GlobOutcome)
    {
      outcome.Entries? ==> MatchesKnown(owner, outcome.entries)
    }

    /** Every pattern built from `dirs` under `dir` matches only readable
        files ranked below `owner`. */
    ghost predicate DirsKnown(owner: Path, dir: Path, dirs: seq<string>)
    {
      forall i :: 0 <= i < |dirs| ==> GlobKnown(owner, glob(ChildPattern(dir, dirs[i])))
    }

    ghost predicate NodeKnown(p: Path)
      requires p in files
    {
      Parent(p).Some? ==> DirsKnown(p, Parent(p).value, files[p].directories)
    }

    /** The recursion of `parse_config` reads only files that exist and
        always descends in rank. */
    ghost predicate Sound()
    {
      forall p {:trigger NodeKnown(p)} :: p in files ==> NodeKnown(p)
    }
  }

  /** `ConfigTask { tag, command }`, the same record in both source files. */
  datatype ConfigTask = ConfigTask(tag: string, command: string)

  /** The tasks built by mapping each `tasks` entry to a `ConfigTask`. The
      HashMap's iteration order is unspecified, so the model keeps the set. */
  function TasksOf(tasks: map<string, string>): (ts: set<ConfigTask>)
    ensures forall t :: t in ts <==> t.tag in tasks && tasks[t.tag] == t.command
  {
    set tag | tag in tasks :: ConfigTask(tag, tasks[tag])
  }

  /** One task per mapping entry: no entry is lost and none is doubled. */
  lemma {:induction false} TaskCount(tasks: map<string, string>)
    ensures |TasksOf(tasks)| == |tasks|
    decreases |tasks|
  {
    if |tasks| > 0 {
      var tag :| tag in tasks;
      var rest := tasks - {tag};
      TaskCount(rest);
      var t := ConfigTask(tag, tasks[tag]);
      assert TasksOf(tasks) == TasksOf(rest) + {t};
      assert t !in TasksOf(rest);
      assert |rest| == |tasks| - 1 by {
        assert rest.Keys == tasks.Keys - {tag};
      }
    } else {
      assert tasks == map[];
      assert TasksOf(tasks) == {};
    }
  }

  /** The matched paths of one glob, in match order, unreadable entries
      skipped. */
  function MatchedPaths(entries: seq<GlobEntry>): (ps: seq<Path>)
    ensures |ps| <= |entries|
    ensures forall j :: 0 <= j < |ps| ==> Match(ps[j]) in entries
    ensures forall k :: 0 <= k < |entries| && entries[k].Match? ==> entries[k].path in ps
  {
    if entries == [] then []
    else if entries[0].Unreadable? then MatchedPaths(entries[1..])
    else [entries[0].path] + MatchedPaths(entries[1..])
  }

  /** Filtering is done entry by entry: a match contributes its path, an
      unreadable entry nothing, and the order of the entries is kept. */
  lemma {:induction false} MatchedPathsAppend(a: seq<GlobEntry>, b: seq<GlobEntry>)
    ensures MatchedPaths(a + b) == MatchedPaths(a) + MatchedPaths(b)
    ensures forall p :: MatchedPaths([Match(p)]) == [p]
    ensures MatchedPaths([Unreadable]) == []
    decreases |a|
  {
    if a == [] {
      assert a + b == b;
    } else {
      assert (a + b)[0] == a[0] && (a + b)[1..] == a[1..] + b;
      MatchedPathsAppend(a[1..], b);
    }
    forall p
      ensures MatchedPaths([Match(p)]) == [p]
    {
      assert [Match(p)][1..] == [];
    }
    assert [Unreadable][1..] == [];
  }

  /** Every path of `ps` names a readable file. */
  ghost predicate Known(env: Env, ps: seq<Path>)
  {
    forall j :: 0 <= j < |ps| ==> ps[j] in env.files
  }

  lemma MatchedKnown(env: Env, owner: Path, entries: seq<GlobEntry>)
    requires env.MatchesKnown(owner, entries)
    ensures Known(env, MatchedPaths(entries))
  {
    var ps := MatchedPaths(entries);
    forall j | 0 <= j < |ps|
      ensures ps[j] in env.files
    {
      var k :| 0 <= k < |entries| && entries[k] == Match(ps[j]);
    }
  }

  /** Every glob built from `dirs` is a valid pattern. */
  ghost predicate PatternsValid(env: Env, dir: Path, dirs: seq<string>)
  {
    forall i :: 0 <= i < |dirs| ==> env.glob(ChildPattern(dir, dirs[i])).Entries?
  }

  /** The paths the globs of `dirs` match, in `directories` order and then in
      match order (an invalid pattern contributes none). */
  function ChildPaths(env: Env, owner: Path, dir: Path, dirs: seq<string>): (ps: seq<Path>)
    requires env.DirsKnown(owner, dir, dirs)
    ensures forall j :: 0 <= j < |ps| ==> ps[j] in env.files && env.rank(ps[j]) < env.rank(owner)
  {
    if dirs == [] then []
    else
      var here := match env.glob(ChildPattern(dir, dirs[0]))
        case PatternError(_) => []
        case Entries(es) => MatchedPaths(es);
      assert env.GlobKnown(owner, env.glob(ChildPattern(dir, dirs[0])));
      here + ChildPaths(env, owner, dir, dirs[1..])
  }

  /** The paths the child globs of `path` match, in order; an invalid
      pattern contributes none. */
  function Children(env: Env, path: Path): (ps: seq<Path>)
    requires env.Sound() && path in env.files
    ensures forall j :: 0 <= j < |ps| ==> ps[j] in env.files && env.rank(ps[j]) < env.rank(path)
  {
    assert env.NodeKnown(path);
    match Parent(path)
    case None => []
    case Some(dir) => ChildPaths(env, path, dir, env.files[path].directories)
  }

  /** `path` has a parent directory and every one of its patterns is valid. */
  ghost predicate GlobsValid(env: Env, path: Path)
    requires path in env.files
  {
    Parent(path).Some? && PatternsValid(env, Parent(path).value, env.files[path].directories)
  }

  /** Splitting off the first `directories` entry keeps the oracle facts
      about the rest, and the patterns are valid exactly when the first one
      and all the others are. */
  lemma DirsCons(env: Env, owner: Path, dir: Path, dirs: seq<string>)
    requires dirs != []
    ensures env.DirsKnown(owner, dir, dirs) ==>
      env.GlobKnown(owner, env.glob(ChildPattern(dir, dirs[0]))) && env.DirsKnown(owner, dir, dirs[1..])
    ensures PatternsValid(env, dir, dirs) <==>
      env.glob(ChildPattern(dir, dirs[0])).Entries? && PatternsValid(env, dir, dirs[1..])
  {
    assert forall i :: 0 <= i < |dirs[1..]| ==> dirs[1..][i] == dirs[i + 1];
    assert forall i :: 0 < i < |dirs| ==> dirs[i] == dirs[1..][i - 1];
  }

  lemma MatchesTail(env: Env, owner: Path, entries: seq<GlobEntry>)
    requires entries != [] && env.MatchesKnown(owner, entries)
    ensures env.MatchesKnown(owner, entries[1..])
    ensures entries[0].Match? ==> entries[0].path in env.files && env.rank(entries[0].path) < env.rank(owner)
  {
    assert forall k :: 0 <= k < |entries[1..]| ==> entries[1..][k] == entries[k + 1];
  }
}
