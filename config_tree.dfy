/** The configuration tree of `src/utils/config.rs`: `parse_config` builds
    a `Config` whose `sub_configs` are the configurations its directory globs
    match, `ConfigIterator` walks the tree with an explicit stack, and
    `validate_config` rejects the first name seen twice on that walk. */
module ConfigTree {
  import opened Basics
  import opened Paths
  import opened ConfigSources

  datatype Config = Config(name: string, tasks: set<ConfigTask>, path: Path, subConfigs: seq<Config>)

  // ---------------------------------------------------------------------
  // Building the tree

  /** What `parse_config(path)` returns. The file at `path` must exist: the
      source panics (`expect`) when it cannot be read or parsed. */
  function Parse(env: Env, path: Path): (r: Result<Config, ConfigError>)
    requires env.Sound() && path in env.files
    ensures r.Ok? ==> r.value.path == path && r.value.name == env.files[path].name
    ensures r.Ok? ==> r.value.tasks == TasksOf(env.files[path].tasks)
    ensures Parent(path).None? ==> r == Err(NoParentDirectory)
    decreases env.rank(path), 2, 0
  {
    var file := env.files[path];
    assert env.NodeKnown(path);
    match Parent(path)
    case None => Err(NoParentDirectory)
    case Some(dir) =>
      match ParseDirs(env, path, dir, file.directories)
      case Err(e) => Err(e)
      case Ok(subs) => Ok(Config(file.name, TasksOf(file.tasks), path, subs))
  }

  /** The sub-configurations found through `dirs`, in order. */
  function ParseDirs(env: Env, owner: Path, dir: Path, dirs: seq<string>): (r: Result<seq<Config>, ConfigError>)
    requires env.Sound() && env.DirsKnown(owner, dir, dirs)
    decreases env.rank(owner), 1, |dirs|
  {
    if dirs == [] then Ok([])
    else
      var outcome := env.glob(ChildPattern(dir, dirs[0]));
      assert env.GlobKnown(owner, outcome);
      match outcome
      case PatternError(msg) => Err(GlobPatternError(msg))
      case Entries(es) => Chain(ParseMatches(env, owner, es), ParseDirs(env, owner, dir, dirs[1..]))
  }

  /** The sub-configurations parsed from the matches of one glob. */
  function ParseMatches(env: Env, owner: Path, entries: seq<GlobEntry>): (r: Result<seq<Config>, ConfigError>)
    requires env.Sound() && env.MatchesKnown(owner, entries)
    decreases env.rank(owner), 0, |entries|
  {
    if entries == [] then Ok([])
    else if entries[0].Unreadable? then ParseMatches(env, owner, entries[1..])
    else
      Chain(AsList(Parse(env, entries[0].path)), ParseMatches(env, owner, entries[1..]))
  }

  /** A single parse outcome as an outcome of a list of configurations. */
  function AsList(r: Result<Config, ConfigError>): (l: Result<seq<Config>, ConfigError>)
  {
    if r.Err? then Err(r.error) else Ok([r.value])
  }

  /** One step of `ParseDirs` from position `i` of `dirs`. */
  lemma ParseDirsAt(env: Env, owner: Path, dir: Path, dirs: seq<string>, i: nat)
    requires env.Sound() && i < |dirs| && env.DirsKnown(owner, dir, dirs[i..])
    ensures env.GlobKnown(owner, env.glob(ChildPattern(dir, dirs[i])))
    ensures env.DirsKnown(owner, dir, dirs[i + 1..])
    ensures var outcome := env.glob(ChildPattern(dir, dirs[i]));
      ParseDirs(env, owner, dir, dirs[i..]) ==
        if outcome.PatternError? then Err(GlobPatternError(outcome.message))
        else Chain(ParseMatches(env, owner, outcome.entries), ParseDirs(env, owner, dir, dirs[i + 1..]))
  {
    assert dirs[i..][0] == dirs[i] && dirs[i..][1..] == dirs[i + 1..];
    DirsCons(env, owner, dir, dirs[i..]);
  }

  /** One step of `ParseMatches` from position `k` of `entries`. */
  lemma ParseMatchesAt(env: Env, owner: Path, entries: seq<GlobEntry>, k: nat)
    requires env.Sound() && k < |entries| && env.MatchesKnown(owner, entries[k..])
    ensures env.MatchesKnown(owner, entries[k + 1..])
    ensures entries[k].Match? ==> entries[k].path in env.files && env.rank(entries[k].path) < env.rank(owner)
    ensures entries[k].Unreadable? ==>
      ParseMatches(env, owner, entries[k..]) == ParseMatches(env, owner, entries[k + 1..])
    ensures entries[k].Match? ==>
      ParseMatches(env, owner, entries[k..]) ==
        Chain(AsList(Parse(env, entries[k].path)), ParseMatches(env, owner, entries[k + 1..]))
  {
    assert entries[k..][0] == entries[k] && entries[k..][1..] == entries[k + 1..];
    MatchesTail(env, owner, entries[k..]);
  }

  /** `parse_config`: reads the file, maps its tasks, and for every
      `directories` entry expands the child glob and parses each match,
      pushing the results in order. */
  method ParseConfig(env: Env, path: Path) returns (r: Result<Config, ConfigError>)
    requires env.Sound() && path in env.files
    ensures r == Parse(env, path)
    decreases env.rank(path), 1
  {
    var file := env.files[path];
    var name := file.name;
    var tasks := TasksOf(file.tasks);
    var subConfigs: seq<Config> := [];
    var parent := Parent(path);
    if parent.None? {
      return Err(NoParentDirectory);
    }
    var dir := parent.value;
    var dirs := file.directories;
    assert env.NodeKnown(path);
    ghost var whole := ParseDirs(env, path, dir, dirs);
    assert dirs[0..] == dirs;
    ChainNil(whole);
    var i := 0;
    while i < |dirs|
      invariant 0 <= i <= |dirs|
      invariant env.DirsKnown(path, dir, dirs[i..])
      invariant Chain(Ok(subConfigs), ParseDirs(env, path, dir, dirs[i..])) == whole
    {
      ParseDirsAt(env, path, dir, dirs, i);
      var outcome := env.glob(ChildPattern(dir, dirs[i]));
      if outcome.PatternError? {
        return Err(GlobPatternError(outcome.message));
      }
      ghost var later := ParseDirs(env, path, dir, dirs[i + 1..]);
      var pushed := PushMatches(env, path, outcome.entries, subConfigs);
      ChainAssoc(Ok(subConfigs), ParseMatches(env, path, outcome.entries), later);
      if pushed.Err? {
        return Err(pushed.error);
      }
      subConfigs := pushed.value;
      i := i + 1;
    }
    assert dirs[i..] == [];
    assert subConfigs + [] == subConfigs;
    return Ok(Config(name, tasks, path, subConfigs));
  }

  /** The inner loop of `parse_config` over the entries of one glob: every
      matched path is parsed and pushed onto `subConfigs` in match order,
      unreadable entries are skipped, and the first error is returned. */
  method PushMatches(env: Env, owner: Path, entries: seq<GlobEntry>, subConfigs: seq<Config>)
    returns (r: Result<seq<Config>, ConfigError>)
    requires env.Sound() && env.MatchesKnown(owner, entries)
    ensures r == Chain(Ok(subConfigs), ParseMatches(env, owner, entries))
    decreases env.rank(owner), 0
  {
    var pushed := subConfigs;
    assert entries[0..] == entries;
    var k := 0;
    while k < |entries|
      invariant 0 <= k <= |entries|
      invariant env.MatchesKnown(owner, entries[k..])
      invariant Chain(Ok(pushed), ParseMatches(env, owner, entries[k..])) == Chain(Ok(subConfigs), ParseMatches(env, owner, entries))
    {
      ParseMatchesAt(env, owner, entries, k);
      if entries[k].Match? {
        var sub := ParseConfig(env, entries[k].path);
        if sub.Err? {
          return Err(sub.error);
        }
        assert AsList(sub) == Ok([sub.value]);
        ChainOkAssoc(pushed, [sub.value], ParseMatches(env, owner, entries[k + 1..]));
        pushed := pushed + [sub.value];
      }
      k := k + 1;
    }
    assert entries[k..] == [];
    assert pushed + [] == pushed;
    return Ok(pushed);
  }

  // ---------------------------------------------------------------------
  // What the tree holds

  /** Every path of `ps` parses. */
  ghost predicate AllParse(env: Env, ps: seq<Path>)
    requires env.Sound() && Known(env, ps)
  {
    forall j :: 0 <= j < |ps| ==> Parse(env, ps[j]).Ok?
  }

  /** `subs` are the configurations parsed from `ps`, one for one. */
  ghost predicate ParsedFrom(env: Env, ps: seq<Path>, subs: seq<Config>)
    requires env.Sound() && Known(env, ps)
  {
    |subs| == |ps| && forall j :: 0 <= j < |ps| ==> Parse(env, ps[j]) == Ok(subs[j])
  }

  lemma ParsedAppend(env: Env, ps1: seq<Path>, ps2: seq<Path>, subs1: seq<Config>, subs2: seq<Config>)
    requires env.Sound() && Known(env, ps1) && Known(env, ps2)
    ensures Known(env, ps1 + ps2)
    ensures AllParse(env, ps1 + ps2) <==> AllParse(env, ps1) && AllParse(env, ps2)
    ensures ParsedFrom(env, ps1, subs1) && ParsedFrom(env, ps2, subs2) ==> ParsedFrom(env, ps1 + ps2, subs1 + subs2)
  {
    var ps := ps1 + ps2;
    assert forall j :: 0 <= j < |ps2| ==> ps[|ps1| + j] == ps2[j];
    assert forall j :: 0 <= j < |ps| ==> ps[j] == if j < |ps1| then ps1[j] else ps2[j - |ps1|];
    if ParsedFrom(env, ps1, subs1) && ParsedFrom(env, ps2, subs2) {
      var subs := subs1 + subs2;
      assert forall j :: 0 <= j < |ps| ==> subs[j] == if j < |ps1| then subs1[j] else subs2[j - |ps1|];
    }
  }

  lemma {:induction false} ParseMatchesShape(env: Env, owner: Path, entries: seq<GlobEntry>)
    requires env.Sound() && env.MatchesKnown(owner, entries)
    ensures Known(env, MatchedPaths(entries))
    ensures ParseMatches(env, owner, entries).Ok? <==> AllParse(env, MatchedPaths(entries))
    ensures ParseMatches(env, owner, entries).Ok? ==>
      ParsedFrom(env, MatchedPaths(entries), ParseMatches(env, owner, entries).value)
    decreases |entries|
  {
    if entries != [] {
      MatchesTail(env, owner, entries);
      ParseMatchesShape(env, owner, entries[1..]);
      var rest := MatchedPaths(entries[1..]);
      var restR := ParseMatches(env, owner, entries[1..]);
      if entries[0].Match? {
        var p := entries[0].path;
        assert MatchedPaths(entries) == [p] + rest;
        var hereR := AsList(Parse(env, p));
        assert ParseMatches(env, owner, entries) == Chain(hereR, restR);
        assert Known(env, [p]);
        if hereR.Ok? {
          ParsedAppend(env, [p], rest, hereR.value, if restR.Ok? then restR.value else []);
        } else {
          ParsedAppend(env, [p], rest, [], []);
          assert [p][0] == p && !AllParse(env, [p]);
        }
      }
    } else {
      assert MatchedPaths(entries) == [];
    }
  }

  /** The sub-configurations parsed through `dirs` are, one by one, the
      configurations parsed from the paths the globs match, and the parse
      fails exactly when a pattern is invalid or a matched child fails. */
  lemma {:induction false} ParseDirsShape(env: Env, owner: Path, dir: Path, dirs: seq<string>)
    requires env.Sound() && env.DirsKnown(owner, dir, dirs)
    ensures Known(env, ChildPaths(env, owner, dir, dirs))
    ensures ParseDirs(env, owner, dir, dirs).Ok? <==>
      PatternsValid(env, dir, dirs) && AllParse(env, ChildPaths(env, owner, dir, dirs))
    ensures ParseDirs(env, owner, dir, dirs).Ok? ==>
      ParsedFrom(env, ChildPaths(env, owner, dir, dirs), ParseDirs(env, owner, dir, dirs).value)
    decreases |dirs|
  {
    if dirs == [] {
      assert ChildPaths(env, owner, dir, dirs) == [];
    } else {
      DirsCons(env, owner, dir, dirs);
      ParseDirsShape(env, owner, dir, dirs[1..]);
      var rest := ChildPaths(env, owner, dir, dirs[1..]);
      var restR := ParseDirs(env, owner, dir, dirs[1..]);
      var outcome := env.glob(ChildPattern(dir, dirs[0]));
      if outcome.Entries? {
        var es := outcome.entries;
        ParseMatchesShape(env, owner, es);
        var here := MatchedPaths(es);
        var hereR := ParseMatches(env, owner, es);
        assert ChildPaths(env, owner, dir, dirs) == here + rest;
        assert ParseDirs(env, owner, dir, dirs) == Chain(hereR, restR);
        ParsedAppend(env, here, rest, if hereR.Ok? then hereR.value else [], if restR.Ok? then restR.value else []);
      }
    }
  }

  /** `parse_config` succeeds exactly when the path has a parent, every
      child pattern is valid and every matched child parses; its
      `sub_configs` are then the children's configurations, in
      `directories` order and then in match order, each parsed from exactly
      the path the glob matched. */
  lemma ParseShape(env: Env, path: Path)
    requires env.Sound() && path in env.files
    ensures var ps := Children(env, path);
      && (Parse(env, path).Ok? <==> GlobsValid(env, path) && forall j :: 0 <= j < |ps| ==> Parse(env, ps[j]).Ok?)
      && (Parse(env, path).Ok? ==>
            var subs := Parse(env, path).value.subConfigs;
            |subs| == |ps| && forall j :: 0 <= j < |ps| ==> Parse(env, ps[j]) == Ok(subs[j]) && subs[j].path == ps[j])
  {
    assert env.NodeKnown(path);
    if Parent(path).Some? {
      var ps := Children(env, path);
      ParseDirsShape(env, path, Parent(path).value, env.files[path].directories);
      if Parse(env, path).Ok? {
        var subs := Parse(env, path).value.subConfigs;
        assert ParsedFrom(env, ps, subs);
      }
    }
  }

  // ---------------------------------------------------------------------
  // Which error is returned

  /** `ps[j]` is the first of `ps` whose parse fails, and it fails with `e`. */
  ghost predicate FirstFailure(env: Env, ps: seq<Path>, j: nat, e: ConfigError)
    requires env.Sound() && Known(env, ps)
  {
    j < |ps| && AllParse(env, ps[..j]) && Parse(env, ps[j]) == Err(e)
  }

  /** Entry `i` of `dirs` is the first to fail, with `e`: the entries before
      it have valid patterns whose matches all parse, and entry `i` has an
      invalid pattern (`e` is its glob error) or a match that is the first
      of its glob to fail (with `e`). */
  ghost predicate FirstFailingEntry(env: Env, owner: Path, dir: Path, dirs: seq<string>, i: nat, e: ConfigError)
    requires env.Sound() && env.DirsKnown(owner, dir, dirs)
  {
    && i < |dirs|
    && PatternsValid(env, dir, dirs[..i])
    && AllParse(env, ChildPaths(env, owner, dir, dirs[..i]))
    && var outcome := env.glob(ChildPattern(dir, dirs[i]));
       if outcome.PatternError? then e == GlobPatternError(outcome.message)
       else
         MatchedKnown(env, owner, outcome.entries);
         exists j: nat :: FirstFailure(env, MatchedPaths(outcome.entries), j, e)
  }

  /** The inner loop returns the error of the first matched path whose parse
      fails. */
  lemma {:induction false} ParseMatchesError(env: Env, owner: Path, entries: seq<GlobEntry>)
    requires env.Sound() && env.MatchesKnown(owner, entries)
    ensures Known(env, MatchedPaths(entries))
    ensures ParseMatches(env, owner, entries).Err? ==>
      exists j: nat :: FirstFailure(env, MatchedPaths(entries), j, ParseMatches(env, owner, entries).error)
    decreases |entries|
  {
    MatchedKnown(env, owner, entries);
    if entries != [] {
      MatchesTail(env, owner, entries);
      ParseMatchesError(env, owner, entries[1..]);
      var ps := MatchedPaths(entries);
      var rest := MatchedPaths(entries[1..]);
      var r := ParseMatches(env, owner, entries);
      if entries[0].Match? && r.Err? {
        var p := entries[0].path;
        assert ps == [p] + rest;
        if Parse(env, p).Err? {
          assert ps[..0] == [];
          assert FirstFailure(env, ps, 0, r.error);
        } else {
          var j: nat :| FirstFailure(env, rest, j, r.error);
          assert ps[..j + 1] == [p] + rest[..j];
          ParsedAppend(env, [p], rest[..j], [], []);
          assert FirstFailure(env, ps, j + 1, r.error);
        }
      }
    }
  }

  /** The outer loop returns the error of the first `directories` entry that
      fails: an invalid pattern, or a match that fails, once every earlier
      entry's pattern was valid and all its matches parsed. */
  lemma {:induction false} ParseDirsError(env: Env, owner: Path, dir: Path, dirs: seq<string>)
    requires env.Sound() && env.DirsKnown(owner, dir, dirs)
    ensures ParseDirs(env, owner, dir, dirs).Err? ==>
      exists i: nat :: FirstFailingEntry(env, owner, dir, dirs, i, ParseDirs(env, owner, dir, dirs).error)
    decreases |dirs|
  {
    var r := ParseDirs(env, owner, dir, dirs);
    if dirs != [] && r.Err? {
      DirsCons(env, owner, dir, dirs);
      assert dirs[..0] == [];
      assert ChildPaths(env, owner, dir, dirs[..0]) == [];
      var outcome := env.glob(ChildPattern(dir, dirs[0]));
      if outcome.PatternError? {
        assert FirstFailingEntry(env, owner, dir, dirs, 0, r.error);
      } else {
        var es := outcome.entries;
        ParseMatchesError(env, owner, es);
        if ParseMatches(env, owner, es).Err? {
          assert FirstFailingEntry(env, owner, dir, dirs, 0, r.error);
        } else {
          ParseMatchesShape(env, owner, es);
          ParseDirsError(env, owner, dir, dirs[1..]);
          var i: nat :| FirstFailingEntry(env, owner, dir, dirs[1..], i, r.error);
          FirstFailingEntryCons(env, owner, dir, dirs, i, r.error);
        }
      }
    }
  }

  /** An entry whose pattern is valid and whose matches all parse passes
      the first failure on to the entries after it. */
  lemma FirstFailingEntryCons(env: Env, owner: Path, dir: Path, dirs: seq<string>, i: nat, e: ConfigError)
    requires env.Sound() && dirs != [] && env.DirsKnown(owner, dir, dirs)
    requires env.glob(ChildPattern(dir, dirs[0])).Entries?
    requires Known(env, MatchedPaths(env.glob(ChildPattern(dir, dirs[0])).entries))
    requires AllParse(env, MatchedPaths(env.glob(ChildPattern(dir, dirs[0])).entries))
    requires env.DirsKnown(owner, dir, dirs[1..]) && FirstFailingEntry(env, owner, dir, dirs[1..], i, e)
    ensures FirstFailingEntry(env, owner, dir, dirs, i + 1, e)
  {
    var es := env.glob(ChildPattern(dir, dirs[0])).entries;
    var pre := dirs[..i + 1];
    assert env.DirsKnown(owner, dir, pre) by {
      assert forall k :: 0 <= k < |pre| ==> pre[k] == dirs[k];
    }
    assert pre[0] == dirs[0] && pre[1..] == dirs[1..][..i];
    ClearPrefixCons(env, owner, dir, pre);
    assert dirs[i + 1] == dirs[1..][i];
  }

  /** A first entry with a valid pattern whose matches all parse, before
      entries that are clear, makes a clear prefix. */
  lemma ClearPrefixCons(env: Env, owner: Path, dir: Path, pre: seq<string>)
    requires env.Sound() && pre != [] && env.DirsKnown(owner, dir, pre) && env.DirsKnown(owner, dir, pre[1..])
    requires env.glob(ChildPattern(dir, pre[0])).Entries?
    requires Known(env, MatchedPaths(env.glob(ChildPattern(dir, pre[0])).entries))
    requires AllParse(env, MatchedPaths(env.glob(ChildPattern(dir, pre[0])).entries))
    requires PatternsValid(env, dir, pre[1..]) && AllParse(env, ChildPaths(env, owner, dir, pre[1..]))
    ensures PatternsValid(env, dir, pre) && AllParse(env, ChildPaths(env, owner, dir, pre))
  {
    var es := env.glob(ChildPattern(dir, pre[0])).entries;
    DirsCons(env, owner, dir, pre);
    var later := ChildPaths(env, owner, dir, pre[1..]);
    assert ChildPaths(env, owner, dir, pre) == MatchedPaths(es) + later;
    ParsedAppend(env, MatchedPaths(es), later, [], []);
  }

  /** `parse_config` fails with "Failed to get parent directory" when the
      path has no parent, and otherwise with the error of the first failing
      `directories` entry. */
  lemma ParseError(env: Env, path: Path)
    requires env.Sound() && path in env.files
    ensures Parent(path).None? ==> Parse(env, path) == Err(NoParentDirectory)
    ensures Parse(env, path).Err? && Parent(path).Some? ==>
      exists i: nat :: FailsFirstAt(env, path, i, Parse(env, path).error)
  {
    assert env.NodeKnown(path);
    var r := Parse(env, path);
    if Parent(path).Some? && r.Err? {
      var dir := Parent(path).value;
      var dirs := env.files[path].directories;
      assert ParseDirs(env, path, dir, dirs) == Err(r.error);
      ParseDirsError(env, path, dir, dirs);
      var i: nat :| FirstFailingEntry(env, path, dir, dirs, i, r.error);
      assert FailsFirstAt(env, path, i, r.error);
    }
  }

  /** Entry `i` of the file's `directories` is the first to fail, with `e`. */
  ghost predicate FailsFirstAt(env: Env, path: Path, i: nat, e: ConfigError)
    requires env.Sound() && path in env.files
  {
    assert env.NodeKnown(path);
    Parent(path).Some? && FirstFailingEntry(env, path, Parent(path).value, env.files[path].directories, i, e)
  }

  // ---------------------------------------------------------------------
  // Walking the tree

  /** The parent-first, left-to-right order of a tree. */
  function Preorder(c: Config): (r: seq<Config>)
    ensures |r| >= 1 && r[0] == c
    decreases c, 1
  {
    [c] + PreorderForest(c.subConfigs)
  }

  function PreorderForest(cs: seq<Config>): (r: seq<Config>)
    decreases cs, 0
  {
    if cs == [] then [] else Preorder(cs[0]) + PreorderForest(cs[1..])
  }

  /** The number of configurations in a tree. */
  function Size(c: Config): (n: nat)
    decreases c, 1
  {
    1 + SizeForest(c.subConfigs)
  }

  function SizeForest(cs: seq<Config>): (n: nat)
    decreases cs, 0
  {
    if cs == [] then 0 else Size(cs[0]) + SizeForest(cs[1..])
  }

  lemma {:induction false} PreorderSize(c: Config)
    ensures |Preorder(c)| == Size(c)
    decreases c, 1
  {
    PreorderForestSize(c.subConfigs);
  }

  lemma {:induction false} PreorderForestSize(cs: seq<Config>)
    ensures |PreorderForest(cs)| == SizeForest(cs)
    decreases cs, 0
  {
    if cs != [] {
      PreorderSize(cs[0]);
      PreorderForestSize(cs[1..]);
    }
  }

  lemma {:induction false} PreorderForestAppend(a: seq<Config>, b: seq<Config>)
    ensures PreorderForest(a + b) == PreorderForest(a) + PreorderForest(b)
    ensures SizeForest(a + b) == SizeForest(a) + SizeForest(b)
    decreases |a|
  {
    if a != [] {
      assert (a + b)[0] == a[0] && (a + b)[1..] == a[1..] + b;
      PreorderForestAppend(a[1..], b);
    } else {
      assert a + b == b;
    }
  }

  /** Each sub-configuration's own walk sits, whole and uninterrupted, in
      its parent's walk, after the parent and after the walks of the
      siblings declared before it. */
  lemma ChildWalkInParentWalk(c: Config, j: nat)
    requires j < |c.subConfigs|
    ensures var cs := c.subConfigs;
      var start := 1 + SizeForest(cs[..j]);
      && start + Size(cs[j]) <= |Preorder(c)|
      && Preorder(c)[start .. start + Size(cs[j])] == Preorder(cs[j])
  {
    var cs := c.subConfigs;
    var tail := [cs[j]] + cs[j + 1..];
    assert cs == cs[..j] + tail;
    PreorderForestAppend(cs[..j], tail);
    assert tail[0] == cs[j] && tail[1..] == cs[j + 1..];
    PreorderForestSize(cs[..j]);
    PreorderSize(cs[j]);
    var before := PreorderForest(cs[..j]);
    var mine := Preorder(cs[j]);
    var after := PreorderForest(cs[j + 1..]);
    assert PreorderForest(tail) == mine + after;
    assert PreorderForest(cs) == before + (mine + after);
    var walk := Preorder(c);
    assert walk == ([c] + before) + (mine + after);
    SliceMiddle([c] + before, mine, after);
  }

  lemma SliceMiddle<T>(a: seq<T>, b: seq<T>, c: seq<T>)
    ensures (a + (b + c))[|a| .. |a| + |b|] == b
  {
  }

  /** The walk still owed by a stack whose top is its last element: the
      top's tree first, then what lies below it. */
  function Pending(stack: seq<Config>): (r: seq<Config>)
  {
    if stack == [] then [] else Preorder(stack[|stack| - 1]) + Pending(stack[..|stack| - 1])
  }

  /** `.iter().rev()`: the same configurations, last first. */
  function Reversed(cs: seq<Config>): (r: seq<Config>)
    ensures |r| == |cs|
    ensures forall i :: 0 <= i < |cs| ==> r[i] == cs[|cs| - 1 - i]
  {
    if cs == [] then [] else Reversed(cs[1..]) + [cs[0]]
  }

  /** Pushing the children in reverse puts the first child on top, so the
      stack owes their walks in declared order before the rest. */
  lemma {:induction false} PendingPushReversed(below: seq<Config>, cs: seq<Config>)
    ensures Pending(below + Reversed(cs)) == PreorderForest(cs) + Pending(below)
    decreases |cs|
  {
    if cs != [] {
      var s := below + Reversed(cs);
      assert s == (below + Reversed(cs[1..])) + [cs[0]];
      assert s[..|s| - 1] == below + Reversed(cs[1..]);
      PendingPushReversed(below, cs[1..]);
    } else {
      assert below + Reversed(cs) == below;
    }
  }

  lemma PendingEmpty(stack: seq<Config>)
    ensures Pending(stack) == [] <==> stack == []
  {
    if stack != [] {
      assert |Preorder(stack[|stack| - 1])| >= 1;
    }
  }

  /** `ConfigIterator`: a stack of configurations, top at the end as in a
      `Vec`. */
  class ConfigIterator {
    var stack: seq<Config>

    /** The configurations this iterator has yet to yield, in order. */
    ghost function Remaining(): (r: seq<Config>)
      reads this
    {
      Pending(stack)
    }

    /** `ConfigIterator::new`: the stack holds the root alone. */
    constructor (config: Config)
      ensures stack == [config]
      ensures Remaining() == Preorder(config)
    {
      stack := [config];
      assert [config][..0] == [];
      assert Pending([config]) == Preorder(config) + Pending([]);
    }

    /** `next`: pop the top, push its children in reverse, yield it. */
    method Next() returns (item: Option<Config>)
      modifies this
      ensures old(stack) == [] ==> item == None && stack == []
      ensures old(stack) != [] ==>
        var top := old(stack)[|old(stack)| - 1];
        item == Some(top) && stack == old(stack)[..|old(stack)| - 1] + Reversed(top.subConfigs)
      ensures item.None? <==> old(Remaining()) == []
      ensures item.Some? ==> old(Remaining()) == [item.value] + Remaining()
    {
      if stack == [] {
        return None;
      }
      var top := stack[|stack| - 1];
      stack := stack[..|stack| - 1];
      PendingPushReversed(stack, top.subConfigs);
      stack := stack + Reversed(top.subConfigs);
      item := Some(top);
    }
  }

  /** `Config::iter`. */
  method Iter(config: Config) returns (it: ConfigIterator)
    ensures fresh(it) && it.stack == [config]
    ensures it.Remaining() == Preorder(config)
  {
    it := new ConfigIterator(config);
  }

  // ---------------------------------------------------------------------
  // Validating the tree

  function NamesOf(cs: seq<Config>): (names: seq<string>)
    ensures |names| == |cs| && forall i :: 0 <= i < |cs| ==> names[i] == cs[i].name
  {
    seq(|cs|, i requires 0 <= i < |cs| => cs[i].name)
  }

  predicate Distinct(names: seq<string>)
  {
    forall i, j :: 0 <= i < j < |names| ==> names[i] != names[j]
  }

  /** Position `i` holds the first name that was already seen before it. */
  predicate FirstRepeat(names: seq<string>, i: nat)
  {
    i < |names| && names[i] in names[..i] && Distinct(names[..i])
  }

  /** A name repeated at `i` means no prefix longer than `i` is free of
      repeats. */
  lemma RepeatSpoilsLongerPrefix(names: seq<string>, i: nat, j: nat)
    requires FirstRepeat(names, i) && j <= |names|
    ensures i < j ==> !Distinct(names[..j])
  {
    if i < j {
      var k :| 0 <= k < i && names[k] == names[i];
      assert names[..j][k] == names[..j][i];
    }
  }

  /** There is at most one first repeat. */
  lemma FirstRepeatUnique(names: seq<string>, i: nat, j: nat)
    requires FirstRepeat(names, i) && FirstRepeat(names, j)
    ensures i == j
  {
    RepeatSpoilsLongerPrefix(names, i, j);
    RepeatSpoilsLongerPrefix(names, j, i);
  }

  /** `validate_config`: walk the tree with its iterator, keeping the names
      seen; `Ok(true)` when no name repeats, otherwise the name and path of
      the first configuration whose name was already seen. */
  method ValidateConfig(config: Config) returns (r: Result<bool, ConfigError>)
    ensures var names := NamesOf(Preorder(config));
      && (r.Ok? <==> Distinct(names))
      && (r.Ok? ==> r.value)
      && (r.Err? ==> exists i: nat :: (FirstRepeat(names, i) &&
            r.error == DuplicateName(Preorder(config)[i].name, Preorder(config)[i].path)))
  {
    ghost var order := Preorder(config);
    var it := Iter(config);
    var names: seq<string> := [];
    ghost var seen: seq<Config> := [];
    var next := it.Next();
    while next.Some?
      invariant next.Some? ==> seen + [next.value] + it.Remaining() == order
      invariant next.None? ==> seen == order
      invariant names == NamesOf(seen)
      invariant Distinct(names)
      decreases |it.Remaining()| + if next.Some? then 1 else 0
    {
      var c := next.value;
      var i := |seen|;
      assert order[..i] == seen && order[i] == c;
      assert NamesOf(order)[..i] == names;
      if c.name in names {
        assert FirstRepeat(NamesOf(order), i);
        return Err(DuplicateName(c.name, c.path));
      }
      names := names + [c.name];
      seen := seen + [c];
      next := it.Next();
    }
    assert names == NamesOf(order);
    return Ok(true);
  }
}
