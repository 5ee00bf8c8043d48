/** The configuration tree of `src/utils/config_reader.rs`: the same walk
    over directory globs as `src/utils/config.rs`, but a `Config` carries no
    path of its own; each child is a `SubConfig` pairing the matched path
    with the configuration parsed from it. */
module ConfigReader {
  import opened Basics
  import opened Paths
  import opened ConfigSources
  import ConfigTree

  datatype SubConfig = SubConfig(config: Config, path: Path)

  datatype Config = Config(name: string, tasks: set<ConfigTask>, subConfigs: seq<SubConfig>)

  // ---------------------------------------------------------------------
  // Building the tree

  /** What `parse_config(path_buf)` returns; the file must exist, since the
      source panics when it cannot be read or parsed. */
  function Parse(env: Env, path: Path): (r: Result<Config, ConfigError>)
    requires env.Sound() && path in env.files
    ensures r.Ok? ==> r.value.name == env.files[path].name
    ensures r.Ok? ==> r.value.tasks == TasksOf(env.files[path].tasks)
    ensures Parent(path).None? ==> r == Err(NoParentDirectory)
    decreases env.rank(path), 2, 0
  {
    var file := env.files[path];
    assert env.NodeKnown(path);
    match Parent(path)
    case None => Err(NoParentDirectory)
    case Some(dir) =>
      match ParseDirs(env, path, dir, file.directories)
      case Err(e) => Err(e)
      case Ok(subs) => Ok(Config(file.name, TasksOf(file.tasks), subs))
  }

  function ParseDirs(env: Env, owner: Path, dir: Path, dirs: seq<string>): (r: Result<seq<SubConfig>, ConfigError>)
    requires env.Sound() && env.DirsKnown(owner, dir, dirs)
    decreases env.rank(owner), 1, |dirs|
  {
    if dirs == [] then Ok([])
    else
      var outcome := env.glob(ChildPattern(dir, dirs[0]));
      assert env.GlobKnown(owner, outcome);
      match outcome
      case PatternError(msg) => Err(GlobPatternError(msg))
      case Entries(es) => Chain(ParseMatches(env, owner, es), ParseDirs(env, owner, dir, dirs[1..]))
  }

  function ParseMatches(env: Env, owner: Path, entries: seq<GlobEntry>): (r: Result<seq<SubConfig>, ConfigError>)
    requires env.Sound() && env.MatchesKnown(owner, entries)
    decreases env.rank(owner), 0, |entries|
  {
    if entries == [] then Ok([])
    else if entries[0].Unreadable? then ParseMatches(env, owner, entries[1..])
    else Chain(AsList(entries[0].path, Parse(env, entries[0].path)), ParseMatches(env, owner, entries[1..]))
  }

  /** A single parse outcome, paired with its path, as an outcome of a list. */
  function AsList(path: Path, r: Result<Config, ConfigError>): (l: Result<seq<SubConfig>, ConfigError>)
  {
    if r.Err? then Err(r.error) else Ok([SubConfig(r.value, path)])
  }

  lemma ParseDirsAt(env: Env, owner: Path, dir: Path, dirs: seq<string>, i: nat)
    requires env.Sound() && i < |dirs| && env.DirsKnown(owner, dir, dirs[i..])
    ensures env.GlobKnown(owner, env.glob(ChildPattern(dir, dirs[i])))
    ensures env.DirsKnown(owner, dir, dirs[i + 1..])
    ensures var outcome := env.glob(ChildPattern(dir, dirs[i]));
      ParseDirs(env, owner, dir, dirs[i..]) ==
        if outcome.PatternError? then Err(GlobPatternError(outcome.message))
        else Chain(ParseMatches(env, owner, outcome.entries), ParseDirs(env, owner, dir, dirs[i + 1..]))
  {
    assert dirs[i..][0] == dirs[i] && dirs[i..][1..] == dirs[i + 1..];
    DirsCons(env, owner, dir, dirs[i..]);
  }

  lemma ParseMatchesAt(env: Env, owner: Path, entries: seq<GlobEntry>, k: nat)
    requires env.Sound() && k < |entries| && env.MatchesKnown(owner, entries[k..])
    ensures env.MatchesKnown(owner, entries[k + 1..])
    ensures entries[k].Match? ==> entries[k].path in env.files && env.rank(entries[k].path) < env.rank(owner)
    ensures entries[k].Unreadable? ==>
      ParseMatches(env, owner, entries[k..]) == ParseMatches(env, owner, entries[k + 1..])
    ensures entries[k].Match? ==>
      ParseMatches(env, owner, entries[k..]) ==
        Chain(AsList(entries[k].path, Parse(env, entries[k].path)), ParseMatches(env, owner, entries[k + 1..]))
  {
    assert entries[k..][0] == entries[k] && entries[k..][1..] == entries[k + 1..];
    MatchesTail(env, owner, entries[k..]);
  }

  /** `parse_config`: reads the file, maps its tasks, and for every
      `directories` entry expands the child glob and pushes a `SubConfig`
      for each match, in order. */
  method ParseConfig(env: Env, path: Path) returns (r: Result<Config, ConfigError>)
    requires env.Sound() && path in env.files
    ensures r == Parse(env, path)
    decreases env.rank(path), 1
  {
    var file := env.files[path];
    var name := file.name;
    var tasks := TasksOf(file.tasks);
    var subConfigs: seq<SubConfig> := [];
    var parent := Parent(path);
    if parent.None? {
      return Err(NoParentDirectory);
    }
    var dir := parent.value;
    var dirs := file.directories;
    assert env.NodeKnown(path);
    ghost var whole := ParseDirs(env, path, dir, dirs);
    assert dirs[0..] == dirs;
    ChainNil(whole);
    var i := 0;
    while i < |dirs|
      invariant 0 <= i <= |dirs|
      invariant env.DirsKnown(path, dir, dirs[i..])
      invariant Chain(Ok(subConfigs), ParseDirs(env, path, dir, dirs[i..])) == whole
    {
      ParseDirsAt(env, path, dir, dirs, i);
      var outcome := env.glob(ChildPattern(dir, dirs[i]));
      if outcome.PatternError? {
        return Err(GlobPatternError(outcome.message));
      }
      ghost var later := ParseDirs(env, path, dir, dirs[i + 1..]);
      var pushed := PushMatches(env, path, outcome.entries, subConfigs);
      ChainAssoc(Ok(subConfigs), ParseMatches(env, path, outcome.entries), later);
      if pushed.Err? {
        return Err(pushed.error);
      }
      subConfigs := pushed.value;
      i := i + 1;
    }
    assert dirs[i..] == [];
    assert subConfigs + [] == subConfigs;
    return Ok(Config(name, tasks, subConfigs));
  }

  /** The inner loop over the entries of one glob: each matched path is
      parsed and pushed as a `SubConfig` with that path, unreadable entries
      are skipped, and the first error is returned. */
  method PushMatches(env: Env, owner: Path, entries: seq<GlobEntry>, subConfigs: seq<SubConfig>)
    returns (r: Result<seq<SubConfig>, ConfigError>)
    requires env.Sound() && env.MatchesKnown(owner, entries)
    ensures r == Chain(Ok(subConfigs), ParseMatches(env, owner, entries))
    decreases env.rank(owner), 0
  {
    var pushed := subConfigs;
    assert entries[0..] == entries;
    var k := 0;
    while k < |entries|
      invariant 0 <= k <= |entries|
      invariant env.MatchesKnown(owner, entries[k..])
      invariant Chain(Ok(pushed), ParseMatches(env, owner, entries[k..])) == Chain(Ok(subConfigs), ParseMatches(env, owner, entries))
    {
      ParseMatchesAt(env, owner, entries, k);
      if entries[k].Match? {
        var config := ParseConfig(env, entries[k].path);
        if config.Err? {
          return Err(config.error);
        }
        var sub := SubConfig(config.value, entries[k].path);
        assert AsList(entries[k].path, config) == Ok([sub]);
        ChainOkAssoc(pushed, [sub], ParseMatches(env, owner, entries[k + 1..]));
        pushed := pushed + [sub];
      }
      k := k + 1;
    }
    assert entries[k..] == [];
    assert pushed + [] == pushed;
    return Ok(pushed);
  }

  // ---------------------------------------------------------------------
  // What the tree holds

  ghost predicate AllParse(env: Env, ps: seq<Path>)
    requires env.Sound() && Known(env, ps)
  {
    forall j :: 0 <= j < |ps| ==> Parse(env, ps[j]).Ok?
  }

  /** `subs` pair each path of `ps`, in order, with the configuration parsed
      from exactly that path. */
  ghost predicate ParsedFrom(env: Env, ps: seq<Path>, subs: seq<SubConfig>)
    requires env.Sound() && Known(env, ps)
  {
    |subs| == |ps| && forall j :: 0 <= j < |ps| ==> subs[j].path == ps[j] && Parse(env, ps[j]) == Ok(subs[j].config)
  }

  lemma ParsedAppend(env: Env, ps1: seq<Path>, ps2: seq<Path>, subs1: seq<SubConfig>, subs2: seq<SubConfig>)
    requires env.Sound() && Known(env, ps1) && Known(env, ps2)
    ensures Known(env, ps1 + ps2)
    ensures AllParse(env, ps1 + ps2) <==> AllParse(env, ps1) && AllParse(env, ps2)
    ensures ParsedFrom(env, ps1, subs1) && ParsedFrom(env, ps2, subs2) ==> ParsedFrom(env, ps1 + ps2, subs1 + subs2)
  {
    var ps := ps1 + ps2;
    assert forall j :: 0 <= j < |ps2| ==> ps[|ps1| + j] == ps2[j];
    assert forall j :: 0 <= j < |ps| ==> ps[j] == if j < |ps1| then ps1[j] else ps2[j - |ps1|];
    if ParsedFrom(env, ps1, subs1) && ParsedFrom(env, ps2, subs2) {
      var subs := subs1 + subs2;
      assert forall j :: 0 <= j < |ps| ==> subs[j] == if j < |ps1| then subs1[j] else subs2[j - |ps1|];
    }
  }

  lemma {:induction false} ParseMatchesShape(env: Env, owner: Path, entries: seq<GlobEntry>)
    requires env.Sound() && env.MatchesKnown(owner, entries)
    ensures Known(env, MatchedPaths(entries))
    ensures ParseMatches(env, owner, entries).Ok? <==> AllParse(env, MatchedPaths(entries))
    ensures ParseMatches(env, owner, entries).Ok? ==>
      ParsedFrom(env, MatchedPaths(entries), ParseMatches(env, owner, entries).value)
    decreases |entries|
  {
    if entries != [] {
      MatchesTail(env, owner, entries);
      ParseMatchesShape(env, owner, entries[1..]);
      var rest := MatchedPaths(entries[1..]);
      var restR := ParseMatches(env, owner, entries[1..]);
      if entries[0].Match? {
        var p := entries[0].path;
        assert MatchedPaths(entries) == [p] + rest;
        var hereR := AsList(p, Parse(env, p));
        assert ParseMatches(env, owner, entries) == Chain(hereR, restR);
        assert Known(env, [p]);
        if hereR.Ok? {
          ParsedAppend(env, [p], rest, hereR.value, if restR.Ok? then restR.value else []);
        } else {
          ParsedAppend(env, [p], rest, [], []);
          assert [p][0] == p && !AllParse(env, [p]);
        }
      }
    } else {
      assert MatchedPaths(entries) == [];
    }
  }

  lemma {:induction false} ParseDirsShape(env: Env, owner: Path, dir: Path, dirs: seq<string>)
    requires env.Sound() && env.DirsKnown(owner, dir, dirs)
    ensures Known(env, ChildPaths(env, owner, dir, dirs))
    ensures ParseDirs(env, owner, dir, dirs).Ok? <==>
      PatternsValid(env, dir, dirs) && AllParse(env, ChildPaths(env, owner, dir, dirs))
    ensures ParseDirs(env, owner, dir, dirs).Ok? ==>
      ParsedFrom(env, ChildPaths(env, owner, dir, dirs), ParseDirs(env, owner, dir, dirs).value)
    decreases |dirs|
  {
    if dirs == [] {
      assert ChildPaths(env, owner, dir, dirs) == [];
    } else {
      DirsCons(env, owner, dir, dirs);
      ParseDirsShape(env, owner, dir, dirs[1..]);
      var rest := ChildPaths(env, owner, dir, dirs[1..]);
      var restR := ParseDirs(env, owner, dir, dirs[1..]);
      var outcome := env.glob(ChildPattern(dir, dirs[0]));
      if outcome.Entries? {
        var es := outcome.entries;
        ParseMatchesShape(env, owner, es);
        var here := MatchedPaths(es);
        var hereR := ParseMatches(env, owner, es);
        assert ChildPaths(env, owner, dir, dirs) == here + rest;
        assert ParseDirs(env, owner, dir, dirs) == Chain(hereR, restR);
        ParsedAppend(env, here, rest, if hereR.Ok? then hereR.value else [], if restR.Ok? then restR.value else []);
      }
    }
  }

  /** `parse_config` succeeds exactly when the path has a parent, every
      child pattern is valid and every matched child parses; each
      `SubConfig` then pairs a matched path, in `directories` order and then
      match order, with the configuration parsed from exactly that path. */
  lemma ParseShape(env: Env, path: Path)
    requires env.Sound() && path in env.files
    ensures var ps := Children(env, path);
      && (Parse(env, path).Ok? <==> GlobsValid(env, path) && forall j :: 0 <= j < |ps| ==> Parse(env, ps[j]).Ok?)
      && (Parse(env, path).Ok? ==>
            var subs := Parse(env, path).value.subConfigs;
            |subs| == |ps| && forall j :: 0 <= j < |ps| ==> subs[j].path == ps[j] && Parse(env, ps[j]) == Ok(subs[j].config))
  {
    assert env.NodeKnown(path);
    if Parent(path).Some? {
      var ps := Children(env, path);
      ParseDirsShape(env, path, Parent(path).value, env.files[path].directories);
      if Parse(env, path).Ok? {
        var subs := Parse(env, path).value.subConfigs;
        assert ParsedFrom(env, ps, subs);
      }
    }
  }

  // ---------------------------------------------------------------------
  // The two variants agree

  /** The `config.rs` tree that a `config_reader.rs` tree read from `path`
      stands for: each configuration takes the path it was read from. */
  function ToTree(c: Config, path: Path): (t: ConfigTree.Config)
    decreases c, 1
  {
    ConfigTree.Config(c.name, c.tasks, path, ToTrees(c.subConfigs))
  }

  function ToTrees(subs: seq<SubConfig>): (ts: seq<ConfigTree.Config>)
    decreases subs, 0
  {
    if subs == [] then []
    else
      var s := subs[0];
      assert s in subs && s.config < s;
      [ToTree(s.config, s.path)] + ToTrees(subs[1..])
  }

  function Lift(r: Result<seq<SubConfig>, ConfigError>): (l: Result<seq<ConfigTree.Config>, ConfigError>)
  {
    if r.Err? then Err(r.error) else Ok(ToTrees(r.value))
  }

  lemma {:induction false} ToTreesAppend(a: seq<SubConfig>, b: seq<SubConfig>)
    ensures ToTrees(a + b) == ToTrees(a) + ToTrees(b)
    decreases |a|
  {
    if a == [] {
      assert a + b == b;
    } else {
      assert (a + b)[0] == a[0] && (a + b)[1..] == a[1..] + b;
      ToTreesAppend(a[1..], b);
    }
  }

  lemma LiftChain(a: Result<seq<SubConfig>, ConfigError>, b: Result<seq<SubConfig>, ConfigError>)
    ensures Lift(Chain(a, b)) == Chain(Lift(a), Lift(b))
  {
    if a.Ok? && b.Ok? {
      ToTreesAppend(a.value, b.value);
    }
  }

  /** The two `parse_config` functions build the same tree: they fail on
      the same inputs with the same error, and otherwise the `config.rs`
      tree is the `config_reader.rs` tree with every configuration carrying
      the path that its `SubConfig` records. */
  lemma {:induction false} VariantsAgree(env: Env, path: Path)
    requires env.Sound() && path in env.files
    ensures var r := Parse(env, path);
      ConfigTree.Parse(env, path) == if r.Err? then Err(r.error) else Ok(ToTree(r.value, path))
    decreases env.rank(path), 2, 0
  {
    assert env.NodeKnown(path);
    if Parent(path).Some? {
      VariantsAgreeDirs(env, path, Parent(path).value, env.files[path].directories);
    }
  }

  lemma {:induction false} VariantsAgreeDirs(env: Env, owner: Path, dir: Path, dirs: seq<string>)
    requires env.Sound() && env.DirsKnown(owner, dir, dirs)
    ensures ConfigTree.ParseDirs(env, owner, dir, dirs) == Lift(ParseDirs(env, owner, dir, dirs))
    decreases env.rank(owner), 1, |dirs|
  {
    if dirs != [] {
      DirsCons(env, owner, dir, dirs);
      var outcome := env.glob(ChildPattern(dir, dirs[0]));
      VariantsAgreeDirs(env, owner, dir, dirs[1..]);
      if outcome.Entries? {
        VariantsAgreeMatches(env, owner, outcome.entries);
        LiftChain(ParseMatches(env, owner, outcome.entries), ParseDirs(env, owner, dir, dirs[1..]));
      }
    }
  }

  lemma {:induction false} VariantsAgreeMatches(env: Env, owner: Path, entries: seq<GlobEntry>)
    requires env.Sound() && env.MatchesKnown(owner, entries)
    ensures ConfigTree.ParseMatches(env, owner, entries) == Lift(ParseMatches(env, owner, entries))
    decreases env.rank(owner), 0, |entries|
  {
    if entries != [] {
      MatchesTail(env, owner, entries);
      VariantsAgreeMatches(env, owner, entries[1..]);
      if entries[0].Match? {
        var p := entries[0].path;
        VariantsAgree(env, p);
        var here := AsList(p, Parse(env, p));
        if here.Ok? {
          assert ToTrees(here.value) == [ToTree(Parse(env, p).value, p)];
        }
        assert ConfigTree.AsList(ConfigTree.Parse(env, p)) == Lift(here);
        LiftChain(here, ParseMatches(env, owner, entries[1..]));
      }
    }
  }

  /** `parse_config` of `config_reader.rs` fails with "Failed to get parent
      directory" when the path has no parent, and otherwise with the error of
      the first failing `directories` entry: a glob pattern error, or the
      error of the first matched child that fails. Child failures are stated
      through the `config.rs` parser, which by `VariantsAgree` fails on the
      same paths with the same errors. */
  lemma ParseError(env: Env, path: Path)
    requires env.Sound() && path in env.files
    ensures Parent(path).None? ==> Parse(env, path) == Err(NoParentDirectory)
    ensures Parse(env, path).Err? && Parent(path).Some? ==>
      exists i: nat :: ConfigTree.FailsFirstAt(env, path, i, Parse(env, path).error)
  {
    VariantsAgree(env, path);
    ConfigTree.ParseError(env, path);
  }
}
