/** Rust's `PathBuf` as the Unix component view that `push`, `parent` and
    `ends_with` work on. A path is a flag for the leading root plus its
    component sequence; empty components and `.` components after the first
    are dropped, as Rust's `Path::components` drops them. */
module Paths {
  import opened Basics

  datatype Path = Path(absolute: bool, comps: seq<string>)

  /** `DEFAULT_FILENAME`, and the single-component paths that the source
      builds from the literals `"rask.yaml"` and `".yaml"`. */
  const DefaultFileName: string := "rask.yaml"
  const DefaultFile: Path := Path(false, [DefaultFileName])
  const YamlSuffix: Path := Path(false, [".yaml"])

  /** The text of `s` cut at every `/`; empty pieces are kept here. */
  function Segments(s: string): (r: seq<string>)
    ensures |r| >= 1
    ensures forall i :: 0 <= i < |r| ==> '/' !in r[i]
  {
    if s == [] then [""]
    else
      var rest := Segments(s[1..]);
      if s[0] == '/' then [""] + rest
      else [[s[0]] + rest[0]] + rest[1..]
  }

  /** The inverse of `Segments`: the pieces glued back with `/`. */
  function Join(segs: seq<string>): (s: string)
    requires |segs| >= 1
  {
    if |segs| == 1 then segs[0] else segs[0] + "/" + Join(segs[1..])
  }

  lemma {:induction false} JoinSegments(s: string)
    ensures Join(Segments(s)) == s
  {
    if s != [] {
      var rest := Segments(s[1..]);
      JoinSegments(s[1..]);
      if s[0] == '/' {
        assert Segments(s) == [""] + rest;
        assert ([""] + rest)[1..] == rest;
      } else {
        var head := [s[0]] + rest[0];
        assert Segments(s) == [head] + rest[1..];
        if |rest| == 1 {
          assert Join(rest) == rest[0];
        } else {
          assert ([head] + rest[1..])[1..] == rest[1..];
          assert Join(rest) == rest[0] + "/" + Join(rest[1..]);
          assert head + "/" + Join(rest[1..]) == [s[0]] + (rest[0] + "/" + Join(rest[1..]));
        }
        assert s == [s[0]] + s[1..];
      }
    }
  }

  /** A piece with no `/` in it is cut nowhere. */
  lemma {:induction false} SegmentsPlain(a: string)
    requires '/' !in a
    ensures Segments(a) == [a]
  {
    if a != [] {
      SegmentsPlain(a[1..]);
      assert a == [a[0]] + a[1..];
    }
  }

  /** A piece with no `/` followed by `/` becomes the first segment. */
  lemma {:induction false} SegmentsCons(a: string, t: string)
    requires '/' !in a
    ensures Segments(a + "/" + t) == [a] + Segments(t)
  {
    if a == [] {
      assert a + "/" + t == ['/'] + t;
      assert (['/'] + t)[1..] == t;
    } else {
      assert (a + "/" + t)[1..] == a[1..] + "/" + t;
      assert (a + "/" + t)[0] == a[0];
      SegmentsCons(a[1..], t);
      assert a == [a[0]] + a[1..];
    }
  }

  lemma {:induction false} SegmentsJoin(segs: seq<string>)
    requires |segs| >= 1
    requires forall i :: 0 <= i < |segs| ==> '/' !in segs[i]
    ensures Segments(Join(segs)) == segs
  {
    if |segs| == 1 {
      SegmentsPlain(segs[0]);
    } else {
      SegmentsJoin(segs[1..]);
      SegmentsCons(segs[0], Join(segs[1..]));
      assert segs == [segs[0]] + segs[1..];
    }
  }

  /** The segments that are real components: empty ones (repeated or
      trailing separators) and `.` ones vanish. */
  function Normal(segs: seq<string>): (r: seq<string>)
    ensures forall i :: 0 <= i < |r| ==> r[i] != "" && r[i] != "."
    ensures forall i :: 0 <= i < |r| ==> r[i] in segs
    ensures |r| <= |segs|
  {
    if segs == [] then []
    else if segs[0] == "" || segs[0] == "." then Normal(segs[1..])
    else [segs[0]] + Normal(segs[1..])
  }

  /** `Path::new(s)` seen through its components: a leading `/` is the root,
      a leading `.` of a relative path is kept as the current directory. */
  function ParsePath(s: string): (p: Path)
    ensures p.absolute <==> |s| > 0 && s[0] == '/'
    ensures forall i :: 0 <= i < |p.comps| ==> p.comps[i] != "" && '/' !in p.comps[i]
    ensures forall i :: 0 < i < |p.comps| ==> p.comps[i] != "."
  {
    var segs := Segments(s);
    if |s| > 0 && s[0] == '/' then Path(true, Normal(segs[1..]))
    else if segs[0] == "." then Path(false, ["."] + Normal(segs[1..]))
    else Path(false, Normal(segs))
  }

  /** `PathBuf::push`: an absolute argument replaces the whole path,
      a relative one is appended (its leading `.` disappears once it
      follows something). */
  function Push(p: Path, q: Path): (r: Path)
  {
    if q.absolute then q
    else
      var tail := if (p.absolute || p.comps != []) && q.comps != [] && q.comps[0] == "."
                  then q.comps[1..] else q.comps;
      Path(p.absolute, p.comps + tail)
  }

  /** `Path::parent`: the path without its last component; a bare root
      and the empty path have none. */
  function Parent(p: Path): (r: Option<Path>)
  {
    if p.comps == [] then None
    else Some(Path(p.absolute, p.comps[..|p.comps| - 1]))
  }

  /** `Path::ends_with`: whole components are compared from the back;
      an absolute suffix must match the whole path. */
  predicate EndsWith(p: Path, suffix: Path)
  {
    if suffix.absolute then p == suffix
    else |suffix.comps| <= |p.comps| && p.comps[|p.comps| - |suffix.comps|..] == suffix.comps
  }

  predicate LastIs(p: Path, name: string)
  {
    p.comps != [] && p.comps[|p.comps| - 1] == name
  }

  /** Pushing one plain file name and taking the parent gives the path back. */
  lemma PushParent(p: Path, name: string)
    requires name != "" && name != "." && '/' !in name
    ensures Push(p, Path(false, [name])) == Path(p.absolute, p.comps + [name])
    ensures Parent(Push(p, Path(false, [name]))) == Some(p)
  {
    assert (p.comps + [name])[..|p.comps|] == p.comps;
  }

  /** `p.ends_with(".yaml")` holds exactly when the last component is the
      literal `.yaml`: a component such as `x.yaml` or `rask.yaml` does not
      count, although its text ends with `.yaml`. */
  lemma {:induction false} EndsWithYaml(p: Path)
    ensures EndsWith(p, YamlSuffix) <==> LastIs(p, ".yaml")
  {
    if |p.comps| >= 1 {
      assert p.comps[|p.comps| - 1..] == [p.comps[|p.comps| - 1]];
    }
  }

  /** The literals the source pushes have the components used above. */
  lemma LiteralPaths()
    ensures ParsePath(DefaultFileName) == DefaultFile
    ensures ParsePath(".yaml") == YamlSuffix
  {
    SegmentsPlain(DefaultFileName);
    SegmentsPlain(".yaml");
    assert Normal([DefaultFileName]) == [DefaultFileName];
    assert Normal([".yaml"]) == [".yaml"];
  }

  /** The glob pattern for one `directories` entry: the entry pushed onto
      the configuration's directory, then `rask.yaml` pushed unless the
      pattern ends with the component `.yaml`. */
  function ChildPattern(dir: Path, entry: string): (pat: Path)
    ensures var joined := Push(dir, ParsePath(entry));
      && pat.absolute == joined.absolute
      && (LastIs(joined, ".yaml") ==> pat.comps == joined.comps)
      && (!LastIs(joined, ".yaml") ==> pat.comps == joined.comps + [DefaultFileName])
  {
    var joined := Push(dir, ParsePath(entry));
    EndsWithYaml(joined);
    if EndsWith(joined, YamlSuffix) then joined else Push(joined, DefaultFile)
  }

  /** A relative entry keeps the configuration's directory as a prefix of
      the pattern, and the pattern always ends in a `.yaml` component or in
      `rask.yaml`. */
  lemma ChildPatternUnderDir(dir: Path, entry: string)
    requires |entry| == 0 || entry[0] != '/'
    ensures var pat := ChildPattern(dir, entry);
      && pat.absolute == dir.absolute
      && |dir.comps| <= |pat.comps|
      && pat.comps[..|dir.comps|] == dir.comps
      && (LastIs(pat, ".yaml") || LastIs(pat, DefaultFileName))
  {
    var joined := Push(dir, ParsePath(entry));
    assert joined.comps[..|dir.comps|] == dir.comps;
  }

  lemma {:induction false} NormalKeeps(segs: seq<string>)
    requires forall i :: 0 <= i < |segs| ==> segs[i] != "" && segs[i] != "."
    ensures Normal(segs) == segs
  {
    if segs != [] {
      NormalKeeps(segs[1..]);
      assert segs == [segs[0]] + segs[1..];
    }
  }

  /** A relative path written as plain names joined by `/` has exactly
      those names as components. */
  lemma {:induction false} ParsePlainPath(segs: seq<string>)
    requires |segs| >= 1
    requires forall i :: 0 <= i < |segs| ==> segs[i] != "" && segs[i] != "." && '/' !in segs[i]
    ensures ParsePath(Join(segs)) == Path(false, segs)
  {
    var s := Join(segs);
    SegmentsJoin(segs);
    NormalKeeps(segs);
    assert |s| > 0 && s[0] != '/' by {
      JoinHead(segs);
    }
  }

  lemma {:induction false} JoinHead(segs: seq<string>)
    requires |segs| >= 1 && segs[0] != "" && '/' !in segs[0]
    ensures |Join(segs)| > 0 && Join(segs)[0] == segs[0][0]
  {
    if |segs| > 1 {
      assert Join(segs) == segs[0] + ("/" + Join(segs[1..]));
    }
  }

  /** An entry naming the configuration file itself, `<a>/<b>/rask.yaml`
      (say `packages` and a star), still gets `rask.yaml` pushed although its
      text ends with `.yaml`: the glob looks for a `rask.yaml` inside a
      directory called `rask.yaml`. */
  lemma {:induction false} FileEntryGetsDefaultAppended(dir: Path, a: string, b: string)
    requires a != "" && a != "." && '/' !in a
    requires b != "" && b != "." && '/' !in b
    ensures ChildPattern(dir, Join([a, b, DefaultFileName])).comps
         == dir.comps + [a, b, DefaultFileName, DefaultFileName]
  {
    var segs := [a, b, DefaultFileName];
    ParsePlainPath(segs);
    var joined := Push(dir, Path(false, segs));
    assert joined.comps == dir.comps + segs;
    assert !LastIs(joined, ".yaml");
  }
}
