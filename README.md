# Rask configuration trees in Dafny

Rask runs tasks declared in `rask.yaml` files. A configuration file has a
`name`, a `tasks` mapping from tag to shell command and a list of
`directories`. Each directory entry is a glob relative to the file's own
directory, and its matches are child configuration files. This project
models the parts of Rask that deal with these files:

- **Resolving the target.** `resolve_configuration_file` turns a command-line
  target into the file to read. A directory target means the `rask.yaml` inside it.
- **Building the tree.** `parse_config` comes in two variants: `config.rs`,
  where each configuration carries its path, and `config_reader.rs`, where
  each child is a `SubConfig` pairing the matched path with the parsed
  configuration. For every `directories` entry the pattern is built as the
  entry pushed onto the parent directory, followed by `rask.yaml` unless the
  path ends with `.yaml`. Every readable glob match is parsed recursively and
  the first error stops the walk.
- **Walking and validating.** `ConfigIterator` walks a tree parent first with
  an explicit stack. `validate_config` rejects the first configuration whose
  name was already seen.

Modules:

- `Basics`: `Option`, `Result`, and `Chain`, the first-error-wins
  concatenation that a push loop with `?` computes.
- `Paths`: Rust paths as components (`push`, `parent`, `ends_with`), plus
  the construction of the child glob pattern.
- `ConfigSources`: the YAML record, glob outcomes, errors, the environment
  and the task set.
- `ConfigTree`: `config.rs`. `Parse` is the recursive specification, and
  `ParseConfig` is the loop implementation proved equal to it. It also has
  the iterator class, the pre-order walk and `ValidateConfig`.
- `ConfigReader`: `config_reader.rs`, with the same structure. It also
  proves that both variants fail on the same inputs and otherwise build the
  same tree.
- `FileResolvers`: `resolve_configuration_file`.

`ends_with(".yaml")` in Rust compares whole path components, not text. So
the check holds only when the last component is literally `.yaml`. An entry
such as `packages/*/rask.yaml` therefore still gets `rask.yaml` appended.
The model keeps this behaviour as written, and
`Paths.FileEntryGetsDefaultAppended` states it.

## Model

| member | source | states |
|---|---|---|
| Basics.ChainAssoc | src/utils/config.rs:100-113 | combining the outcomes of consecutive directory entries does not depend on grouping |
| Paths.JoinSegments | src/utils/config.rs:102 | cutting a path text at `/` and gluing the pieces back gives the same text |
| Paths.SegmentsJoin | src/utils/config.rs:102 | gluing `/`-free pieces and cutting again gives the same pieces |
| Paths.ParsePath | src/utils/config.rs:102 | a path is absolute exactly when its text starts with `/`; components are non-empty and have no `/`; `.` can only come first |
| Paths.ParsePlainPath | src/utils/config.rs:102 | `a/b/c` written from plain names has exactly those components |
| Paths.PushParent | src/utils/file_resolvers.rs:14-16 | pushing one plain name appends it as a component, and its parent is the original path |
| Paths.EndsWithYaml | src/utils/config.rs:103 | `ends_with(".yaml")` holds exactly when the last component is literally `.yaml` |
| Paths.LiteralPaths | src/utils/config.rs:103-104 | the literals `rask.yaml` and `.yaml` are single-component relative paths |
| Paths.ChildPattern | src/utils/config.rs:101-105 | the pattern is the entry pushed onto the directory, with `rask.yaml` appended exactly when the last component is not `.yaml` |
| Paths.ChildPatternUnderDir | src/utils/config.rs:101-105 | a relative entry keeps the directory as a prefix, and the pattern ends in `.yaml` or `rask.yaml` |
| Paths.FileEntryGetsDefaultAppended | src/utils/config.rs:103-104 | an entry `a/b/rask.yaml` gets a second `rask.yaml` component |
| ConfigSources.TasksOf | src/utils/config.rs:91-94 | a task is present exactly when its tag is a key of the mapping and its command is that key's value |
| ConfigSources.TaskCount | src/utils/config.rs:91-94 | one task per mapping entry: none lost, none doubled |
| ConfigSources.MatchedPaths | src/utils/config.rs:107-108 | every kept path is a match of the glob, and every match is kept |
| ConfigSources.MatchedPathsAppend | src/utils/config.rs:107-108 | filtering goes entry by entry in order: a match contributes its path, an unreadable entry nothing |
| ConfigSources.ChildPaths | src/utils/config.rs:100-113 | every path the globs of the entries match is a readable file ranked below the owner |
| ConfigSources.Children | src/utils/config.rs:98-113 | every path the child globs of a configuration match is a readable file ranked below it |
| ConfigSources.DirsCons | src/utils/config.rs:100 | splitting off the first directory entry keeps the facts about the rest; patterns are all valid exactly when the first one and the rest are |
| ConfigSources.MatchesTail | src/utils/config.rs:107-108 | splitting off the first glob entry keeps the facts about the rest |
| ConfigTree.Parse | src/utils/config.rs:86-118 | a parsed configuration has the file's name, its path, and the task set of its mapping; a path without a parent fails with the parent-directory error |
| ConfigTree.ParseDirsAt | src/utils/config.rs:100-107 | one step of the directory loop: an invalid pattern fails, otherwise the matches come before the remaining entries |
| ConfigTree.ParseMatchesAt | src/utils/config.rs:107-111 | one step of the match loop: an unreadable entry is skipped, a match is parsed and pushed |
| ConfigTree.ParseConfig | src/utils/config.rs:86-118 | the loop implementation returns exactly the recursive specification's outcome |
| ConfigTree.PushMatches | src/utils/config.rs:107-112 | the inner loop pushes the parse of each match after what was already pushed, or returns the first error |
| ConfigTree.ParsedAppend | src/utils/config.rs:110 | pushing two runs of parsed children one after the other keeps each child paired with its path |
| ConfigTree.ParseMatchesShape | src/utils/config.rs:107-112 | a glob's matches parse without error exactly when each match parses; the children are those parses in match order |
| ConfigTree.ParseDirsShape | src/utils/config.rs:100-113 | all entries succeed exactly when every pattern is valid and every match parses; the children follow `directories` order, then match order |
| ConfigTree.ParseShape | src/utils/config.rs:86-118 | parsing succeeds exactly when there is a parent, every pattern is valid and every child parses; then child `j` is the parse of the `j`-th matched path |
| ConfigTree.ParseMatchesError | src/utils/config.rs:107-111 | a failing glob returns the error of its first matched path whose parse fails, after all earlier matches parsed |
| ConfigTree.ParseDirsError | src/utils/config.rs:100-113 | a failing `directories` walk returns the error of the first failing entry: its glob pattern error, or its first failing match, after every earlier entry's pattern was valid and its matches parsed |
| ConfigTree.FirstFailingEntryCons | src/utils/config.rs:100-113 | an entry whose pattern is valid and whose matches all parse passes the first failure on to the entries after it |
| ConfigTree.ClearPrefixCons | src/utils/config.rs:100-113 | a first entry with a valid pattern whose matches all parse, followed by entries with valid patterns whose matches all parse, gives such a run of entries |
| ConfigTree.ParseError | src/utils/config.rs:86-118 | `parse_config` fails with the parent-directory error when there is no parent, and otherwise with the error of the first failing `directories` entry |
| ConfigTree.Preorder | src/utils/config.rs:71-77 | the walk starts with the root |
| ConfigTree.PreorderSize | src/utils/config.rs:71-77 | the walk yields every configuration of the tree once: its length is the tree's size |
| ConfigTree.PreorderForestSize | src/utils/config.rs:74 | the walk of a list of trees has the sum of their sizes |
| ConfigTree.PreorderForestAppend | src/utils/config.rs:74 | walking two lists of trees in a row is walking their concatenation |
| ConfigTree.ChildWalkInParentWalk | src/utils/config.rs:71-77 | each child's whole walk sits contiguously in its parent's walk, after the parent and the earlier siblings |
| ConfigTree.Reversed | src/utils/config.rs:74 | the result has the same length, and element `i` is element `n - 1 - i` of the input |
| ConfigTree.PendingPushReversed | src/utils/config.rs:74 | pushing children reversed makes the stack owe their walks in declared order before what it owed below |
| ConfigTree.PendingEmpty | src/utils/config.rs:72 | the stack owes nothing exactly when it is empty |
| ConfigTree.ConfigIterator.constructor | src/utils/config.rs:61-65 | a new iterator holds only the root and owes the whole pre-order walk |
| ConfigTree.ConfigIterator.Next | src/utils/config.rs:71-77 | pops the top and pushes its children reversed; yields `None` exactly when nothing is owed, otherwise the first owed configuration |
| ConfigTree.Iter | src/utils/config.rs:80-84 | a fresh iterator over the tree owes its whole walk |
| ConfigTree.RepeatSpoilsLongerPrefix | src/utils/config.rs:14-16 | once a name repeats, no longer prefix of the walk is free of repeats |
| ConfigTree.FirstRepeatUnique | src/utils/config.rs:14-16 | the first repeated name is at one position only, so the reported error is determined |
| ConfigTree.ValidateConfig | src/utils/config.rs:8-22 | `Ok(true)` exactly when the names along the walk are distinct; otherwise the name and path of the first repeated configuration |
| ConfigReader.Parse | src/utils/config_reader.rs:46-81 | a parsed configuration has the file's name and the task set of its mapping; a path without a parent fails with the parent-directory error |
| ConfigReader.ParseDirsAt | src/utils/config_reader.rs:60-67 | one step of the directory loop |
| ConfigReader.ParseMatchesAt | src/utils/config_reader.rs:67-74 | one step of the match loop |
| ConfigReader.ParseConfig | src/utils/config_reader.rs:46-81 | the loop implementation returns exactly the recursive specification's outcome |
| ConfigReader.PushMatches | src/utils/config_reader.rs:67-75 | the inner loop pushes a `SubConfig` for each match after what was already pushed, or returns the first error |
| ConfigReader.ParsedAppend | src/utils/config_reader.rs:73 | pushing two runs of `SubConfig`s one after the other keeps each paired with its path |
| ConfigReader.ParseMatchesShape | src/utils/config_reader.rs:67-75 | a glob's matches succeed exactly when each match parses; each `SubConfig` records its match and that match's parse |
| ConfigReader.ParseDirsShape | src/utils/config_reader.rs:60-76 | all entries succeed exactly when every pattern is valid and every match parses; the `SubConfig`s are in order |
| ConfigReader.ParseShape | src/utils/config_reader.rs:46-81 | success exactly when there is a parent, every pattern is valid and every child parses; `SubConfig` `j` holds the `j`-th matched path and its parse |
| ConfigReader.ToTreesAppend | src/utils/config_reader.rs:73 | converting two runs of `SubConfig`s is converting their concatenation |
| ConfigReader.LiftChain | src/utils/config_reader.rs:67-75 | conversion commutes with first-error-wins concatenation |
| ConfigReader.VariantsAgree | src/utils/config_reader.rs:46-81 | both `parse_config` variants fail with the same error; otherwise the `config.rs` tree is the reader's tree, with each configuration taking the path its `SubConfig` records |
| ConfigReader.VariantsAgreeDirs | src/utils/config_reader.rs:60-76 | the variants agree on the children of a list of directory entries |
| ConfigReader.ParseError | src/utils/config_reader.rs:46-81 | fails with the parent-directory error when there is no parent, and otherwise with the error of the first failing `directories` entry (a glob pattern error, or the first failing match's error) |
| ConfigReader.VariantsAgreeMatches | src/utils/config_reader.rs:67-75 | the variants agree on the children of one glob |
| FileResolvers.Candidate | src/utils/file_resolvers.rs:14-16 | a directory target resolves to its `rask.yaml`, whose parent is the target; any other target stays as it is |
| FileResolvers.ResolveConfigurationFile | src/utils/file_resolvers.rs:6-23 | a target whose text cannot be canonicalised fails with the target as typed; otherwise the candidate file is returned if it exists and reported missing if not; a returned file always exists |
| FileResolvers.CandidateInTarget | src/utils/file_resolvers.rs:14-16 | unless the target already ends in `rask.yaml`, the result's parent is the target, and its last component is `rask.yaml`, exactly when the target is a directory |

## Left out

- Reading and parsing YAML (`read_config_file`) is left out. The file at
  each path is an entry of `Env.files`. Where the source reaches a missing
  file or malformed YAML it panics (`expect`) rather than returning an
  error, so the model demands readable files instead of modelling a panic.
- Glob expansion is left out. `Env.glob` gives, for each pattern, a pattern
  error or the entries in match order. Glob syntax and directory listing are
  not modelled.
- Paths.ChildPattern: `Env.glob` receives the pattern as components, while
  the source passes the pattern's text (`pattern.to_str()`). Two patterns
  whose texts differ only by `.` segments or a trailing `/` are therefore the
  same pattern to the model, although a glob on the text may treat them
  differently (a trailing `/` matches only directories).
- Canonicalisation, `is_dir` and `exists` are the three functions of
  `FileSystem`. `canonicalize` receives the target's text as typed, so a
  trailing `/` after a file can make it fail. Symbolic links and the working
  directory are not modelled.
- Error messages are structured values (`ConfigError`, `ResolveError`), not
  formatted strings.
- Task order is not modelled. Tasks come from a `HashMap`, whose iteration
  order is unspecified, so they are a set.
- ConfigTree.Parse and ConfigReader.Parse: termination rests on
  `Env.rank`, which every glob match has below its parent (`Env.Sound`).
  The source has no cycle guard: a glob graph with a cycle makes it recurse
  without end, and the model does not describe that case.
- ConfigTree.Parse and ConfigReader.Parse: `Env.Sound` asks that every
  match of every glob of every known file be a readable file ranked below
  it, including matches the source never opens because an earlier error
  has already returned `Err`. Runs where an `Err` masks a later unreadable
  file or a later cycle are therefore not described: for instance a root
  whose first entry is an invalid pattern and whose second entry matches an
  unreadable file, for which the source returns the pattern error.
- ConfigTree.ParseConfig and ConfigReader.ParseConfig: the inner loop over
  glob entries is the separate method `PushMatches`. It receives the vector
  pushed so far and returns it extended, not mutated in place.
- `pattern.to_str().unwrap()` panics on a path that is not UTF-8. Paths here
  are strings, so that case does not arise.
- Paths.ParsePath: `..` components are kept as plain components (as Rust's
  `components()` keeps them) and a Windows prefix is not recognised; only
  Unix paths are modelled.
- ConfigTree.ConfigIterator.Next: children are values (`clone` has no
  observable effect), so sharing between the stack and the yielded
  configuration is not modelled.
- Command execution and the command-line front end are not part of this
  model: `src/utils/tasks.rs`, `src/utils/file.rs`, `src/main.rs` and the
  commands under `src/commands/`.
