# Ignore rules of a directory-dump script, in Dafny

`scan_file.py` walks a directory tree and writes every file it keeps into one
text report. Which paths it skips is decided by a small ignore engine:

- `load_gitignore_patterns` turns the lines of the root's `.gitignore` into
  an ordered list of patterns. Each line is stripped. Blank lines and `#`
  comments are dropped.
- `fnmatch_path` is a substring/suffix heuristic that stands in for glob
  matching. It turns `\` into `/`, cuts a leading `*/` or `**/`, and then
  tests equality, suffix and substring. `*` is otherwise an ordinary
  character.
- `should_ignore` decides one path. A failing `relpath` keeps the path (it
  fails open). A `.git` component of the absolute path ignores it. The root
  itself (`.`) is kept. Otherwise the first matching pattern ignores it. A
  pattern ending in `/` matches only directories, at the pattern itself or
  below it. Any other pattern goes to `fnmatch_path` with the relative path
  and with the base name.
- At every directory, `scan_directory_simple` removes the ignored
  subdirectories from the walk's list before descending. It skips the
  ignored files. It counts kept files in `file_count`, and both pruned
  directories and skipped files in `ignored_count`.

The model has five modules, one file each:

- `wrappers.dfy` (`Wrappers`): `Option`.
- `pystrings.dfy` (`PyStrings`): the Python string operations the engine
  uses. These are `startswith`, `endswith`, `in`, `replace('\\', '/')`,
  `strip()` (with the full `str.isspace` set) and `rstrip('/')`.
- `matcher.dfy` (`IgnoreMatcher`): `fnmatch_path` as the function
  `FnmatchPath`, and `should_ignore` in two forms. `Ignored` is the
  decision as a predicate. `ShouldIgnore` is the source's loop, proved equal
  to it.
- `loader.dfy` (`PatternLoader`): the line filtering of
  `load_gitignore_patterns`. `ParsePatterns` is the specification and
  `LoadPatterns` is the loop.
- `scan.dfy` (`DirectoryScan`): the per-directory prune and count step of
  `scan_directory_simple`. It has three loops: collect the ignored
  directories, `dirs.remove` each one, then go through the files.

The filesystem queries are inputs. `PathQuery` carries four of them:

- the result of `os.path.relpath` (`None` when it raises);
- `Path(path).parts`;
- `os.path.basename(path)`;
- `os.path.isdir(path)`.

The separator is `/`. Every function is deterministic, so calling the
decision twice on the same inputs gives the same answer.

Three things the code does that are easy to misread:

- The `.git` test looks at the components of the path as given (absolute),
  not only at the part below the root. `relpath` runs before it, so a failing
  `relpath` keeps even a `.git` path.
- A read error while `.gitignore` is being read keeps the patterns collected
  before it. The file is not treated as empty.
- The relative path is not backslash-normalised for directory-only
  patterns. Only `fnmatch_path` normalises.

## Model

| member | source | states |
|---|---|---|
| `PyStrings.StartsWith` | scan_file.py:63-66 | `s.startswith(p)`: `s` begins with `p`; used by `GlobTail`, `Ignored` and `ParsePatterns`, whose lemmas state what follows from it |
| `PyStrings.EndsWith` | scan_file.py:43 | `s.endswith(p)`: `s` ends with `p`; `SuffixContained` and `SuffixOfSuffix` state its consequences |
| `PyStrings.Contains` | scan_file.py:65-70 | `t in s`: `t` occurs at some position of `s`; `PrefixContained`, `SuffixContained` and `ContainsMiddle` state when it holds |
| `PyStrings.LStrip` | scan_file.py:14 | `lstrip()`, characterised by `LStripSpec` |
| `PyStrings.RStrip` | scan_file.py:14 | `rstrip()`, characterised by `RStripSpec` |
| `PyStrings.Strip` | scan_file.py:14 | `strip()`, characterised by `StripSpec`, `StripIsStripped` and `StripStripped` |
| `PyStrings.LStripSpec` | scan_file.py:14 | `lstrip()` returns a suffix whose first character is not whitespace, and everything it drops is whitespace |
| `PyStrings.RStripSpec` | scan_file.py:14 | `rstrip()` returns a prefix whose last character is not whitespace, and everything it drops is whitespace |
| `PyStrings.StripSpec` | scan_file.py:14 | `strip()` keeps exactly a block `s[i..j]` with only whitespace before `i` and from `j` on |
| `PyStrings.StripIsStripped` | scan_file.py:14 | neither end of a stripped line is whitespace |
| `PyStrings.StripStripped` | scan_file.py:14 | stripping an already stripped string changes nothing |
| `PyStrings.RStripSlashes` | scan_file.py:44 | `rstrip('/')` returns a prefix that does not end in `/`, and drops only `/` characters |
| `PyStrings.SlashBackslashes` | scan_file.py:60-61 | `replace('\\', '/')` keeps the length and turns each backslash, and only a backslash, into `/` |
| `PyStrings.SlashBackslashesIdempotent` | scan_file.py:60-61 | after normalisation no backslash is left, so normalising again is a no-op |
| `PyStrings.SlashFree` | scan_file.py:60-61 | a string without backslashes is left unchanged by normalisation |
| `PyStrings.ContainsMiddle` | scan_file.py:65 | `t in a + t + b` holds |
| `IgnoreMatcher.FnmatchPath` | scan_file.py:58-70 | `fnmatch_path` branch for branch; `FnmatchPathIsContainment` proves it is one substring test on the normalised pattern less `*/` or `**/` |
| `IgnoreMatcher.GlobTail` | scan_file.py:63-68 | the searched-for part is a suffix of the pattern: 2 characters shorter after `*/`, 3 after `**/` (tested second), the pattern itself otherwise |
| `IgnoreMatcher.GlobTailPlain` | scan_file.py:69-70 | a pattern not starting with `*` is searched for unchanged |
| `IgnoreMatcher.FnmatchPathIsContainment` | scan_file.py:58-70 | `fnmatch_path` holds iff the normalised pattern, less a leading `*/` or `**/`, occurs in the normalised candidate; the `==` and `endswith` tests add nothing |
| `IgnoreMatcher.SingleStarMatchesSubstring` | scan_file.py:63-65 | without backslashes, `*/x` matches exactly the candidates that contain `x` |
| `IgnoreMatcher.DoubleStarMatchesSubstring` | scan_file.py:66-68 | without backslashes, `**/x` matches exactly the candidates that contain `x` |
| `IgnoreMatcher.StarIsLiteral` | scan_file.py:58-70 | there is no wildcard expansion: `*.tmp` does not match `a.tmp` |
| `IgnoreMatcher.SubstringFallback` | scan_file.py:70 | the fallback is over-broad: `log` matches `src/catalog.txt` |
| `IgnoreMatcher.BarePrefixMatchesEverything` | scan_file.py:63-68 | `*/` and `**/` reduce to the empty pattern and match every candidate |
| `IgnoreMatcher.DoubleStarBranch` | scan_file.py:63-68 | `**/x` is handled by the `**/` branch: three characters are cut, leaving `x` |
| `IgnoreMatcher.SingleStarExample` | scan_file.py:63-65 | `*/cache` matches `a/b/cache` |
| `IgnoreMatcher.DoubleStarExample` | scan_file.py:66-68 | `**/node_modules` matches `a/b/node_modules/x.js`, and any backslash-free path containing `node_modules` |
| `IgnoreMatcher.PatternMatches` | scan_file.py:38-51 | one pattern's test: empty skipped, trailing `/` for directories only, else `fnmatch_path` on relative path or base name; `EmptyPatternSkipped`, `DirPatternSkipsFiles`, `DirPatternMatchesDirectory` and `DirPatternNoFallthrough` characterise it |
| `IgnoreMatcher.Ignored` | scan_file.py:22-56 | the decision of `should_ignore`; `ShouldIgnore` is proved equal to it and `FailOpen`, `GitComponentAlwaysIgnored`, `RootNeverIgnored`, `IgnoredByPatterns`, `OrderIrrelevant` and `AppendMonotone` characterise it |
| `IgnoreMatcher.ShouldIgnore` | scan_file.py:22-56 | the pattern loop with early return answers exactly `Ignored`: fail open on a `relpath` error, `.git` first, root kept, then any matching non-empty pattern |
| `IgnoreMatcher.GitComponentAlwaysIgnored` | scan_file.py:26-30 | a `.git` component ignores the path whatever the patterns, the empty list included, once `relpath` succeeded |
| `IgnoreMatcher.GitRuleIsExact` | scan_file.py:29 | `.github` and `.gitignore` components do not trigger the `.git` rule |
| `IgnoreMatcher.FailOpen` | scan_file.py:53-56 | when `relpath` raises, nothing is ignored, `.git` paths included |
| `IgnoreMatcher.RootNeverIgnored` | scan_file.py:33-34 | the root (relative path `.`) without a `.git` component is never ignored |
| `IgnoreMatcher.DirPatternSkipsFiles` | scan_file.py:43-47 | a pattern ending in `/` never ignores a non-directory |
| `IgnoreMatcher.DirPatternMatchesDirectory` | scan_file.py:43-47 | for a directory, a pattern ending in `/` matches iff the relative path equals it without trailing slashes or starts with that plus `/` |
| `IgnoreMatcher.BuildDirExamples` | scan_file.py:43-47 | `build/` matches directories `build` and `build/x`, not `src/build`, `buildx` or a file `build` |
| `IgnoreMatcher.DirPatternNoFallthrough` | scan_file.py:43-51 | `log/` does not ignore directory `src/catalog` although `fnmatch_path` with `log` would match |
| `IgnoreMatcher.EmptyPatternSkipped` | scan_file.py:38-40 | an empty pattern never matches, although `fnmatch_path` with it matches everything |
| `IgnoreMatcher.IgnoredByPatterns` | scan_file.py:37-56 | past the three fixed rules, a path is ignored iff some non-empty pattern matches it; no patterns, nothing ignored |
| `IgnoreMatcher.OrderIrrelevant` | scan_file.py:37-51 | reordering the patterns does not change the decision |
| `IgnoreMatcher.AppendMonotone` | scan_file.py:37-51 | adding patterns can only turn keep into ignore |
| `IgnoreMatcher.NodeModulesScenario` | scan_file.py:22-56 | with `node_modules/`, the directories `node_modules` and `.git` are ignored; `src` and `src/app.txt` are kept |
| `PatternLoader.LinesRead` | scan_file.py:10-19 | the lines the `for line in f` loop sees: none for an absent file, all of them, or those before the exception; `ReadErrorKeepsPrefix` and `NoFileNoPatterns` state what follows |
| `PatternLoader.LoadPatterns` | scan_file.py:5-20 | the loading loop returns exactly the patterns of the lines read before any exception, none for an absent file |
| `PatternLoader.ParsePatterns` | scan_file.py:13-16 | at most one pattern per line; every pattern is non-empty, not a comment and stripped |
| `PatternLoader.ParseAppend` | scan_file.py:13-16 | lines are handled one at a time in order: parsing distributes over concatenation |
| `PatternLoader.ParseMembership` | scan_file.py:13-16 | `p` is loaded iff some line strips to `p` and `p` is non-empty and does not start with `#` |
| `PatternLoader.ParseOne` | scan_file.py:14-16 | one line gives its stripped text if that is a pattern line, and nothing otherwise |
| `PatternLoader.ReadErrorKeepsPrefix` | scan_file.py:11-19 | a read error part-way returns a prefix of what the whole file gives |
| `PatternLoader.NoFileNoPatterns` | scan_file.py:10-20 | an absent file, or one that fails to open, gives no patterns |
| `PatternLoader.PatternKeptVerbatim` | scan_file.py:14-16 | a line that already is a pattern, trailing `/` included, is kept verbatim |
| `PatternLoader.CommentAndBlankDropped` | scan_file.py:13-16 | `# comment`, an empty line, `dist/`, `*.tmp` give exactly `dist/` then `*.tmp` |
| `PatternLoader.LStripPastSpace` | scan_file.py:14 | `lstrip()`, the leading half of `strip()`, removes whitespace in front of a non-blank character and nothing more |
| `PatternLoader.IndentedCommentDropped` | scan_file.py:14-15 | a line whose first non-blank character is `#` is a comment |
| `PatternLoader.IndentedCommentExample` | scan_file.py:14-15 | `  # x` gives no pattern |
| `DirectoryScan.VisitDirectory` | scan_file.py:109-133 | the walk keeps exactly the non-ignored child directories in order; the files read are exactly the non-ignored ones in order; `file_count` grows by their number and `ignored_count` by pruned directories plus skipped files |
| `DirectoryScan.CollectIgnored` | scan_file.py:109-114 | `dirs_to_remove` is exactly the ignored child directories, in order |
| `DirectoryScan.RemoveAll` | scan_file.py:116-117 | removing each collected name with `dirs.remove` leaves exactly the non-ignored directories, in order |
| `DirectoryScan.SplitFiles` | scan_file.py:126-133 | the file loop reads exactly the non-ignored files in order and counts the ignored ones |
| `DirectoryScan.RemoveFirst` | scan_file.py:117 | `list.remove(x)` drops the first occurrence of `x` and keeps every other element in order, so the list is one shorter |
| `DirectoryScan.RemoveFirstPruned` | scan_file.py:116-117 | removing the first ignored name drops it from the ignored list and leaves the kept list unchanged |
| `DirectoryScan.NothingPrunedAllKept` | scan_file.py:116-117 | once no ignored name is left, the list is exactly the kept names |
| `DirectoryScan.PrunedAreIgnored` | scan_file.py:109-114 | every collected name is ignored |
| `DirectoryScan.KeptPrunedPartition` | scan_file.py:109-133 | every name is kept or pruned, never both: the two lists split the input, by count and by membership |

## Left out

- Reading `.gitignore` is left out: `os.path.exists`, `open`, UTF-8 decoding
  with `errors='ignore'`, and splitting into lines. The model takes the
  decoded lines and the point where an exception is raised, if any.
- The warnings `should_ignore` and `load_gitignore_patterns` print are left
  out: they are output only.
- `os.path.relpath`, `os.path.isdir`, `Path(path).parts`,
  `os.path.basename` and `os.path.join` are filesystem and library calls.
  Their results are inputs (`PathQuery`, and the `query` function of the
  scan step).
- Windows separators are left out. `os.sep` is taken to be `/`.
- `read_file_content` is left out: it is file I/O with an encoding fallback.
- `os.walk` itself is left out: its traversal order, and the fact that it
  reads the very list the step mutates. `VisitDirectory` returns the new
  list instead.
- Report writing, progress output, `main` and the CLI are left out: they are
  I/O glue.
- DoubleStarExample: the concrete path
  `a/b/node_modules/x.js` is covered as an instance of a lemma over any
  prefix and suffix, not stated with the literal.
