/**
 * The ignore decision of the directory scanner: `fnmatch_path`, the
 * substring/suffix heuristic that stands in for glob matching, and
 * `should_ignore`, which applies the hard-wired `.git` and root rules and
 * then the loaded patterns in order.
 *
 * The filesystem queries `should_ignore` makes are inputs here (see
 * PathQuery). The path separator is '/'.
 */
module IgnoreMatcher {
  import opened Wrappers
  import opened PyStrings

  // ---------------------------------------------------------------------
  // fnmatch_path
  // ---------------------------------------------------------------------

  // The part of an already normalised pattern that is searched for: a
  // leading `*/` (tested first) or `**/` is cut off, anything else is kept.
  // A `*` anywhere else is an ordinary character.
  function GlobTail(pat: string): (r: string)
    ensures EndsWith(pat, r)
    ensures StartsWith(pat, "*/") ==> |r| == |pat| - 2
    ensures !StartsWith(pat, "*/") && StartsWith(pat, "**/") ==> |r| == |pat| - 3
    ensures !StartsWith(pat, "*/") && !StartsWith(pat, "**/") ==> r == pat
  {
    if StartsWith(pat, "*/") then pat[2..]
    else if StartsWith(pat, "**/") then pat[3..]
    else pat
  }

  /** `fnmatch_path(path, pattern)`, branch for branch. */
  function FnmatchPath(path: string, pattern: string): bool
  {
    var p := SlashBackslashes(path);
    var pat := SlashBackslashes(pattern);
    if StartsWith(pat, "*/") then
      var tail := pat[2..];
      EndsWith(p, tail) || Contains(p, tail)
    else if StartsWith(pat, "**/") then
      var tail := pat[3..];
      Contains(p, tail)
    else
      p == pat || EndsWith(p, "/" + pat) || Contains(p, pat)
  }

  // Every branch of `fnmatch_path` comes down to one substring test: the
  // normalised pattern, less a leading `*/` or `**/`, occurs in the
  // normalised candidate. The equality and `endswith` disjuncts add nothing.
  lemma FnmatchPathIsContainment(path: string, pattern: string)
    ensures FnmatchPath(path, pattern) <==>
            Contains(SlashBackslashes(path), GlobTail(SlashBackslashes(pattern)))
  {
    var p := SlashBackslashes(path);
    var pat := SlashBackslashes(pattern);
    if StartsWith(pat, "*/") {
      if EndsWith(p, pat[2..]) { SuffixContained(p, pat[2..]); }
    } else if !StartsWith(pat, "**/") {
      if p == pat {
        PrefixContained(p, pat);
      } else if EndsWith(p, "/" + pat) {
        SuffixOfSuffix(p, "/", pat);
        SuffixContained(p, pat);
      }
    }
  }

  /** A pattern that does not begin with `*` is searched for as it is. */
  lemma GlobTailPlain(pat: string)
    requires pat == [] || pat[0] != '*'
    ensures GlobTail(pat) == pat
  {
    if |pat| >= 2 { assert pat[..2][0] == pat[0]; }
    if |pat| >= 3 { assert pat[..3][0] == pat[0]; }
  }

  /** `*` is not a wildcard: `*.tmp` does not match `a.tmp`. */
  lemma StarIsLiteral()
    ensures !FnmatchPath("a.tmp", "*.tmp")
  {
    FnmatchPathIsContainment("a.tmp", "*.tmp");
    assert SlashBackslashes("a.tmp") == "a.tmp";
    assert SlashBackslashes("*.tmp") == "*.tmp";
    assert GlobTail("*.tmp") == "*.tmp" by {
      assert "*.tmp"[..2][1] == '.';
      assert "*.tmp"[..3][1] == '.';
    }
    assert !OccursAt("a.tmp", "*.tmp", 0) by { assert "a.tmp"[0..5][0] != "*.tmp"[0]; }
  }

  /** The substring fallback is over-broad: `log` matches `src/catalog.txt`. */
  lemma SubstringFallback()
    ensures FnmatchPath("src/catalog.txt", "log")
  {
    FnmatchPathIsContainment("src/catalog.txt", "log");
    assert SlashBackslashes("src/catalog.txt") == "src/catalog.txt";
    assert SlashBackslashes("log") == "log";
    GlobTailPlain("log");
    assert OccursAt("src/catalog.txt", "log", 8);
  }

  // `*/` and `**/` strip to the empty pattern, which matches every candidate.
  lemma BarePrefixMatchesEverything(path: string)
    ensures FnmatchPath(path, "*/") && FnmatchPath(path, "**/")
  {
    var p := SlashBackslashes(path);
    assert SlashBackslashes("*/") == "*/";
    assert EndsWith(p, "*/"[2..]);
    assert SlashBackslashes("**/") == "**/";
    assert !StartsWith("**/", "*/") by { assert "**/"[..2][1] == '*'; }
    assert OccursAt(p, "**/"[3..], 0);
  }

  // `**/x` is not a `*/` pattern: three characters are cut, leaving `x`.
  lemma DoubleStarBranch(x: string)
    ensures GlobTail("**/" + x) == x
  {
    assert ("**/" + x)[..2][1] == '*';
    assert ("**/" + x)[..3] == "**/";
    assert ("**/" + x)[3..] == x;
  }

  // Without backslashes, `*/x` matches exactly the candidates that contain x.
  lemma SingleStarMatchesSubstring(path: string, x: string)
    requires '\\' !in path && '\\' !in x
    ensures FnmatchPath(path, "*/" + x) <==> Contains(path, x)
  {
    FnmatchPathIsContainment(path, "*/" + x);
    SlashFree(path);
    SlashFree("*/" + x);
    assert ("*/" + x)[..2] == "*/";
    assert ("*/" + x)[2..] == x;
  }

  // Without backslashes, `**/x` matches exactly the candidates that contain x.
  lemma DoubleStarMatchesSubstring(path: string, x: string)
    requires '\\' !in path && '\\' !in x
    ensures FnmatchPath(path, "**/" + x) <==> Contains(path, x)
  {
    FnmatchPathIsContainment(path, "**/" + x);
    SlashFree(path);
    SlashFree("**/" + x);
    DoubleStarBranch(x);
  }

  // `*/cache` matches `a/b/cache`.
  lemma SingleStarExample()
    ensures FnmatchPath("a/b/cache", "*/cache")
  {
    SingleStarMatchesSubstring("a/b/cache", "cache");
    assert "*/" + "cache" == "*/cache";
    assert OccursAt("a/b/cache", "cache", 4);
  }

  // `**/node_modules` matches `a/b/node_modules/x.js`, and any other
  // backslash-free path with `node_modules` somewhere in it.
  lemma DoubleStarExample(before: string, after: string)
    requires '\\' !in before && '\\' !in after
    ensures FnmatchPath(before + "node_modules" + after, "**/node_modules")
  {
    var x := "node_modules";
    DoubleStarMatchesSubstring(before + x + after, x);
    ContainsMiddle(before, x, after);
    assert "**/" + x == "**/node_modules";
  }

  // ---------------------------------------------------------------------
  // should_ignore
  // ---------------------------------------------------------------------

  /**
   * What `should_ignore` learns from the filesystem about one path:
   * relPath   the result of `os.path.relpath(path, root_dir)`, None when it raises;
   * parts     `Path(path).parts`, the components of the path as given (absolute);
   * baseName  `os.path.basename(path)`;
   * isDir     `os.path.isdir(path)`.
   */
  datatype PathQuery = PathQuery(relPath: Option<string>, parts: seq<string>, baseName: string, isDir: bool)

  /**
   * Whether one pattern ignores the path whose relative path is `rel`.
   * Empty patterns are skipped. A pattern ending in '/' loses all its
   * trailing slashes and then matches directories only, at `rel` itself or
   * below it. Any other pattern goes to `fnmatch_path` with the relative
   * path and with the base name.
   */
  predicate PatternMatches(rel: string, q: PathQuery, pattern: string)
  {
    pattern != [] &&
    if EndsWith(pattern, "/") then
      var dir := RStripSlashes(pattern);
      q.isDir && (rel == dir || StartsWith(rel, dir + "/"))
    else
      FnmatchPath(rel, pattern) || FnmatchPath(q.baseName, pattern)
  }

  /**
   * The decision `should_ignore` makes. A failing `relpath` makes it
   * fail open; otherwise a `.git` component of the path ignores it, the
   * root itself is kept, and any other path is ignored exactly when some
   * pattern matches it.
   */
  predicate Ignored(q: PathQuery, patterns: seq<string>)
  {
    match q.relPath
    case None => false
    case Some(rel) =>
      ".git" in q.parts ||
      (rel != "." && exists pattern | pattern in patterns :: PatternMatches(rel, q, pattern))
  }

  /**
   * `should_ignore`: the loop over the patterns with its early return and
   * its reassigned `pattern`.
   */
  method ShouldIgnore(q: PathQuery, patterns: seq<string>) returns (ignored: bool)
    ensures ignored == Ignored(q, patterns)
  {
    if q.relPath.None? {
      // relpath raised: the exception is caught and the path is kept
      return false;
    }
    var rel := q.relPath.value;
    if ".git" in q.parts {
      return true;
    }
    if rel == "." {
      return false;
    }
    var i := 0;
    while i < |patterns|
      invariant 0 <= i <= |patterns|
      invariant forall j | 0 <= j < i :: !PatternMatches(rel, q, patterns[j])
    {
      var pattern := patterns[i];
      if pattern == [] {
        i := i + 1;
        continue;
      }
      if EndsWith(pattern, "/") {
        pattern := RStripSlashes(pattern);
        if q.isDir && (rel == pattern || StartsWith(rel, pattern + "/")) {
          assert PatternMatches(rel, q, patterns[i]);
          return true;
        }
      } else {
        if FnmatchPath(rel, pattern) || FnmatchPath(q.baseName, pattern) {
          assert PatternMatches(rel, q, patterns[i]);
          return true;
        }
      }
      i := i + 1;
    }
    return false;
  }

  /** A `.git` component ignores the path whatever the patterns, provided relpath succeeded. */
  lemma GitComponentAlwaysIgnored(q: PathQuery, patterns: seq<string>)
    requires q.relPath.Some? && ".git" in q.parts
    ensures Ignored(q, patterns)
  {
  }

  /** The `.git` rule compares whole components: `.gitignore` or `.github` alone do not trigger it. */
  lemma GitRuleIsExact()
    ensures !Ignored(PathQuery(Some("x"), ["/", "r", ".github", ".gitignore", "x"], "x", false), [])
  {
    var parts := ["/", "r", ".github", ".gitignore", "x"];
    assert ".git" !in parts by {
      assert parts[2] != ".git" by { assert |parts[2]| != |".git"|; }
      assert parts[3] != ".git" by { assert |parts[3]| != |".git"|; }
    }
  }

  /** relpath runs before the `.git` test, so a failing relpath keeps even a `.git` path. */
  lemma FailOpen(q: PathQuery, patterns: seq<string>)
    requires q.relPath.None?
    ensures !Ignored(q, patterns)
  {
  }

  /** The scan root (relative path ".") is kept whatever the patterns, unless it lies under `.git`. */
  lemma RootNeverIgnored(q: PathQuery, patterns: seq<string>)
    requires q.relPath == Some(".") && ".git" !in q.parts
    ensures !Ignored(q, patterns)
  {
  }

  /** A pattern ending in '/' never ignores something that is not a directory. */
  lemma DirPatternSkipsFiles(rel: string, q: PathQuery, pattern: string)
    requires EndsWith(pattern, "/") && !q.isDir
    ensures !PatternMatches(rel, q, pattern)
  {
  }

  /**
   * For a directory, a pattern ending in '/' matches exactly the relative
   * path with the trailing slashes removed, or a path below it; it never
   * falls through to `fnmatch_path`.
   */
  lemma DirPatternMatchesDirectory(rel: string, q: PathQuery, pattern: string)
    requires EndsWith(pattern, "/") && q.isDir
    ensures PatternMatches(rel, q, pattern) <==>
            (rel == RStripSlashes(pattern) || StartsWith(rel, RStripSlashes(pattern) + "/"))
  {
  }

  /** `build/` matches the directory `build` and `build/x`, but not `src/build` or `buildx`. */
  lemma BuildDirExamples(base: string)
    ensures PatternMatches("build", PathQuery(Some("build"), [], base, true), "build/")
    ensures PatternMatches("build/x", PathQuery(Some("build/x"), [], base, true), "build/")
    ensures !PatternMatches("src/build", PathQuery(Some("src/build"), [], base, true), "build/")
    ensures !PatternMatches("buildx", PathQuery(Some("buildx"), [], base, true), "build/")
    ensures !PatternMatches("build", PathQuery(Some("build"), [], base, false), "build/")
  {
    assert EndsWith("build/", "/");
    assert RStripSlashes("build/") == "build" by {
      assert "build/"[..5] == "build";
    }
    assert StartsWith("build/x", "build/");
    assert !StartsWith("src/build", "build/") by { assert "src/build"[0] != 'b'; }
    assert !StartsWith("buildx", "build/") by { assert "buildx"[5] != '/'; }
  }

  /** `log/` does not ignore the directory `src/catalog`, although `fnmatch_path` with `log` would. */
  lemma DirPatternNoFallthrough()
    ensures FnmatchPath("src/catalog", "log")
    ensures !PatternMatches("src/catalog", PathQuery(Some("src/catalog"), [], "catalog", true), "log/")
  {
    FnmatchPathIsContainment("src/catalog", "log");
    assert SlashBackslashes("src/catalog") == "src/catalog";
    assert SlashBackslashes("log") == "log";
    GlobTailPlain("log");
    assert OccursAt("src/catalog", "log", 8);
    assert EndsWith("log/", "/");
    assert RStripSlashes("log/") == "log" by { assert "log/"[..3] == "log"; }
    assert !StartsWith("src/catalog", "log/") by { assert "src/catalog"[0] != 'l'; }
  }

  /** An empty pattern is skipped, although `fnmatch_path` with it would match anything. */
  lemma EmptyPatternSkipped(rel: string, q: PathQuery)
    ensures FnmatchPath(rel, "")
    ensures !PatternMatches(rel, q, "")
  {
    assert OccursAt(SlashBackslashes(rel), "", 0);
  }

  /**
   * Past the three fixed rules, a path is ignored exactly when some
   * non-empty pattern matches it; with no patterns nothing is ignored.
   */
  lemma IgnoredByPatterns(q: PathQuery, patterns: seq<string>)
    requires q.relPath.Some? && ".git" !in q.parts && q.relPath.value != "."
    ensures Ignored(q, patterns) <==>
            exists i | 0 <= i < |patterns| :: patterns[i] != [] && PatternMatches(q.relPath.value, q, patterns[i])
    ensures patterns == [] ==> !Ignored(q, patterns)
  {
    if Ignored(q, patterns) {
      var pattern :| pattern in patterns && PatternMatches(q.relPath.value, q, pattern);
      var i :| 0 <= i < |patterns| && patterns[i] == pattern;
    }
  }

  /** The order of the patterns does not matter: there is no negation. */
  lemma OrderIrrelevant(q: PathQuery, patterns: seq<string>, reordered: seq<string>)
    requires multiset(patterns) == multiset(reordered)
    ensures Ignored(q, patterns) == Ignored(q, reordered)
  {
    forall pattern
      ensures pattern in patterns <==> pattern in reordered
    {
      assert pattern in patterns <==> pattern in multiset(patterns);
      assert pattern in reordered <==> pattern in multiset(reordered);
    }
  }

  /** More patterns can only ignore more: appending never un-ignores a path. */
  lemma AppendMonotone(q: PathQuery, patterns: seq<string>, more: seq<string>)
    ensures Ignored(q, patterns) ==> Ignored(q, patterns + more)
    ensures Ignored(q, more) ==> Ignored(q, patterns + more)
  {
    if q.relPath.Some? && Ignored(q, patterns) && ".git" !in q.parts {
      var pattern :| pattern in patterns && PatternMatches(q.relPath.value, q, pattern);
      assert pattern in patterns + more;
    }
    if q.relPath.Some? && Ignored(q, more) && ".git" !in q.parts {
      var pattern :| pattern in more && PatternMatches(q.relPath.value, q, pattern);
      assert pattern in patterns + more;
    }
  }

  /**
   * A root `/r` whose `.gitignore` holds `node_modules/`: the directory
   * `node_modules` and the `.git` directory are ignored, the directory
   * `src` and the file `src/app.txt` are kept.
   */
  lemma NodeModulesScenario()
    ensures Ignored(PathQuery(Some("node_modules"), ["/", "r", "node_modules"], "node_modules", true), ["node_modules/"])
    ensures Ignored(PathQuery(Some(".git"), ["/", "r", ".git"], ".git", true), ["node_modules/"])
    ensures !Ignored(PathQuery(Some("src"), ["/", "r", "src"], "src", true), ["node_modules/"])
    ensures !Ignored(PathQuery(Some("src/app.txt"), ["/", "r", "src", "app.txt"], "app.txt", false), ["node_modules/"])
  {
    var pattern := "node_modules/";
    assert EndsWith(pattern, "/");
    assert RStripSlashes(pattern) == "node_modules" by { assert pattern[..12] == "node_modules"; }
    assert PatternMatches("node_modules", PathQuery(Some("node_modules"), ["/", "r", "node_modules"], "node_modules", true), pattern);
    assert !StartsWith("src", "node_modules/");
    assert ".git" !in ["/", "r", "src"] by { assert "src" != ".git"; assert "r" != ".git"; }
    assert ".git" !in ["/", "r", "src", "app.txt"] by { assert "app.txt" != ".git"; assert "src" != ".git"; assert "r" != ".git"; }
    assert [pattern] == ["node_modules/"];
    assert forall x | x in [pattern] :: x == pattern;
  }
}
