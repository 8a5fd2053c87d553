/**
 * One step of the walk in `scan_directory_simple`: for the directory the
 * walk is at, drop the ignored child directories from the list the walk
 * will descend into, then go through the files, skipping the ignored ones,
 * and keep the two running counters. The walk itself, the report and the
 * file reading are not modelled.
 */
module DirectoryScan {
  import opened IgnoreMatcher

  /**
   * Whether the child `name` of the current directory is ignored. `query`
   * stands for joining the name to the current directory and asking the
   * filesystem about the result (see PathQuery).
   */
  predicate ChildIgnored(name: string, query: string -> PathQuery, patterns: seq<string>)
  {
    Ignored(query(name), patterns)
  }

  /** The names that are not ignored, in their original order. */
  function Kept(names: seq<string>, query: string -> PathQuery, patterns: seq<string>): (r: seq<string>)
    ensures |r| <= |names|
  {
    if names == [] then []
    else
      var last := names[|names| - 1];
      Kept(names[..|names| - 1], query, patterns) +
        (if ChildIgnored(last, query, patterns) then [] else [last])
  }

  /** The names that are ignored, in their original order. */
  function Pruned(names: seq<string>, query: string -> PathQuery, patterns: seq<string>): (r: seq<string>)
    ensures |r| <= |names|
  {
    if names == [] then []
    else
      var last := names[|names| - 1];
      Pruned(names[..|names| - 1], query, patterns) +
        (if ChildIgnored(last, query, patterns) then [last] else [])
  }

  /** r is names without its element i, the first occurrence of x. */
  predicate RemovedFirstAt(names: seq<string>, x: string, i: int, r: seq<string>)
  {
    0 <= i < |names| && names[i] == x && x !in names[..i] && r == names[..i] + names[i + 1..]
  }

  /** `names.remove(x)`: drops the first occurrence of x and keeps the rest in order. */
  function RemoveFirst(names: seq<string>, x: string): (r: seq<string>)
    requires x in names
    ensures |r| == |names| - 1
    ensures exists i :: RemovedFirstAt(names, x, i, r)
  {
    if names[0] == x then
      assert RemovedFirstAt(names, x, 0, names[1..]);
      names[1..]
    else
      var tail := names[1..];
      var rest := RemoveFirst(tail, x);
      ghost var j :| RemovedFirstAt(tail, x, j, rest);
      assert names[..j + 1] == [names[0]] + tail[..j];
      assert names[j + 2..] == tail[j + 1..];
      assert RemovedFirstAt(names, x, j + 1, [names[0]] + rest);
      [names[0]] + rest
  }

  /**
   * The per-directory step, loop for loop: collect the ignored child
   * directories, remove them from `dirs` one by one, then go through the
   * files. Returns the directories the walk will still enter, the files
   * whose contents go into the report, and the updated counters.
   */
  method VisitDirectory(dirs: seq<string>, files: seq<string>, query: string -> PathQuery,
                        patterns: seq<string>, fileCount: nat, ignoredCount: nat)
    returns (remainingDirs: seq<string>, readFiles: seq<string>, newFileCount: nat, newIgnoredCount: nat)
    ensures remainingDirs == Kept(dirs, query, patterns)
    ensures readFiles == Kept(files, query, patterns)
    ensures newFileCount == fileCount + |Kept(files, query, patterns)|
    ensures newIgnoredCount == ignoredCount + |Pruned(dirs, query, patterns)| + |Pruned(files, query, patterns)|
  {
    var toRemove := CollectIgnored(dirs, query, patterns);
    remainingDirs := RemoveAll(dirs, toRemove, query, patterns);
    var ignoredFiles;
    readFiles, ignoredFiles := SplitFiles(files, query, patterns);
    newFileCount := fileCount + |readFiles|;
    newIgnoredCount := ignoredCount + |toRemove| + ignoredFiles;
  }

  /** The first loop: `dirs_to_remove`, the ignored child directories in order. */
  method CollectIgnored(dirs: seq<string>, query: string -> PathQuery, patterns: seq<string>)
    returns (toRemove: seq<string>)
    ensures toRemove == Pruned(dirs, query, patterns)
  {
    toRemove := [];
    var i := 0;
    while i < |dirs|
      invariant 0 <= i <= |dirs|
      invariant toRemove == Pruned(dirs[..i], query, patterns)
    {
      var ignored := ShouldIgnore(query(dirs[i]), patterns);
      KeptPrunedNext(dirs, i, query, patterns);
      if ignored {
        toRemove := toRemove + [dirs[i]];
      }
      i := i + 1;
    }
    assert dirs[..i] == dirs;
  }

  /** The second loop: `dirs.remove(d)` for every collected d. */
  method RemoveAll(dirs: seq<string>, toRemove: seq<string>, query: string -> PathQuery, patterns: seq<string>)
    returns (remaining: seq<string>)
    requires toRemove == Pruned(dirs, query, patterns)
    ensures remaining == Kept(dirs, query, patterns)
  {
    remaining := dirs;
    var k := 0;
    while k < |toRemove|
      invariant 0 <= k <= |toRemove|
      invariant Pruned(remaining, query, patterns) == toRemove[k..]
      invariant Kept(remaining, query, patterns) == Kept(dirs, query, patterns)
    {
      RemoveFirstPruned(remaining, query, patterns);
      remaining := RemoveFirst(remaining, toRemove[k]);
      assert toRemove[k..][1..] == toRemove[k + 1..];
      k := k + 1;
    }
    NothingPrunedAllKept(remaining, query, patterns);
  }

  /**
   * The file loop: an ignored file adds one to `ignored_count` and is
   * skipped, any other adds one to `file_count` and is read.
   */
  method SplitFiles(files: seq<string>, query: string -> PathQuery, patterns: seq<string>)
    returns (readFiles: seq<string>, ignoredFiles: nat)
    ensures readFiles == Kept(files, query, patterns)
    ensures ignoredFiles == |Pruned(files, query, patterns)|
  {
    readFiles, ignoredFiles := [], 0;
    var j := 0;
    while j < |files|
      invariant 0 <= j <= |files|
      invariant readFiles == Kept(files[..j], query, patterns)
      invariant ignoredFiles == |Pruned(files[..j], query, patterns)|
    {
      var ignored := ShouldIgnore(query(files[j]), patterns);
      KeptPrunedNext(files, j, query, patterns);
      if ignored {
        ignoredFiles := ignoredFiles + 1;
      } else {
        readFiles := readFiles + [files[j]];
      }
      j := j + 1;
    }
    assert files[..j] == files;
  }

  /** One more name goes to exactly one of the two lists. */
  lemma KeptPrunedNext(names: seq<string>, i: nat, query: string -> PathQuery, patterns: seq<string>)
    requires i < |names|
    ensures Kept(names[..i + 1], query, patterns) ==
            Kept(names[..i], query, patterns) + (if ChildIgnored(names[i], query, patterns) then [] else [names[i]])
    ensures Pruned(names[..i + 1], query, patterns) ==
            Pruned(names[..i], query, patterns) + (if ChildIgnored(names[i], query, patterns) then [names[i]] else [])
  {
    assert names[..i + 1][..i] == names[..i];
  }

  /** Filtering distributes over concatenation. */
  lemma {:induction false} KeptPrunedAppend(a: seq<string>, b: seq<string>, query: string -> PathQuery, patterns: seq<string>)
    ensures Kept(a + b, query, patterns) == Kept(a, query, patterns) + Kept(b, query, patterns)
    ensures Pruned(a + b, query, patterns) == Pruned(a, query, patterns) + Pruned(b, query, patterns)
  {
    if b == [] {
      assert a + b == a;
    } else {
      var b' := b[..|b| - 1];
      assert (a + b)[..|a + b| - 1] == a + b';
      assert (a + b)[|a + b| - 1] == b[|b| - 1];
      KeptPrunedAppend(a, b', query, patterns);
    }
  }

  /**
   * Removing the first ignored name drops it from the ignored ones and
   * leaves the kept ones alone: no kept name can equal it, because being
   * ignored depends on the name only.
   */
  lemma {:induction false} RemoveFirstPruned(names: seq<string>, query: string -> PathQuery, patterns: seq<string>)
    requires Pruned(names, query, patterns) != []
    ensures Pruned(names, query, patterns)[0] in names
    ensures Pruned(RemoveFirst(names, Pruned(names, query, patterns)[0]), query, patterns) ==
            Pruned(names, query, patterns)[1..]
    ensures Kept(RemoveFirst(names, Pruned(names, query, patterns)[0]), query, patterns) ==
            Kept(names, query, patterns)
  {
    var x := names[0];
    var rest := names[1..];
    assert names == [x] + rest;
    KeptPrunedAppend([x], rest, query, patterns);
    assert [x][..0] == [];
    if ChildIgnored(x, query, patterns) {
      assert Pruned(names, query, patterns)[0] == x;
    } else {
      assert Pruned(names, query, patterns) == Pruned(rest, query, patterns);
      RemoveFirstPruned(rest, query, patterns);
      var v := Pruned(names, query, patterns)[0];
      assert x != v by {
        PrunedAreIgnored(rest, query, patterns);
      }
      assert RemoveFirst(names, v) == [x] + RemoveFirst(rest, v);
      KeptPrunedAppend([x], RemoveFirst(rest, v), query, patterns);
    }
  }

  /** Every name in the ignored list is ignored. */
  lemma {:induction false} PrunedAreIgnored(names: seq<string>, query: string -> PathQuery, patterns: seq<string>)
    ensures forall x | x in Pruned(names, query, patterns) :: ChildIgnored(x, query, patterns)
  {
    if names != [] {
      PrunedAreIgnored(names[..|names| - 1], query, patterns);
    }
  }

  /** With nothing left to prune, every name is kept. */
  lemma {:induction false} NothingPrunedAllKept(names: seq<string>, query: string -> PathQuery, patterns: seq<string>)
    requires Pruned(names, query, patterns) == []
    ensures Kept(names, query, patterns) == names
  {
    if names != [] {
      var init := names[..|names| - 1];
      NothingPrunedAllKept(init, query, patterns);
      assert init + [names[|names| - 1]] == names;
    }
  }

  /** Each name is either kept or pruned, never both: the two lists split the input. */
  lemma {:induction false} KeptPrunedPartition(names: seq<string>, query: string -> PathQuery, patterns: seq<string>)
    ensures |Kept(names, query, patterns)| + |Pruned(names, query, patterns)| == |names|
    ensures forall x :: x in Kept(names, query, patterns) <==> x in names && !ChildIgnored(x, query, patterns)
    ensures forall x :: x in Pruned(names, query, patterns) <==> x in names && ChildIgnored(x, query, patterns)
  {
    if names != [] {
      var init := names[..|names| - 1];
      KeptPrunedPartition(init, query, patterns);
      assert names == init + [names[|names| - 1]];
    }
  }
}
