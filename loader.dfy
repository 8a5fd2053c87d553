/**
 * The parsing half of `load_gitignore_patterns`: each line of the root's
 * `.gitignore` is stripped, blank lines and `#` comments are dropped, and
 * the rest become patterns in file order. Finding, opening and decoding
 * the file are left to the caller, who supplies what was read.
 */
module PatternLoader {
  import opened Wrappers
  import opened PyStrings

  /**
   * What reading `<root>/.gitignore` produced.
   * Absent                 `os.path.exists` said no: the file is not read.
   * Present(lines, error)  the decoded lines, each with its line ending;
   *                        error == Some(k) when the exception is raised as
   *                        line k is fetched (k == 0: the open itself failed).
   */
  datatype GitignoreFile = Absent | Present(lines: seq<string>, readError: Option<nat>)

  /** The lines the `for line in f` loop gets to see before any exception. */
  function LinesRead(file: GitignoreFile): seq<string>
  {
    match file
    case Absent => []
    case Present(lines, None) => lines
    case Present(lines, Some(k)) => if k < |lines| then lines[..k] else lines
  }

  /** A stripped line becomes a pattern when it is not empty and not a comment. */
  predicate IsPatternLine(stripped: string)
  {
    stripped != [] && !StartsWith(stripped, "#")
  }

  /** What a loaded pattern looks like: non-empty, no `#` in front, no surrounding whitespace. */
  predicate IsPattern(p: string)
  {
    IsPatternLine(p) && IsStripped(p)
  }

  /**
   * The patterns a sequence of lines yields, in line order. Defined from
   * the last line backwards, the way the loop extends its result.
   */
  function ParsePatterns(lines: seq<string>): (patterns: seq<string>)
    ensures |patterns| <= |lines|
    ensures forall p | p in patterns :: IsPattern(p)
  {
    if lines == [] then []
    else
      var rest := ParsePatterns(lines[..|lines| - 1]);
      var line := Strip(lines[|lines| - 1]);
      StripIsStripped(lines[|lines| - 1]);
      if IsPatternLine(line) then rest + [line] else rest
  }

  /** The loop of `load_gitignore_patterns` over the lines that were read. */
  method LoadPatterns(file: GitignoreFile) returns (patterns: seq<string>)
    ensures patterns == ParsePatterns(LinesRead(file))
  {
    patterns := [];
    if file.Absent? {
      return;
    }
    var lines := file.lines;
    var i := 0;
    while i < |lines|
      invariant 0 <= i <= |lines|
      invariant file.readError.Some? ==> i <= file.readError.value
      invariant patterns == ParsePatterns(lines[..i])
    {
      if file.readError == Some(i) {
        // the exception ends the loop; the patterns collected so far are returned
        assert file == Present(lines, Some(i));
        return;
      }
      var line := Strip(lines[i]);
      ParseNext(lines, i);
      if IsPatternLine(line) {
        patterns := patterns + [line];
      }
      i := i + 1;
    }
    assert lines[..i] == LinesRead(file);
  }

  /** One more line extends the result by its pattern, if it has one. */
  lemma ParseNext(lines: seq<string>, i: nat)
    requires i < |lines|
    ensures ParsePatterns(lines[..i + 1]) ==
            ParsePatterns(lines[..i]) + (if IsPatternLine(Strip(lines[i])) then [Strip(lines[i])] else [])
  {
    assert lines[..i + 1][..i] == lines[..i];
  }

  /** Parsing distributes over concatenation of the input lines. */
  lemma {:induction false} ParseAppend(a: seq<string>, b: seq<string>)
    ensures ParsePatterns(a + b) == ParsePatterns(a) + ParsePatterns(b)
  {
    if b == [] {
      assert a + b == a;
    } else {
      var b' := b[..|b| - 1];
      assert (a + b)[..|a + b| - 1] == a + b';
      assert (a + b)[|a + b| - 1] == b[|b| - 1];
      ParseAppend(a, b');
    }
  }

  /** `a` is an initial segment of `b`. */
  predicate IsPrefix(a: seq<string>, b: seq<string>)
  {
    |a| <= |b| && a == b[..|a|]
  }

  /** A read error part-way keeps a prefix of what the whole file would have given. */
  lemma ReadErrorKeepsPrefix(lines: seq<string>, k: nat)
    ensures IsPrefix(ParsePatterns(LinesRead(Present(lines, Some(k)))), ParsePatterns(lines))
  {
    if k < |lines| {
      var before, after := lines[..k], lines[k..];
      assert before + after == lines;
      assert LinesRead(Present(lines, Some(k))) == before;
      ParseAppend(before, after);
      var got := ParsePatterns(before);
      assert (got + ParsePatterns(after))[..|got|] == got;
    }
  }

  /** A missing file, or one whose open fails, gives no patterns. */
  lemma NoFileNoPatterns(lines: seq<string>)
    ensures ParsePatterns(LinesRead(Absent)) == []
    ensures ParsePatterns(LinesRead(Present(lines, Some(0)))) == []
  {
  }

  /** Line i of `lines` strips to the pattern p. */
  predicate LineGives(lines: seq<string>, i: int, p: string)
  {
    0 <= i < |lines| && Strip(lines[i]) == p && IsPatternLine(p)
  }

  /**
   * A pattern is loaded exactly when some line strips to it and that
   * stripped line is neither empty nor a comment.
   */
  lemma {:induction false} ParseMembership(lines: seq<string>, p: string)
    ensures p in ParsePatterns(lines) <==> exists i :: LineGives(lines, i, p)
  {
    if lines != [] {
      var n := |lines| - 1;
      var init := lines[..n];
      var last := Strip(lines[n]);
      ParseMembership(init, p);
      ParseNext(lines, n);
      assert lines[..n + 1] == lines;
      assert p in ParsePatterns(lines) <==>
             p in ParsePatterns(init) || (IsPatternLine(last) && p == last);
      if p in ParsePatterns(init) {
        var i :| LineGives(init, i, p);
        assert init[i] == lines[i];
        assert LineGives(lines, i, p);
      } else if IsPatternLine(last) && p == last {
        assert LineGives(lines, n, p);
      } else {
        forall i | LineGives(lines, i, p)
          ensures false
        {
          if i < n {
            assert init[i] == lines[i];
            assert LineGives(init, i, p);
          }
        }
      }
    }
  }

  /** One line gives its stripped text when that is a pattern line, and nothing otherwise. */
  lemma ParseOne(line: string)
    ensures ParsePatterns([line]) == (if IsPatternLine(Strip(line)) then [Strip(line)] else [])
  {
    assert [line][..0] == [];
  }

  /** A line that already is a pattern is kept verbatim, a trailing '/' included. */
  lemma PatternKeptVerbatim(p: string)
    requires IsPattern(p)
    ensures ParsePatterns([p]) == [p]
  {
    ParseOne(p);
    StripStripped(p);
  }

  /** `# comment`, an empty line, `dist/` and `*.tmp` give exactly `dist/` then `*.tmp`. */
  lemma CommentAndBlankDropped()
    ensures ParsePatterns(["# comment", "", "dist/", "*.tmp"]) == ["dist/", "*.tmp"]
  {
    var lines := ["# comment", "", "dist/", "*.tmp"];
    assert lines[..0] == [];
    ParseNext(lines, 0);
    StripStripped(lines[0]);
    assert StartsWith(lines[0], "#");
    ParseNext(lines, 1);
    ParseNext(lines, 2);
    StripStripped(lines[2]);
    ParseNext(lines, 3);
    StripStripped(lines[3]);
    assert lines[..4] == lines;
  }

  /** Indentation does not hide a comment: a line whose first non-blank character is `#` is dropped. */
  lemma IndentedCommentDropped(indent: string, rest: string)
    requires forall k | 0 <= k < |indent| :: IsSpace(indent[k])
    ensures ParsePatterns([indent + "#" + rest]) == []
  {
    var line := indent + "#" + rest;
    assert line == indent + ("#" + rest);
    LStripPastSpace(indent, "#" + rest);
    var r := RStrip("#" + rest);
    RStripSpec("#" + rest);
    assert r[0] == '#';
    assert StartsWith(Strip(line), "#");
    ParseOne(line);
  }

  /** `lstrip()` removes a run of whitespace in front of a non-blank character, and only that. */
  lemma {:induction false} LStripPastSpace(indent: string, text: string)
    requires forall k | 0 <= k < |indent| :: IsSpace(indent[k])
    requires text == [] || !IsSpace(text[0])
    ensures LStrip(indent + text) == text
  {
    if indent == [] {
      assert indent + text == text;
    } else {
      assert (indent + text)[0] == indent[0];
      assert (indent + text)[1..] == indent[1..] + text;
      LStripPastSpace(indent[1..], text);
    }
  }

  /** So `  # x` (two spaces, then a comment) gives no pattern. */
  lemma IndentedCommentExample()
    ensures ParsePatterns(["  # x"]) == []
  {
    assert "  # x" == "  " + "#" + " x";
    IndentedCommentDropped("  ", " x");
  }
}
