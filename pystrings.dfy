/**
 * The handful of Python string operations the ignore engine relies on:
 * `startswith`, `endswith`, the substring test `in`, `replace('\\', '/')`,
 * `strip()` and `rstrip('/')`. Strings are sequences of code points.
 */
module PyStrings {

  /** `s.startswith(p)` */
  predicate StartsWith(s: string, p: string)
  {
    |p| <= |s| && s[..|p|] == p
  }

  /** `s.endswith(p)` */
  predicate EndsWith(s: string, p: string)
  {
    |p| <= |s| && s[|s| - |p|..] == p
  }

  /** t occurs in s starting at position k. */
  predicate OccursAt(s: string, t: string, k: int)
  {
    0 <= k && k + |t| <= |s| && s[k..k + |t|] == t
  }

  /** `t in s`: t occurs somewhere in s as a contiguous block. */
  predicate Contains(s: string, t: string)
  {
    exists k | 0 <= k <= |s| - |t| :: OccursAt(s, t, k)
  }

  /** Every prefix and every suffix of a string occurs in it. */
  lemma PrefixContained(s: string, p: string)
    requires StartsWith(s, p)
    ensures Contains(s, p)
  {
    assert OccursAt(s, p, 0);
  }

  lemma SuffixContained(s: string, p: string)
    requires EndsWith(s, p)
    ensures Contains(s, p)
  {
    assert OccursAt(s, p, |s| - |p|);
  }

  /** t occurs in a + t + b. */
  lemma ContainsMiddle(a: string, t: string, b: string)
    ensures Contains(a + t + b, t)
  {
    assert (a + t + b)[|a|..|a| + |t|] == t;
    assert OccursAt(a + t + b, t, |a|);
  }

  /** A suffix of a suffix is a suffix: used for `endswith('/' + p)`. */
  lemma SuffixOfSuffix(s: string, a: string, p: string)
    requires EndsWith(s, a + p)
    ensures EndsWith(s, p)
  {
    var n := |s| - |a + p|;
    assert s[n..] == a + p;
    assert s[|s| - |p|..] == s[n..][|a|..];
    assert (a + p)[|a|..] == p;
  }

  /**
   * The code points Python's `str.isspace` accepts: the ASCII controls
   * TAB..CR and FS..US, space, NEL, NO-BREAK SPACE, OGHAM SPACE MARK,
   * EN QUAD..HAIR SPACE, LINE and PARAGRAPH SEPARATOR, NARROW NO-BREAK
   * SPACE, MEDIUM MATHEMATICAL SPACE and IDEOGRAPHIC SPACE.
   */
  predicate IsSpace(c: char)
  {
    var n := c as int;
    (0x09 <= n <= 0x0D) || (0x1C <= n <= 0x20) || n == 0x85 || n == 0xA0 ||
    n == 0x1680 || (0x2000 <= n <= 0x200A) || n == 0x2028 || n == 0x2029 ||
    n == 0x202F || n == 0x205F || n == 0x3000
  }

  /** `s.lstrip()` */
  function LStrip(s: string): string
  {
    if |s| > 0 && IsSpace(s[0]) then LStrip(s[1..]) else s
  }

  /** `s.rstrip()` */
  function RStrip(s: string): string
  {
    if |s| > 0 && IsSpace(s[|s| - 1]) then RStrip(s[..|s| - 1]) else s
  }

  /** `s.strip()` */
  function Strip(s: string): string
  {
    RStrip(LStrip(s))
  }

  // What the strip functions do is stated in lemmas rather than in their
  // contracts, so that the solver sees it only where a proof asks for it.

  /** `lstrip()` returns a suffix of s that does not begin with whitespace, and drops only whitespace. */
  lemma {:induction false} LStripSpec(s: string)
    ensures |LStrip(s)| <= |s| && LStrip(s) == s[|s| - |LStrip(s)|..]
    ensures forall k | 0 <= k < |s| - |LStrip(s)| :: IsSpace(s[k])
    ensures LStrip(s) == [] || !IsSpace(LStrip(s)[0])
  {
    if |s| > 0 && IsSpace(s[0]) {
      LStripSpec(s[1..]);
      forall k | 1 <= k < |s| - |LStrip(s)|
        ensures IsSpace(s[k])
      {
        assert s[k] == s[1..][k - 1];
      }
    }
  }

  /** `rstrip()` returns a prefix of s that does not end with whitespace, and drops only whitespace. */
  lemma {:induction false} RStripSpec(s: string)
    ensures |RStrip(s)| <= |s| && RStrip(s) == s[..|RStrip(s)|]
    ensures forall k | |RStrip(s)| <= k < |s| :: IsSpace(s[k])
    ensures RStrip(s) == [] || !IsSpace(RStrip(s)[|RStrip(s)| - 1])
  {
    if |s| > 0 && IsSpace(s[|s| - 1]) {
      var init := s[..|s| - 1];
      RStripSpec(init);
      assert init[..|RStrip(s)|] == s[..|RStrip(s)|];
      forall k | |RStrip(s)| <= k < |s| - 1
        ensures IsSpace(s[k])
      {
        assert s[k] == init[k];
      }
    }
  }

  /** Neither end of a stripped string is whitespace. */
  predicate IsStripped(s: string)
  {
    s == [] || (!IsSpace(s[0]) && !IsSpace(s[|s| - 1]))
  }

  /** Neither end of what `strip()` returns is whitespace. */
  lemma StripIsStripped(s: string)
    ensures IsStripped(Strip(s))
  {
    var l := LStrip(s);
    var r := RStrip(l);
    LStripSpec(s);
    RStripSpec(l);
    if r != [] {
      assert r[0] == l[0];
    }
  }

  /** Only whitespace lies before index i and from index j on. */
  predicate SpaceOutside(s: string, i: int, j: int)
  {
    0 <= i <= j <= |s| &&
    (forall k | 0 <= k < i :: IsSpace(s[k])) &&
    (forall k | j <= k < |s| :: IsSpace(s[k]))
  }

  /**
   * `strip()` keeps exactly the block s[i..j] that lies between the leading
   * and the trailing whitespace.
   */
  lemma StripSpec(s: string)
    ensures exists i, j :: SpaceOutside(s, i, j) && Strip(s) == s[i..j]
  {
    var l := LStrip(s);
    var r := RStrip(l);
    LStripSpec(s);
    RStripSpec(l);
    var i := |s| - |l|;
    var j := i + |r|;
    assert l == s[i..];
    assert r == s[i..j];
    forall k | j <= k < |s|
      ensures IsSpace(s[k])
    {
      assert s[k] == l[k - i];
    }
    assert SpaceOutside(s, i, j);
  }

  /** Stripping a string that is already stripped changes nothing. */
  lemma StripStripped(s: string)
    requires IsStripped(s)
    ensures Strip(s) == s
  {
  }

  /** `s.rstrip('/')`: drops every trailing '/' and nothing else. */
  function RStripSlashes(s: string): (r: string)
    ensures |r| <= |s| && r == s[..|r|]
    ensures forall k | |r| <= k < |s| :: s[k] == '/'
    ensures r == [] || r[|r| - 1] != '/'
  {
    if |s| > 0 && s[|s| - 1] == '/' then RStripSlashes(s[..|s| - 1]) else s
  }

  /** `s.replace('\\', '/')`: every backslash becomes a slash. */
  function SlashBackslashes(s: string): (r: string)
    ensures |r| == |s|
    ensures forall k | 0 <= k < |s| :: r[k] == (if s[k] == '\\' then '/' else s[k])
  {
    seq(|s|, k requires 0 <= k < |s| => if s[k] == '\\' then '/' else s[k])
  }

  /** A string without backslashes is left alone. */
  lemma SlashFree(s: string)
    requires '\\' !in s
    ensures SlashBackslashes(s) == s
  {
  }

  /** After the replacement no backslash is left, so replacing again is a no-op. */
  lemma SlashBackslashesIdempotent(s: string)
    ensures '\\' !in SlashBackslashes(s)
    ensures SlashBackslashes(SlashBackslashes(s)) == SlashBackslashes(s)
  {
  }
}
