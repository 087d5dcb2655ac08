/**
 * The behaviour of the Python `str` operations that the documentation
 * generator relies on: `startswith`, `strip`/`lstrip` with and without an
 * argument, `replace`, `join`, `splitlines`, `isspace` and the ordering used
 * by `sorted`. Strings are sequences of code points, as in Python 3.
 */
module PyStr {

  predicate StartsWith(s: string, prefix: string) {
    |prefix| <= |s| && s[..|prefix|] == prefix
  }

  predicate EndsWith(s: string, suffix: string) {
    |suffix| <= |s| && s[|s| - |suffix|..] == suffix
  }

  /** `p` occurs in `s` starting at index `i`. */
  predicate OccursAt(s: string, pat: string, i: nat) {
    i + |pat| <= |s| && s[i..i + |pat|] == pat
  }

  predicate Contains(s: string, pat: string) {
    exists i: nat | i <= |s| :: OccursAt(s, pat, i)
  }

  // ---------------------------------------------------------------------
  // Whitespace and line boundaries

  /** `c.isspace()`: the characters Python treats as whitespace. */
  predicate IsSpace(c: char) {
    || '\t' <= c <= '\r'                      // \t \n \v \f \r
    || '\U{1c}' <= c <= ' '                   // the four separators and the space
    || c == '\U{85}' || c == '\U{a0}' || c == '\U{1680}'
    || '\U{2000}' <= c <= '\U{200a}'
    || c == '\U{2028}' || c == '\U{2029}' || c == '\U{202f}' || c == '\U{205f}' || c == '\U{3000}'
  }

  /** The characters at which `str.splitlines` ends a line (`\r\n` counts once). */
  predicate IsLineBreak(c: char) {
    || c == '\n' || c == '\r' || c == '\U{0b}' || c == '\U{0c}'
    || c == '\U{1c}' || c == '\U{1d}' || c == '\U{1e}'
    || c == '\U{85}' || c == '\U{2028}' || c == '\U{2029}'
  }

  predicate NoLineBreak(s: string) {
    forall k :: 0 <= k < |s| ==> !IsLineBreak(s[k])
  }

  /** `not s.strip()`: the line holds whitespace only. */
  predicate IsBlank(s: string) {
    forall k :: 0 <= k < |s| ==> IsSpace(s[k])
  }

  /** `len(s) - len(s.lstrip())`: the number of leading whitespace characters. */
  function LeadingSpace(s: string): (n: nat)
    ensures n <= |s|
    ensures forall k :: 0 <= k < n ==> IsSpace(s[k])
    ensures n < |s| ==> !IsSpace(s[n])
  {
    if s == [] || !IsSpace(s[0]) then 0 else 1 + LeadingSpace(s[1..])
  }

  /** Index of the first line boundary of `s`, or `|s|` when there is none. */
  function LineEnd(s: string): (i: nat)
    ensures i <= |s|
    ensures forall k :: 0 <= k < i ==> !IsLineBreak(s[k])
    ensures i < |s| ==> IsLineBreak(s[i])
  {
    if s == [] || IsLineBreak(s[0]) then 0 else 1 + LineEnd(s[1..])
  }

  /**
   * `s.splitlines()`: the lines of `s` without their boundaries; a boundary
   * at the very end does not start an extra empty line.
   */
  function SplitLines(s: string): (lines: seq<string>)
    ensures forall k :: 0 <= k < |lines| ==> NoLineBreak(lines[k])
    ensures s == [] <==> lines == []
    decreases |s|
  {
    if s == [] then []
    else
      var i := LineEnd(s);
      if i == |s| then [s]
      else
        var next := if s[i] == '\r' && i + 1 < |s| && s[i + 1] == '\n' then i + 2 else i + 1;
        [s[..i]] + SplitLines(s[next..])
  }

  // ---------------------------------------------------------------------
  // join, strip, replace

  /** `sep.join(xs)`. */
  function Join(sep: string, xs: seq<string>): string
  {
    if |xs| == 0 then ""
    else if |xs| == 1 then xs[0]
    else xs[0] + sep + Join(sep, xs[1..])
  }

  /** The first index at or after `i` where `s` holds something other than `c`, or `|s|`. */
  function SkipForward(s: string, c: char, i: nat): (j: nat)
    requires i <= |s|
    ensures i <= j <= |s|
    ensures forall k :: i <= k < j ==> s[k] == c
    ensures j == |s| || s[j] != c
    decreases |s| - i
  {
    if i < |s| && s[i] == c then SkipForward(s, c, i + 1) else i
  }

  /** The end of the text before index `j` once the copies of `c` just before `j` are dropped. */
  function SkipBackward(s: string, c: char, j: nat): (i: nat)
    requires j <= |s|
    ensures i <= j
    ensures forall k :: i <= k < j ==> s[k] == c
    ensures i == 0 || s[i - 1] != c
  {
    if j > 0 && s[j - 1] == c then SkipBackward(s, c, j - 1) else j
  }

  /** `s.lstrip(c)` for a single character `c`. */
  function StripLeft(s: string, c: char): (r: string)
    ensures |r| <= |s| && r == s[|s| - |r|..]
    ensures forall k :: 0 <= k < |s| - |r| ==> s[k] == c
    ensures r == [] || r[0] != c
  {
    s[SkipForward(s, c, 0)..]
  }

  /** `s.rstrip(c)` for a single character `c`. */
  function StripRight(s: string, c: char): (r: string)
    ensures |r| <= |s| && r == s[..|r|]
    ensures forall k :: |r| <= k < |s| ==> s[k] == c
    ensures r == [] || r[|r| - 1] != c
  {
    s[..SkipBackward(s, c, |s|)]
  }

  /** `s.strip(c)` for a single character `c`. */
  function Strip(s: string, c: char): string {
    StripRight(StripLeft(s, c), c)
  }

  /**
   * `s.replace(pat, rep)`: occurrences of `pat` are found left to right,
   * without overlap, and each is replaced once; the text `rep` brings in is
   * not searched again.
   */
  function Replace(s: string, pat: string, rep: string): string
    requires pat != []
    decreases |s|
  {
    if |s| < |pat| then s
    else if s[..|pat|] == pat then rep + Replace(s[|pat|..], pat, rep)
    else [s[0]] + Replace(s[1..], pat, rep)
  }

  // ---------------------------------------------------------------------
  // Ordering of str values, as used by `sorted`

  /** `a < b` on Python strings: lexicographic by code point. */
  predicate Below(a: string, b: string) {
    if a == [] then b != []
    else if b == [] then false
    else if a[0] != b[0] then a[0] < b[0]
    else Below(a[1..], b[1..])
  }

  predicate StrictlySorted(s: seq<string>) {
    forall i, j :: 0 <= i < j < |s| ==> Below(s[i], s[j])
  }

  lemma {:induction false} BelowTransitive(a: string, b: string, c: string)
    requires Below(a, b) && Below(b, c)
    ensures Below(a, c)
  {
    if a != [] && a[0] == b[0] && b[0] == c[0] {
      BelowTransitive(a[1..], b[1..], c[1..]);
    }
  }

  lemma {:induction false} BelowTotal(a: string, b: string)
    requires a != b
    ensures Below(a, b) || Below(b, a)
  {
    if a != [] && b != [] && a[0] == b[0] {
      assert a == [a[0]] + a[1..] && b == [b[0]] + b[1..];
      BelowTotal(a[1..], b[1..]);
    }
  }

  /** Inserts a name that is not yet present into a strictly sorted list of names. */
  function Insert(s: seq<string>, x: string): (r: seq<string>)
    requires StrictlySorted(s) && x !in s
    ensures StrictlySorted(r)
    ensures forall y :: y in r <==> y in s || y == x
    ensures |r| == |s| + 1
  {
    if s == [] then [x]
    else if Below(x, s[0]) then
      forall j | 0 < j < |s| ensures Below(x, s[j]) {
        BelowTransitive(x, s[0], s[j]);
      }
      [x] + s
    else
      BelowTotal(x, s[0]);
      var t := Insert(s[1..], x);
      assert forall y :: y in t ==> Below(s[0], y) by {
        forall y | y in t ensures Below(s[0], y) {
          if y != x {
            var j :| 0 <= j < |s[1..]| && s[1..][j] == y;
            assert s[j + 1] == y;
          }
        }
      }
      [s[0]] + t
  }

  // ---------------------------------------------------------------------
  // Lemmas connecting the operations

  /**
   * `strip` removes only copies of `c`, from both ends, and keeps the middle
   * of the string: what is left neither starts nor ends with `c`.
   */
  lemma {:induction false} StripKeepsMiddle(s: string, c: char)
    ensures var r := Strip(s, c);
      r == [] || (r[0] != c && r[|r| - 1] != c)
    ensures var r := Strip(s, c);
      var i := |s| - |StripLeft(s, c)|;
      && i + |r| <= |s| && r == s[i..i + |r|]
      && (forall k :: 0 <= k < i ==> s[k] == c)
      && (forall k :: i + |r| <= k < |s| ==> s[k] == c)
  {
    PrefixOfSuffix(s, StripLeft(s, c), Strip(s, c), c);
  }

  /**
   * A prefix `r` of a suffix `left` of `s`, where `c` fills the gaps on both
   * sides, is a slice of `s` surrounded by copies of `c`.
   */
  lemma {:induction false} PrefixOfSuffix(s: string, left: string, r: string, c: char)
    requires |left| <= |s| && left == s[|s| - |left|..]
    requires forall k :: 0 <= k < |s| - |left| ==> s[k] == c
    requires |r| <= |left| && r == left[..|r|]
    requires forall k :: |r| <= k < |left| ==> left[k] == c
    requires left == [] || left[0] != c
    requires r == [] || r[|r| - 1] != c
    ensures r == [] || (r[0] != c && r[|r| - 1] != c)
    ensures var i := |s| - |left|;
      && i + |r| <= |s| && r == s[i..i + |r|]
      && (forall k :: 0 <= k < i ==> s[k] == c)
      && (forall k :: i + |r| <= k < |s| ==> s[k] == c)
  {
    var i := |s| - |left|;
    forall k | i + |r| <= k < |s| ensures s[k] == c {
      assert s[k] == left[k - i];
    }
  }

  /** A string that neither starts nor ends with `c` is left as it is by all three strips. */
  lemma {:induction false} StripUnchanged(s: string, c: char)
    requires s == [] || (s[0] != c && s[|s| - 1] != c)
    ensures Strip(s, c) == s
  {
    assert SkipForward(s, c, 0) == 0;
    assert SkipBackward(s, c, |s|) == |s|;
    assert s[0..] == s && s[..|s|] == s;
  }

  lemma {:induction false} EndsWithConcat(front: string, back: string)
    ensures EndsWith(front + back, back)
  {
    assert (front + back)[|front|..] == back;
  }

  /** Joining with a line boundary and splitting again gives the same lines back. */
  lemma {:induction false} SplitLinesJoin(lines: seq<string>)
    requires lines != [] && lines[|lines| - 1] != []
    requires forall k :: 0 <= k < |lines| ==> NoLineBreak(lines[k])
    ensures SplitLines(Join("\n", lines)) == lines
  {
    var s := Join("\n", lines);
    if |lines| == 1 {
      assert s == lines[0];
      assert LineEnd(s) == |s|;
    } else {
      var rest := Join("\n", lines[1..]);
      assert s == lines[0] + "\n" + rest;
      assert lines[1..] != [] && lines[1..][|lines[1..]| - 1] != [];
      SplitLinesAfterLine(lines[0], rest);
      SplitLinesJoin(lines[1..]);
      assert lines == [lines[0]] + lines[1..];
    }
  }

  /** A line followed by `\n` is split off as the first line. */
  lemma {:induction false} SplitLinesAfterLine(line: string, rest: string)
    requires NoLineBreak(line)
    ensures SplitLines(line + "\n" + rest) == [line] + SplitLines(rest)
  {
    var s := line + "\n" + rest;
    var n := |line|;
    assert s[n] == '\n';
    assert LineEnd(s) == n by {
      forall k | 0 <= k < n ensures !IsLineBreak(s[k]) {
        assert s[k] == line[k];
      }
    }
    assert s[..n] == line;
    assert s[n + 1..] == rest;
  }

  /** A string with no occurrence of the pattern is left as it is. */
  lemma {:induction false} ReplaceAbsent(s: string, pat: string, rep: string)
    requires pat != []
    requires !Contains(s, pat)
    ensures Replace(s, pat, rep) == s
    decreases |s|
  {
    if |s| >= |pat| {
      assert !OccursAt(s, pat, 0);
      assert s[..|pat|] != pat;
      forall i: nat | i <= |s[1..]| ensures !OccursAt(s[1..], pat, i) {
        assert !OccursAt(s, pat, i + 1);
        if i + |pat| <= |s[1..]| {
          assert s[1..][i..i + |pat|] == s[i + 1..i + 1 + |pat|];
        }
      }
      ReplaceAbsent(s[1..], pat, rep);
      assert s == [s[0]] + s[1..];
    }
  }

  /** A leading occurrence is replaced, and the search continues right after it. */
  lemma {:induction false} ReplaceLeading(s: string, pat: string, rep: string)
    requires pat != []
    ensures Replace(pat + s, pat, rep) == rep + Replace(s, pat, rep)
  {
    assert (pat + s)[..|pat|] == pat;
    assert (pat + s)[|pat|..] == s;
  }

  /**
   * The first occurrence of `pat` in `a + pat + b` is the one after `a`: the
   * text before it is kept, the occurrence is replaced and the search resumes
   * in `b`.
   */
  lemma {:induction false} ReplaceAt(a: string, pat: string, b: string, rep: string)
    requires pat != []
    requires forall i: nat | i < |a| :: !OccursAt(a + pat + b, pat, i)
    ensures Replace(a + pat + b, pat, rep) == a + rep + Replace(b, pat, rep)
    decreases |a|
  {
    var s := a + pat + b;
    if a == [] {
      assert s == pat + b;
      ReplaceLeading(b, pat, rep);
    } else {
      var tail := a[1..] + pat + b;
      assert s == [a[0]] + tail;
      assert s[..|pat|] != pat by { assert !OccursAt(s, pat, 0); }
      assert Replace(s, pat, rep) == [a[0]] + Replace(tail, pat, rep);
      forall i: nat | i < |a[1..]| ensures !OccursAt(tail, pat, i) {
        assert !OccursAt(s, pat, i + 1);
        assert s[i + 1..i + 1 + |pat|] == tail[i..i + |pat|];
      }
      ReplaceAt(a[1..], pat, b, rep);
      assert a == [a[0]] + a[1..];
    }
  }
}
