/**
 * The few Python `str` operations the modelled code relies on, over `seq<char>`:
 * `find`, `in`, `replace`, `rstrip('\n')`, `splitlines`, `'\n'.join`, `isspace`
 * and the ordering of `<` on strings.
 */
module PyStr {

  /** `pat` occurs in `s` starting at index `i`. */
  predicate OccursAt(s: string, pat: string, i: int)
  {
    0 <= i && i + |pat| <= |s| && s[i..i + |pat|] == pat
  }

  /** Python's `pat in s`. */
  predicate Contains(s: string, pat: string)
  {
    exists i | 0 <= i <= |s| :: OccursAt(s, pat, i)
  }

  /** The first occurrence of `pat` at or after `from`, or -1. */
  function FindFrom(s: string, pat: string, from: nat): (r: int)
    decreases |s| - from
    ensures r == -1 || (from <= r && OccursAt(s, pat, r))
    ensures r == -1 ==> forall j :: from <= j ==> !OccursAt(s, pat, j)
    ensures r >= 0 ==> forall j :: from <= j < r ==> !OccursAt(s, pat, j)
  {
    if from + |pat| > |s| then -1
    else if s[from..from + |pat|] == pat then from
    else FindFrom(s, pat, from + 1)
  }

  /** Python's `s.find(pat)`: the index of the first occurrence, or -1 when there is none. */
  function Find(s: string, pat: string): (r: int)
    ensures r == -1 <==> !Contains(s, pat)
    ensures r >= 0 ==> OccursAt(s, pat, r) && forall j :: 0 <= j < r ==> !OccursAt(s, pat, j)
  {
    FindFrom(s, pat, 0)
  }

  /** Python's `s.replace(pat, rep)` for a non-empty `pat`: every occurrence, left to right,
      without overlaps. */
  function ReplaceAll(s: string, pat: string, rep: string): (r: string)
    requires |pat| > 0
    decreases |s|
    ensures !Contains(s, pat) ==> r == s
  {
    var i := Find(s, pat);
    if i < 0 then s else s[..i] + rep + ReplaceAll(s[i + |pat|..], pat, rep)
  }

  /** Replacing a pattern whose only occurrence ends the text drops it. */
  lemma ReplaceAtEnd(pre: string, pat: string)
    requires |pat| > 0 && Find(pre + pat, pat) == |pre|
    ensures ReplaceAll(pre + pat, pat, "") == pre
  {
    var s := pre + pat;
    assert s[|pre| + |pat|..] == [];
    assert s[..|pre|] == pre;
  }

  /** Replacing a pattern that occurs exactly once swaps that occurrence and keeps the text
      on both sides of it. */
  lemma ReplaceOnce(pre: string, pat: string, post: string, rep: string)
    requires |pat| > 0 && Find(pre + pat + post, pat) == |pre| && !Contains(post, pat)
    ensures ReplaceAll(pre + pat + post, pat, rep) == pre + rep + post
  {
    var s := pre + pat + post;
    assert s[..|pre|] == pre;
    assert s[|pre| + |pat|..] == post;
  }

  /** Python's `s.rstrip('\n')`. */
  function RStripNewlines(s: string): (r: string)
    ensures |r| <= |s| && s[..|r|] == r
    ensures r == [] || r[|r| - 1] != '\n'
    ensures forall k :: |r| <= k < |s| ==> s[k] == '\n'
  {
    if |s| > 0 && s[|s| - 1] == '\n' then RStripNewlines(s[..|s| - 1]) else s
  }

  /** The characters `str.isspace()` accepts, which are also what `\s` matches in a `str` pattern. */
  predicate IsSpace(c: char)
  {
    var n := c as int;
    (0x09 <= n <= 0x0D) || (0x1C <= n <= 0x20) || n == 0x85 || n == 0xA0 || n == 0x1680
    || (0x2000 <= n <= 0x200A) || n == 0x2028 || n == 0x2029 || n == 0x202F || n == 0x205F
    || n == 0x3000
  }

  /** The line boundaries `str.splitlines()` splits on (`\r\n` counts as one, see SplitLines). */
  predicate IsLineBreak(c: char)
  {
    var n := c as int;
    n == 0x0A || n == 0x0B || n == 0x0C || n == 0x0D || n == 0x1C || n == 0x1D || n == 0x1E
    || n == 0x85 || n == 0x2028 || n == 0x2029
  }

  /** The index of the first line break at or after `from`, or `|s|`. */
  function FirstBreak(s: string, from: nat): (i: nat)
    requires from <= |s|
    decreases |s| - from
    ensures from <= i <= |s|
    ensures i < |s| ==> IsLineBreak(s[i])
    ensures forall k :: from <= k < i ==> !IsLineBreak(s[k])
  {
    if from == |s| || IsLineBreak(s[from]) then from else FirstBreak(s, from + 1)
  }

  /** Python's `s.splitlines()`: no trailing empty line, and `\r\n` is one boundary. */
  function SplitLines(s: string): (lines: seq<string>)
    decreases |s|
    ensures s != [] ==> |lines| > 0
  {
    var i := FirstBreak(s, 0);
    if i == |s| then (if s == [] then [] else [s])
    else [s[..i]] + SplitLines(s[LineAfter(s, i)..])
  }

  /** Where the line after the break at `i` starts: `\r\n` is one break. */
  function LineAfter(s: string, i: nat): (next: nat)
    requires i < |s|
    ensures i < next <= |s|
  {
    if s[i] == '\r' && i + 1 < |s| && s[i + 1] == '\n' then i + 2 else i + 1
  }

  /** Python's `sep.join(parts)`. */
  function Join(parts: seq<string>, sep: string): string
  {
    if |parts| == 0 then ""
    else if |parts| == 1 then parts[0]
    else parts[0] + sep + Join(parts[1..], sep)
  }

  /** Splitting at a first break that is `\n`. */
  lemma SplitLinesAtNewline(s: string, i: nat)
    requires i < |s| && i == FirstBreak(s, 0) && s[i] == '\n'
    ensures SplitLines(s) == [s[..i]] + SplitLines(s[i + 1..])
  {
  }

  /** Joining a line in front of a non-empty list of lines. */
  lemma JoinCons(line: string, lines: seq<string>, sep: string)
    requires |lines| > 0
    ensures Join([line] + lines, sep) == line + sep + Join(lines, sep)
  {
    assert ([line] + lines)[1..] == lines;
  }

  /** The only line boundary character in `s` is `\n`. */
  predicate NewlineBreaksOnly(s: string)
  {
    forall k :: 0 <= k < |s| ==> s[k] == '\n' || !IsLineBreak(s[k])
  }

  lemma NewlineBreaksOnlySuffix(s: string, i: nat)
    requires NewlineBreaksOnly(s) && i <= |s|
    ensures NewlineBreaksOnly(s[i..])
  {
    var rest := s[i..];
    forall k | 0 <= k < |rest| ensures rest[k] == '\n' || !IsLineBreak(rest[k]) {
      assert rest[k] == s[i + k];
    }
  }

  /** One line in front of lines that join back to the rest of the text. */
  lemma JoinSplitStep(s: string, i: nat, joined: string)
    requires i < |s| && i == FirstBreak(s, 0) && s[i] == '\n' && i + 1 < |s|
    requires Join(SplitLines(s[i + 1..]), "\n") == joined
    ensures Join(SplitLines(s), "\n") == s[..i] + "\n" + joined
  {
    var head, rest := s[..i], s[i + 1..];
    var lines := SplitLines(rest);
    assert |lines| > 0;
    SplitLinesAtNewline(s, i);
    JoinCons(head, lines, "\n");
  }

  /** A text whose only line break is its last character is one line. */
  lemma SplitLinesLastBreak(s: string, i: nat)
    requires i < |s| && i == FirstBreak(s, 0) && s[i] == '\n' && i + 1 == |s|
    ensures Join(SplitLines(s), "\n") == s[..|s| - 1]
  {
    SplitLinesAtNewline(s, i);
    assert SplitLines(s[i + 1..]) == [];
  }

  /** The final `\n` is dropped by the rest of the text exactly when it is dropped by the text. */
  lemma DropLastNewline(s: string, i: nat)
    requires i + 1 < |s|
    ensures var rest := s[i + 1..];
      (if s[|s| - 1] == '\n' then s[..|s| - 1] else s) ==
      s[..i] + [s[i]] + (if rest[|rest| - 1] == '\n' then rest[..|rest| - 1] else rest)
  {
    assert s == s[..i] + [s[i]] + s[i + 1..];
  }

  /** Splitting a text whose only line breaks are `\n` and joining the lines with `\n` gives the
      text back, except for one final `\n`, which `splitlines` does not report as an empty line. */
  lemma {:induction false} JoinSplitLines(s: string)
    requires NewlineBreaksOnly(s)
    ensures Join(SplitLines(s), "\n") == if s != [] && s[|s| - 1] == '\n' then s[..|s| - 1] else s
    decreases |s|
  {
    var i := FirstBreak(s, 0);
    if i < |s| {
      assert s[i] == '\n';
      if i + 1 == |s| {
        SplitLinesLastBreak(s, i);
      } else {
        var rest := s[i + 1..];
        NewlineBreaksOnlySuffix(s, i + 1);
        JoinSplitLines(rest);
        var joined := if rest[|rest| - 1] == '\n' then rest[..|rest| - 1] else rest;
        JoinSplitStep(s, i, joined);
        DropLastNewline(s, i);
      }
    } else if s != [] {
      assert SplitLines(s) == [s];
    }
  }

  /** An occurrence inside a slice is an occurrence in the whole text. */
  lemma OccursInSlice(s: string, a: nat, b: nat, pat: string, j: nat)
    requires a <= b <= |s| && OccursAt(s[a..b], pat, j)
    ensures OccursAt(s, pat, a + j) && a + j + |pat| <= b
  {
    assert j + |pat| <= b - a;
    forall k | 0 <= k < |pat| ensures s[a + j + k] == pat[k] {
      assert s[a..b][j..j + |pat|][k] == pat[k];
    }
    assert s[a + j..a + j + |pat|] == pat;
  }

  /** A piece of a concatenation occurs where it was put. */
  lemma OccursAtJoin(a: string, pat: string, b: string)
    ensures OccursAt(a + pat + b, pat, |a|)
  {
    assert (a + pat + b)[|a|..|a| + |pat|] == pat;
  }

  /** A slice of a text without `pat` holds no `pat` either. */
  lemma NotContainsSlice(s: string, a: nat, b: nat, pat: string)
    requires a <= b <= |s| && !Contains(s, pat)
    ensures !Contains(s[a..b], pat)
  {
    if Contains(s[a..b], pat) {
      var j :| 0 <= j <= |s[a..b]| && OccursAt(s[a..b], pat, j);
      OccursInSlice(s, a, b, pat, j);
    }
  }

  /** One step of `SplitLines`: the first line, then the lines after its break. */
  lemma SplitLinesStep(s: string) returns (i: nat, next: nat)
    requires FirstBreak(s, 0) < |s|
    ensures i == FirstBreak(s, 0) && i < next <= |s|
    ensures SplitLines(s) == [s[..i]] + SplitLines(s[next..])
  {
    i := FirstBreak(s, 0);
    next := LineAfter(s, i);
  }

  /** A text without `pat` has no line holding `pat`. */
  lemma {:induction false} SplitLinesWithout(s: string, pat: string)
    requires !Contains(s, pat)
    ensures forall k :: 0 <= k < |SplitLines(s)| ==> !Contains(SplitLines(s)[k], pat)
    decreases |s|
  {
    if FirstBreak(s, 0) < |s| {
      var i, next := SplitLinesStep(s);
      NotContainsSlice(s, 0, i, pat);
      NotContainsSlice(s, next, |s|, pat);
      assert s[next..|s|] == s[next..];
      SplitLinesWithout(s[next..], pat);
    } else if s != [] {
      assert SplitLines(s) == [s];
    }
  }

  /** The index of the first `c` in `s`, or `|s|` when there is none. */
  function CharIndex(s: string, c: char): (i: nat)
    ensures i <= |s| && (i < |s| ==> s[i] == c)
    ensures forall k :: 0 <= k < i ==> s[k] != c
  {
    if s == [] || s[0] == c then 0 else 1 + CharIndex(s[1..], c)
  }

  /** Python's `s.split(sep)` for a separator of one character. */
  function Split(s: string, sep: char): (parts: seq<string>)
    decreases |s|
    ensures |parts| > 0
  {
    var i := CharIndex(s, sep);
    if i == |s| then [s] else [s[..i]] + Split(s[i + 1..], sep)
  }

  /** Joining the parts with the separator gives the text back, and no part holds the
      separator. */
  lemma {:induction false} SplitJoin(s: string, sep: char)
    ensures Join(Split(s, sep), [sep]) == s
    ensures forall k :: 0 <= k < |Split(s, sep)| ==> sep !in Split(s, sep)[k]
    decreases |s|
  {
    var i := CharIndex(s, sep);
    if i < |s| {
      var rest := s[i + 1..];
      SplitJoin(rest, sep);
      JoinCons(s[..i], Split(rest, sep), [sep]);
      assert s == s[..i] + [sep] + rest;
      assert sep !in s[..i];
    }
  }

  /** Splitting two separator-free texts put together with one separator. */
  lemma SplitTwo(a: string, b: string, sep: char)
    requires sep !in a && sep !in b
    ensures Split(a + [sep] + b, sep) == [a, b]
  {
    var s := a + [sep] + b;
    assert s[|a|] == sep;
    assert s[..|a|] == a && s[|a| + 1..] == b;
  }

  /** Python's `a <= b` on strings: lexicographic order of code points. */
  predicate StrLe(a: string, b: string)
    decreases |a|
  {
    |a| == 0 || (|b| > 0 && (a[0] < b[0] || (a[0] == b[0] && StrLe(a[1..], b[1..]))))
  }

  lemma StrLeTotal(a: string, b: string)
    ensures StrLe(a, b) || StrLe(b, a)
    decreases |a|
  {
    if |a| > 0 && |b| > 0 && a[0] == b[0] { StrLeTotal(a[1..], b[1..]); }
  }

  lemma StrLeTransitive(a: string, b: string, c: string)
    requires StrLe(a, b) && StrLe(b, c)
    ensures StrLe(a, c)
    decreases |a|
  {
    if |a| > 0 && a[0] == b[0] && b[0] == c[0] { StrLeTransitive(a[1..], b[1..], c[1..]); }
  }

  lemma StrLeAntisymmetric(a: string, b: string)
    requires StrLe(a, b) && StrLe(b, a)
    ensures a == b
    decreases |a|
  {
    if |a| > 0 {
      StrLeAntisymmetric(a[1..], b[1..]);
      assert a == [a[0]] + a[1..] && b == [b[0]] + b[1..];
    }
  }

  /** Strings with a common prefix compare as what follows it. */
  lemma {:induction false} StrLeCommonPrefix(p: string, a: string, b: string)
    ensures StrLe(p + a, p + b) == StrLe(a, b)
    decreases |p|
  {
    if |p| > 0 {
      assert (p + a)[1..] == p[1..] + a && (p + b)[1..] == p[1..] + b;
      StrLeCommonPrefix(p[1..], a, b);
    } else {
      assert p + a == a && p + b == b;
    }
  }
}
