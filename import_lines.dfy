/**
 * `remove_import_lines`: `re.sub` of `^from\s+your_module\s+import\s+\w+(\s+#.*)?$` by the empty
 * string in multi-line mode, written out as a scanner. None of the repeated parts of the pattern
 * can give characters back to let the rest match, so each takes its longest run, and the whole
 * match is found without backtracking.
 */
module ImportLines {
  import opened Wrappers
  import opened PyStr

  const FromWord: string := "from"
  const ModuleWord: string := "your_module"
  const ImportWord: string := "import"

  /** The characters `\w` matches, restricted to ASCII. */
  predicate IsWordChar(c: char)
  {
    ('a' <= c <= 'z') || ('A' <= c <= 'Z') || ('0' <= c <= '9') || c == '_'
  }

  /** The end of the run of whitespace (`\s`) starting at `i`. */
  function SpaceEnd(t: string, i: nat): (j: nat)
    requires i <= |t|
    decreases |t| - i
    ensures i <= j <= |t|
  {
    if i == |t| || !IsSpace(t[i]) then i else SpaceEnd(t, i + 1)
  }

  /** The end of the run of word characters (`\w`) starting at `i`. */
  function WordEnd(t: string, i: nat): (j: nat)
    requires i <= |t|
    decreases |t| - i
    ensures i <= j <= |t|
  {
    if i == |t| || !IsWordChar(t[i]) then i else WordEnd(t, i + 1)
  }

  /** The index of the first `\n` at or after `i`, or the end of the text: where `.*` stops. */
  function LineEnd(t: string, i: nat): (j: nat)
    requires i <= |t|
    decreases |t| - i
    ensures i <= j <= |t| && (j == |t| || t[j] == '\n')
  {
    if i == |t| || t[i] == '\n' then i else LineEnd(t, i + 1)
  }

  /** Where the imported name starts, when `t` starts with `from\s+your_module\s+import\s+`. */
  function HeaderEnd(t: string): (r: Option<nat>)
    ensures r.Some? ==> OccursAt(t, FromWord, 0) && 4 < r.value <= |t|
  {
    if !OccursAt(t, FromWord, 0) then None
    else
      var a := SpaceEnd(t, 4);
      if a == 4 || !OccursAt(t, ModuleWord, a) then None
      else
        var b := SpaceEnd(t, a + 11);
        if b == a + 11 || !OccursAt(t, ImportWord, b) then None
        else
          var c := SpaceEnd(t, b + 6);
          if c == b + 6 then None else Some(c)
  }

  /** Where a match ends whose name ends at `d`: the optional comment `\s+#.*` is tried first
      (its blank run may cross line ends), then `$` needs a line end or the end of the text. */
  function TailEnd(t: string, d: nat): (r: Option<nat>)
    requires d <= |t|
    ensures r.Some? ==> d <= r.value <= |t| && (r.value == |t| || t[r.value] == '\n')
  {
    var h := SpaceEnd(t, d);
    if d < h < |t| && t[h] == '#' then Some(LineEnd(t, h + 1))
    else if d == |t| || t[d] == '\n' then Some(d)
    else None
  }

  /** The length of the match at the start of `t`, where `atLineStart` says whether `^` holds. */
  function MatchImport(t: string, atLineStart: bool): (r: Option<nat>)
    ensures r.Some? ==> atLineStart && OccursAt(t, FromWord, 0) && 4 < r.value <= |t|
    ensures r.Some? ==> r.value == |t| || t[r.value] == '\n'
  {
    if !atLineStart then None
    else match HeaderEnd(t)
      case None => None
      case Some(c) =>
        var d := WordEnd(t, c);
        if d == c then None else TailEnd(t, d)
  }

  /** The substitution over `t`, left to right, resuming behind each match. */
  function RemoveFrom(t: string, atLineStart: bool): (r: string)
    decreases |t|
    ensures |r| <= |t|
  {
    if t == [] then []
    else match MatchImport(t, atLineStart)
      case Some(n) => RemoveFrom(t[n..], t[n - 1] == '\n')
      case None => [t[0]] + RemoveFrom(t[1..], t[0] == '\n')
  }

  /** `remove_import_lines`. */
  function RemoveImportLines(code: string): string
  {
    RemoveFrom(code, true)
  }

  /** A text without `from` is left as it is. */
  lemma {:induction false} RemoveFromWithoutFrom(t: string, atLineStart: bool)
    requires !Contains(t, FromWord)
    ensures RemoveFrom(t, atLineStart) == t
    decreases |t|
  {
    if t != [] {
      assert !OccursAt(t, FromWord, 0);
      NotContainsSlice(t, 1, |t|, FromWord);
      assert t[1..|t|] == t[1..];
      RemoveFromWithoutFrom(t[1..], t[0] == '\n');
    }
  }

  /** A line that does not start with `from` is no match, whatever follows its line end. */
  lemma NoFromNoMatch(line: string, rest: string)
    requires forall k :: 0 <= k < |line| ==> line[k] != '\n'
    requires !OccursAt(line, FromWord, 0)
    ensures MatchImport(line + "\n" + rest, true) == None
  {
    var t := line + "\n" + rest;
    if |line| >= 4 {
      assert t[..4] == line[..4];
    } else {
      assert t[|line|] == '\n' != FromWord[|line|];
    }
  }

  /** The characters of a line at whose start no match begins are all kept. */
  lemma {:induction false} LineKeptFrom(line: string, rest: string, atLineStart: bool)
    requires forall k :: 0 <= k < |line| ==> line[k] != '\n'
    requires atLineStart ==> MatchImport(line + "\n" + rest, true) == None
    ensures RemoveFrom(line + "\n" + rest, atLineStart) == line + "\n" + RemoveFrom(rest, true)
    decreases |line|
  {
    var t := line + "\n" + rest;
    RemoveFromNoMatch(t, atLineStart);
    var r := RemoveFrom(rest, true);
    if line == [] {
      assert t[1..] == rest && [t[0]] == "\n" && line + "\n" + r == "\n" + r;
    } else {
      assert t[0] == line[0] != '\n' && t[1..] == line[1..] + "\n" + rest;
      LineKeptFrom(line[1..], rest, false);
      ConsConcat(line, "\n" + r);
    }
  }

  lemma ConsConcat(line: string, more: string)
    requires line != []
    ensures [line[0]] + (line[1..] + more) == line + more
  {
  }

  /** Where no match starts, the first character is kept and the scan moves on by one. */
  lemma RemoveFromNoMatch(t: string, atLineStart: bool)
    requires t != [] && MatchImport(t, atLineStart) == None
    ensures RemoveFrom(t, atLineStart) == [t[0]] + RemoveFrom(t[1..], t[0] == '\n')
  {
  }

  /** A line at whose start no match begins is kept, together with its line end, and the
      substitution goes on with the next line. */
  lemma LineKept(line: string, rest: string)
    requires forall k :: 0 <= k < |line| ==> line[k] != '\n'
    requires MatchImport(line + "\n" + rest, true) == None
    ensures RemoveImportLines(line + "\n" + rest) == line + "\n" + RemoveImportLines(rest)
  {
    LineKeptFrom(line, rest, true);
  }

  /** The characters of a last line at whose start no match begins are all kept. */
  lemma {:induction false} LastLineKeptFrom(line: string, atLineStart: bool)
    requires forall k :: 0 <= k < |line| ==> line[k] != '\n'
    requires atLineStart ==> MatchImport(line, true) == None
    ensures RemoveFrom(line, atLineStart) == line
    decreases |line|
  {
    if line != [] {
      RemoveFromNoMatch(line, atLineStart);
      LastLineKeptFrom(line[1..], false);
    }
  }

  /** A last line, without a line end, at whose start no match begins is kept. */
  lemma LastLineKept(line: string)
    requires forall k :: 0 <= k < |line| ==> line[k] != '\n'
    requires MatchImport(line, true) == None
    ensures RemoveImportLines(line) == line
  {
    LastLineKeptFrom(line, true);
  }

  /** Every character of a whitespace run is whitespace. */
  lemma {:induction false} SpaceRun(t: string, i: nat)
    requires i <= |t|
    ensures forall k :: i <= k < SpaceEnd(t, i) ==> IsSpace(t[k])
    decreases |t| - i
  {
    if i < |t| && IsSpace(t[i]) {
      SpaceRun(t, i + 1);
    }
  }

  /** A run of whitespace ended by other text or by the end. */
  lemma {:induction false} SpaceEndOfRun(t: string, i: nat, j: nat)
    requires i <= j <= |t| && (j == |t| || !IsSpace(t[j]))
    requires forall k :: i <= k < j ==> IsSpace(t[k])
    ensures SpaceEnd(t, i) == j
    decreases j - i
  {
    if i < j {
      SpaceEndOfRun(t, i + 1, j);
    }
  }

  /** A match starts with `from`, whitespace, `your_module`, whitespace, `import` and
      whitespace, each run non-empty, and goes on past them. */
  lemma MatchImportHeader(t: string)
    requires MatchImport(t, true).Some?
    ensures OccursAt(t, FromWord, 0)
    ensures exists a: nat, b: nat ::
      && 4 < a && a + 11 < b && b + 6 < MatchImport(t, true).value
      && (forall k :: 4 <= k < a ==> IsSpace(t[k])) && OccursAt(t, ModuleWord, a)
      && (forall k :: a + 11 <= k < b ==> IsSpace(t[k])) && OccursAt(t, ImportWord, b)
      && IsSpace(t[b + 6])
  {
    var a := SpaceEnd(t, 4);
    var b := SpaceEnd(t, a + 11);
    var c := SpaceEnd(t, b + 6);
    assert HeaderEnd(t) == Some(c);
    SpaceRun(t, 4);
    SpaceRun(t, a + 11);
    SpaceRun(t, b + 6);
    assert c <= WordEnd(t, c);
  }

  /** A `from` line naming another module than `your_module`, such as
      `from typing import List`, is no match. */
  lemma OtherModuleNoMatch(blanks: string, other: string, rest: string)
    requires |blanks| > 0 && forall k :: 0 <= k < |blanks| ==> IsSpace(blanks[k]) && blanks[k] != '\n'
    requires other != [] && !IsSpace(other[0]) && forall k :: 0 <= k < |other| ==> other[k] != '\n'
    requires !OccursAt(other, ModuleWord, 0)
    ensures MatchImport(FromWord + blanks + other + "\n" + rest, true) == None
  {
    var t := FromWord + blanks + other + "\n" + rest;
    var a := 4 + |blanks|;
    forall k | 4 <= k < a ensures IsSpace(t[k]) {
      assert t[k] == blanks[k - 4];
    }
    assert t[a] == other[0];
    SpaceEndOfRun(t, 4, a);
    if |other| >= 11 {
      assert t[a..a + 11] == other[..11];
    } else {
      assert t[a + |other|] == '\n' != ModuleWord[|other|];
      assert t[a..a + |other|] == other;
    }
    assert !OccursAt(t, ModuleWord, a);
  }

  /** Such a line is kept, and the substitution goes on with the next line. */
  lemma OtherModuleLineKept(blanks: string, other: string, rest: string)
    requires |blanks| > 0 && forall k :: 0 <= k < |blanks| ==> IsSpace(blanks[k]) && blanks[k] != '\n'
    requires other != [] && !IsSpace(other[0]) && forall k :: 0 <= k < |other| ==> other[k] != '\n'
    requires !OccursAt(other, ModuleWord, 0)
    ensures RemoveImportLines(FromWord + blanks + other + "\n" + rest)
      == FromWord + blanks + other + "\n" + RemoveImportLines(rest)
  {
    var line := FromWord + blanks + other;
    OtherModuleNoMatch(blanks, other, rest);
    forall k | 0 <= k < |line| ensures line[k] != '\n' {
      if k >= 4 + |blanks| {
        assert line[k] == other[k - 4 - |blanks|];
      } else if k >= 4 {
        assert line[k] == blanks[k - 4];
      }
    }
    LineKept(line, rest);
  }

  /** `from typing import List` is kept. */
  lemma TypingImportKept(rest: string)
    ensures RemoveImportLines(FromWord + " " + "typing import List" + "\n" + rest)
      == FromWord + " " + "typing import List" + "\n" + RemoveImportLines(rest)
  {
    var other := "typing import List";
    assert !OccursAt(other, ModuleWord, 0) by {
      assert other[0] != ModuleWord[0];
    }
    OtherModuleLineKept(" ", other, rest);
  }

  /** The plain import line for `name`, with single blanks. */
  function ImportLine(name: string): string
  {
    FromWord + " " + ModuleWord + " " + ImportWord + " " + name
  }

  /** The three keywords of an import line sit where they were put. */
  lemma ImportLineKeywords(name: string, rest: string)
    ensures var t := ImportLine(name) + rest;
      OccursAt(t, FromWord, 0) && OccursAt(t, ModuleWord, 5) && OccursAt(t, ImportWord, 17)
  {
    var t := ImportLine(name) + rest;
    var m := " " + ImportWord + " " + name + rest;
    assert OccursAt(t, FromWord, 0) by {
      assert t == [] + FromWord + (" " + ModuleWord + m);
      OccursAtJoin([], FromWord, " " + ModuleWord + m);
    }
    assert OccursAt(t, ModuleWord, 5) by {
      assert t == FromWord + " " + ModuleWord + m;
      OccursAtJoin(FromWord + " ", ModuleWord, m);
    }
    assert OccursAt(t, ImportWord, 17) by {
      var p := FromWord + " " + ModuleWord + " ";
      assert t == p + ImportWord + (" " + name + rest);
      OccursAtJoin(p, ImportWord, " " + name + rest);
    }
  }

  /** The single blanks of an import line are its whitespace runs. */
  lemma ImportLineBlanks(name: string, rest: string)
    requires |name| > 0 && !IsSpace(name[0])
    ensures var t := ImportLine(name) + rest;
      SpaceEnd(t, 4) == 5 && SpaceEnd(t, 16) == 17 && SpaceEnd(t, 23) == 24
  {
    var t := ImportLine(name) + rest;
    assert t[4] == ' ' && t[5] == 'y';
    assert t[16] == ' ' && t[17] == 'i';
    assert t[23] == ' ' && t[24] == name[0];
  }

  /** The header of an import line ends where its name starts. */
  lemma ImportLineHeader(name: string, rest: string)
    requires |name| > 0 && !IsSpace(name[0])
    ensures HeaderEnd(ImportLine(name) + rest) == Some(24)
  {
    ImportLineKeywords(name, rest);
    ImportLineBlanks(name, rest);
  }

  /** A run of word characters ended by a non-word character or by the end. */
  lemma {:induction false} WordEndOfRun(t: string, i: nat, j: nat)
    requires i <= j <= |t| && (j == |t| || !IsWordChar(t[j]))
    requires forall k :: i <= k < j ==> IsWordChar(t[k])
    ensures WordEnd(t, i) == j
    decreases j - i
  {
    if i < j {
      WordEndOfRun(t, i + 1, j);
    }
  }

  /** The name of an import line is the word run behind its header. */
  lemma ImportLineName(name: string, rest: string)
    requires forall k :: 0 <= k < |name| ==> IsWordChar(name[k])
    requires rest == [] || !IsWordChar(rest[0])
    ensures WordEnd(ImportLine(name) + rest, 24) == 24 + |name|
  {
    var t := ImportLine(name) + rest;
    forall k | 24 <= k < 24 + |name| ensures IsWordChar(t[k]) {
      assert t[k] == name[k - 24];
    }
    if rest != [] {
      assert t[24 + |name|] == rest[0];
    }
    WordEndOfRun(t, 24, 24 + |name|);
  }

  /** Whitespace runs in a suffix are the same runs in the whole text. */
  lemma {:induction false} SpaceEndShift(u: string, rest: string, i: nat)
    requires i <= |rest|
    ensures SpaceEnd(u + rest, |u| + i) == |u| + SpaceEnd(rest, i)
    decreases |rest| - i
  {
    var t := u + rest;
    if i < |rest| {
      assert t[|u| + i] == rest[i];
      if IsSpace(rest[i]) {
        SpaceEndShift(u, rest, i + 1);
      }
    }
  }

  /** A line end that is not followed by blanks and `#` ends the match at the name. */
  lemma TailAtLineEnd(u: string, rest: string)
    requires rest == [] || rest[0] == '\n'
    requires SpaceEnd(rest, 0) == |rest| || rest[SpaceEnd(rest, 0)] != '#'
    ensures TailEnd(u + rest, |u|) == Some(|u|)
  {
    var t := u + rest;
    SpaceEndShift(u, rest, 0);
    var h := SpaceEnd(t, |u|);
    if h < |t| {
      assert t[h] == rest[h - |u|];
    }
    if rest != [] {
      assert t[|u|] == rest[0];
    }
  }

  /** Behind a match the scan resumes at its end, where `^` does not hold. */
  lemma RemoveFromAtMatch(t: string, n: nat)
    requires 0 < n <= |t| && t[n - 1] != '\n' && MatchImport(t, true) == Some(n)
    ensures RemoveFrom(t, true) == RemoveFrom(t[n..], false)
  {
  }

  /** A match is a header, a name and a tail. */
  lemma MatchFromParts(t: string, c: nat, d: nat, e: nat)
    requires HeaderEnd(t) == Some(c) && c < d <= |t| && WordEnd(t, c) == d && TailEnd(t, d) == Some(e)
    ensures MatchImport(t, true) == Some(e)
  {
  }

  /** An import line, followed by a line end that is not followed by blanks and `#`, is one
      match ending with the name. */
  lemma ImportLineMatch(name: string, rest: string)
    requires |name| > 0 && forall k :: 0 <= k < |name| ==> IsWordChar(name[k])
    requires rest == [] || rest[0] == '\n'
    requires SpaceEnd(rest, 0) == |rest| || rest[SpaceEnd(rest, 0)] != '#'
    ensures MatchImport(ImportLine(name) + rest, true) == Some(24 + |name|)
  {
    var u := ImportLine(name);
    assert |u| == 24 + |name| && !IsSpace(name[0]);
    ImportLineHeader(name, rest);
    ImportLineName(name, rest);
    TailAtLineEnd(u, rest);
    MatchFromParts(u + rest, 24, 24 + |name|, 24 + |name|);
  }

  /** The import line is removed; the line end behind it stays. That line end may not be
      followed by blanks and `#`, which the comment part of the pattern would take in. */
  lemma ImportLineRemoved(name: string, rest: string)
    requires |name| > 0 && forall k :: 0 <= k < |name| ==> IsWordChar(name[k])
    requires rest == [] || rest[0] == '\n'
    requires SpaceEnd(rest, 0) == |rest| || rest[SpaceEnd(rest, 0)] != '#'
    ensures RemoveImportLines(ImportLine(name) + rest) == RemoveFrom(rest, false)
  {
    var u := ImportLine(name);
    ImportLineMatch(name, rest);
    assert |u| == 24 + |name| && u[|u| - 1] == name[|name| - 1];
    RemoveFromAtPrefix(u, rest);
  }

  /** A match that is all of `u` removes `u`, and the scan goes on with `rest`. */
  lemma RemoveFromAtPrefix(u: string, rest: string)
    requires 0 < |u| && u[|u| - 1] != '\n' && MatchImport(u + rest, true) == Some(|u|)
    ensures RemoveFrom(u + rest, true) == RemoveFrom(rest, false)
  {
    var t := u + rest;
    assert t[|u|..] == rest && t[|u| - 1] == u[|u| - 1];
    RemoveFromAtMatch(t, |u|);
  }

  /** A comment run without line ends, ended by one or by the end of the text. */
  lemma {:induction false} LineEndOfRun(t: string, i: nat, j: nat)
    requires i <= j <= |t| && (j == |t| || t[j] == '\n')
    requires forall k :: i <= k < j ==> t[k] != '\n'
    ensures LineEnd(t, i) == j
    decreases j - i
  {
    if i < j {
      LineEndOfRun(t, i + 1, j);
    }
  }

  /** A trailing comment ends the match at the end of its line. */
  lemma TailAtComment(u: string, comment: string, rest: string)
    requires forall k :: 0 <= k < |comment| ==> comment[k] != '\n'
    requires rest == [] || rest[0] == '\n'
    ensures TailEnd(u + (" #" + comment + rest), |u|) == Some(|u| + 2 + |comment|)
  {
    var t := u + (" #" + comment + rest);
    var e := |u| + 2 + |comment|;
    assert t[|u|] == ' ' && t[|u| + 1] == '#';
    assert SpaceEnd(t, |u|) == |u| + 1;
    forall k | |u| + 2 <= k < e ensures t[k] != '\n' {
      assert t[k] == comment[k - |u| - 2];
    }
    if rest != [] {
      assert t[e] == rest[0];
    }
    LineEndOfRun(t, |u| + 2, e);
  }

  /** An import line with a trailing comment is removed up to its line end. */
  lemma CommentedImportLineRemoved(name: string, comment: string, rest: string)
    requires |name| > 0 && forall k :: 0 <= k < |name| ==> IsWordChar(name[k])
    requires forall k :: 0 <= k < |comment| ==> comment[k] != '\n'
    requires rest == [] || rest[0] == '\n'
    ensures RemoveImportLines(ImportLine(name) + " #" + comment + rest) == RemoveFrom(rest, false)
  {
    CommentedImportLineMatch(name, comment, rest);
    CommentedLineEnd(name, comment);
    RemoveFromAtPrefix(ImportLine(name) + " #" + comment, rest);
  }

  /** An import line with a trailing comment does not end with a line end. */
  lemma CommentedLineEnd(name: string, comment: string)
    requires forall k :: 0 <= k < |comment| ==> comment[k] != '\n'
    ensures var u := ImportLine(name) + " #" + comment; |u| > 0 && u[|u| - 1] != '\n'
  {
    var u := ImportLine(name) + " #" + comment;
    if comment == [] {
      assert u[|u| - 1] == '#';
    } else {
      assert u[|u| - 1] == comment[|comment| - 1];
    }
  }

  /** An import line with a trailing comment is one match, up to its line end. */
  lemma CommentedImportLineMatch(name: string, comment: string, rest: string)
    requires |name| > 0 && forall k :: 0 <= k < |name| ==> IsWordChar(name[k])
    requires forall k :: 0 <= k < |comment| ==> comment[k] != '\n'
    requires rest == [] || rest[0] == '\n'
    ensures MatchImport(ImportLine(name) + " #" + comment + rest, true)
      == Some(|ImportLine(name) + " #" + comment|)
  {
    var n := |ImportLine(name)|;
    CommentedImportLineParts(name, comment, rest);
    MatchFromParts(ImportLine(name) + " #" + comment + rest, 24, n, n + 2 + |comment|);
  }

  /** The header, the name and the comment of an import line with a trailing comment. */
  lemma CommentedImportLineParts(name: string, comment: string, rest: string)
    requires |name| > 0 && forall k :: 0 <= k < |name| ==> IsWordChar(name[k])
    requires forall k :: 0 <= k < |comment| ==> comment[k] != '\n'
    requires rest == [] || rest[0] == '\n'
    ensures var t, n := ImportLine(name) + " #" + comment + rest, |ImportLine(name)|;
      n == 24 + |name| && HeaderEnd(t) == Some(24) && WordEnd(t, 24) == n &&
      TailEnd(t, n) == Some(n + 2 + |comment|)
  {
    var u := ImportLine(name);
    var after := " #" + comment + rest;
    ConcatAssoc(u, " #", comment, rest);
    assert |u| == 24 + |name| && !IsSpace(name[0]);
    ImportLineHeader(name, after);
    ImportLineName(name, after);
    TailAtComment(u, comment, rest);
  }

  lemma ConcatAssoc(a: string, b: string, c: string, d: string)
    ensures a + b + c + d == a + (b + c + d)
  {
  }

  /** An import line holds no line end. */
  lemma ImportLineOneLine(name: string)
    requires forall k :: 0 <= k < |name| ==> IsWordChar(name[k])
    ensures forall k :: 0 <= k < |ImportLine(name)| ==> ImportLine(name)[k] != '\n'
  {
    var u := ImportLine(name);
    forall k | 0 <= k < |u| ensures u[k] != '\n' {
      if k >= 24 {
        assert u[k] == name[k - 24];
      }
    }
  }

  /** Two pieces without line ends make a piece without line ends. */
  lemma NoNewlineConcat(a: string, b: string)
    requires forall k :: 0 <= k < |a| ==> a[k] != '\n'
    requires forall k :: 0 <= k < |b| ==> b[k] != '\n'
    ensures forall k :: 0 <= k < |a + b| ==> (a + b)[k] != '\n'
  {
  }

  /** An import line followed by more than blanks and a comment does not match. */
  lemma LongerImportLineNoMatch(name: string, more: string, rest: string)
    requires |name| > 0 && forall k :: 0 <= k < |name| ==> IsWordChar(name[k])
    requires |more| > 0 && !IsSpace(more[0]) && !IsWordChar(more[0])
    ensures MatchImport(ImportLine(name) + more + "\n" + rest, true) == None
  {
    var u := ImportLine(name);
    var t := u + more + "\n" + rest;
    var after := more + "\n" + rest;
    var d := 24 + |name|;
    assert t == u + after && |u| == d;
    assert !IsSpace(name[0]);
    ImportLineHeader(name, after);
    ImportLineName(name, after);
    assert t[d] == more[0];
    assert SpaceEnd(t, d) == d;
  }

  /** A line importing a name followed by more than a comment, as in
      `from your_module import a, b`, does not fit the pattern and is kept. */
  lemma LongerImportLineKept(name: string, more: string, rest: string)
    requires |name| > 0 && forall k :: 0 <= k < |name| ==> IsWordChar(name[k])
    requires |more| > 0 && !IsSpace(more[0]) && !IsWordChar(more[0])
    requires forall k :: 0 <= k < |more| ==> more[k] != '\n'
    ensures RemoveImportLines(ImportLine(name) + more + "\n" + rest)
      == ImportLine(name) + more + "\n" + RemoveImportLines(rest)
  {
    var line := ImportLine(name) + more;
    LongerImportLineNoMatch(name, more, rest);
    ImportLineOneLine(name);
    NoNewlineConcat(ImportLine(name), more);
    LineKept(line, rest);
  }
}
