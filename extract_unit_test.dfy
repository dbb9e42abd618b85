/**
 * `extract_unit_test`: turn a sampled response into a runnable unit-test script, and collect the
 * distinct scripts of each task. The two Python-parser helpers, the class names defined in a
 * piece of code and the import statements it holds, are taken as given functions.
 */
module ExtractUnitTest {
  import opened Wrappers
  import opened PyStr
  import opened CodeFences
  import opened InferenceData
  import opened ImportLines
  import opened Seqs

  /* ---------------------------------------------------------------------------------------- */
  /* `remove_func`                                                                             */
  /* ---------------------------------------------------------------------------------------- */

  const ClassMarker: string := "\nclass"
  const DefMarker: string := "\ndef"

  /** `code[code.find('\nclass'):]`: from the first class header on, or, when there is none,
      the index -1 keeps only the last character. */
  function ClassSection(code: string): (section: string)
    ensures Contains(code, ClassMarker) ==>
      OccursAt(section, ClassMarker, 0) && section == code[Find(code, ClassMarker)..]
    ensures !Contains(code, ClassMarker) ==>
      |section| <= 1 && |section| <= |code| && section == code[|code| - |section|..]
    ensures !Contains(code, ClassMarker) && code != [] ==> section == [code[|code| - 1]]
  {
    var i := Find(code, ClassMarker);
    if i >= 0 then code[i..] else if code == [] then [] else code[|code| - 1..]
  }

  /** The lines kept by the loop of `remove_func`: trailing lines holding `#` are dropped. */
  function DropCommentedTail(lines: seq<string>): (kept: seq<string>)
    ensures |kept| <= |lines| && kept == lines[..|kept|]
    ensures kept == [] || !Contains(kept[|kept| - 1], "#")
    ensures forall k :: |kept| <= k < |lines| ==> Contains(lines[k], "#")
  {
    if lines == [] then []
    else if Contains(lines[|lines| - 1], "#") then DropCommentedTail(lines[..|lines| - 1])
    else lines
  }

  /** The class section cut before its first top-level `def`, when there is one. */
  function CutBeforeDef(section: string): string
    requires Contains(section, DefMarker)
  {
    section[..Find(section, DefMarker)]
  }

  /** What `remove_func` returns for `code`, given the import statements found in it. */
  function RemovedFunctions(code: string, imports: seq<string>): string
  {
    var section := ClassSection(code);
    var body := if Contains(section, DefMarker)
      then Join(DropCommentedTail(SplitLines(CutBeforeDef(section))), "\n")
      else section;
    Join(imports, "\n") + "\n" + body
  }

  /** A section cut before its first `def` starts with the class header, so its first line is
      empty: the loop of `remove_func` never runs out of lines. */
  lemma CutStartsWithNewline(code: string)
    requires Contains(ClassSection(code), DefMarker)
    ensures var cut := CutBeforeDef(ClassSection(code));
      |cut| > 0 && cut[0] == '\n' && SplitLines(cut)[0] == ""
  {
    var section := ClassSection(code);
    var j := Find(section, DefMarker);
    assert |section| >= 4;
    assert OccursAt(section, ClassMarker, 0);
    assert section[1] == 'c';
    var cut := section[..j];
    assert cut[0] == '\n';
    assert FirstBreak(cut, 0) == 0;
  }

  /** `remove_func`: the import statements joined by line ends, a line end, and the code from
      its first class header on; if a `def` line follows, the code is cut there and trailing
      lines holding a comment sign are dropped. */
  method RemoveFunc(code: string, imports: seq<string>) returns (r: string)
    ensures r == RemovedFunctions(code, imports)
  {
    var importText := Join(imports, "\n");
    var section := ClassSection(code);
    var body := section;
    if Contains(section, DefMarker) {
      var cut := CutBeforeDef(section);
      CutStartsWithNewline(code);
      var lines := SplitLines(cut);
      while Contains(lines[|lines| - 1], "#")
        invariant 0 < |lines| <= |SplitLines(cut)| && lines == SplitLines(cut)[..|lines|]
        invariant lines[0] == ""
        invariant DropCommentedTail(lines) == DropCommentedTail(SplitLines(cut))
        decreases |lines|
      {
        lines := lines[..|lines| - 1];
      }
      body := Join(lines, "\n");
    }
    r := importText + "\n" + body;
  }

  /** Without a class header only the last character of the code survives. */
  lemma RemoveFuncWithoutClass(code: string, imports: seq<string>)
    requires !Contains(code, ClassMarker)
    ensures RemovedFunctions(code, imports)
      == Join(imports, "\n") + "\n" + (if code == [] then "" else [code[|code| - 1]])
  {
  }

  /** Without a `def` line after the first class header, the code is kept from that header on. */
  lemma RemoveFuncWithoutDef(code: string, imports: seq<string>)
    requires Contains(code, ClassMarker)
    requires !Contains(code[Find(code, ClassMarker)..], DefMarker)
    ensures RemovedFunctions(code, imports)
      == Join(imports, "\n") + "\n" + code[Find(code, ClassMarker)..]
  {
  }

  /** When the class part before the first `def` has only `\n` line ends and no comment sign,
      it is kept exactly, minus a final line end. */
  lemma RemoveFuncCutsAtDef(code: string, imports: seq<string>)
    requires Contains(ClassSection(code), DefMarker)
    requires NewlineBreaksOnly(CutBeforeDef(ClassSection(code)))
    requires !Contains(CutBeforeDef(ClassSection(code)), "#")
    ensures var cut := CutBeforeDef(ClassSection(code));
      |cut| > 0 && RemovedFunctions(code, imports) ==
        Join(imports, "\n") + "\n" + (if cut[|cut| - 1] == '\n' then cut[..|cut| - 1] else cut)
  {
    var cut := CutBeforeDef(ClassSection(code));
    CutStartsWithNewline(code);
    var lines := SplitLines(cut);
    SplitLinesWithout(cut, "#");
    assert DropCommentedTail(lines) == lines;
    JoinSplitLines(cut);
  }

  /* ---------------------------------------------------------------------------------------- */
  /* `extract_unit_test`                                                                       */
  /* ---------------------------------------------------------------------------------------- */

  const SingleQuotedMain: string := "__name__ == '__main__'"
  const DoubleQuotedMain: string := "__name__ == \"__main__\""
  const GuardBody: string := ":\n    unittest.main()"
  const SingleQuotedGuard: string := "if " + SingleQuotedMain + GuardBody
  const DoubleQuotedGuard: string := "if " + DoubleQuotedMain + GuardBody

  /** The runner lines placed after the test code; they load and run the one test class and
      store the result where the executor looks for it. */
  function RunnerSuffix(className: string): string
  {
    SuiteHead + className + RunnerLines
  }

  const SuiteHead: string := "\n\nsuite = unittest.TestLoader().loadTestsFromTestCase("
  const RunnerLines: string :=
    ")\n"
    + "runner = unittest.TextTestRunner(stream=output, verbosity=2)\n"
    + "result = runner.run(suite)\n"
    + "locals_dict['result'] = result\n"

  /** The unit-test template filled in: the code without trailing line ends, then the runner
      lines for the class. */
  function FormatUnitTest(code: string, className: string): string
  {
    RStripNewlines(code) + RunnerSuffix(className)
  }

  /** A filled-in template is never empty: it ends with the runner lines, and the code before
      them has no trailing line end. */
  lemma FormatUnitTestShape(code: string, className: string)
    ensures var ut := FormatUnitTest(code, className);
      var suffix := RunnerSuffix(className);
      var body := ut[..|ut| - |suffix|];
      |suffix| < |ut| + 1 && ut[|ut| - |suffix|..] == suffix && body == RStripNewlines(code)
      && (body == [] || body[|body| - 1] != '\n') && ut != []
  {
    var body := RStripNewlines(code);
    var suffix := RunnerSuffix(className);
    var ut := body + suffix;
    assert |SuiteHead| > 0;
    assert ut[..|ut| - |suffix|] == body;
    assert ut[|ut| - |suffix|..] == suffix;
  }

  /** Both textual forms of the `__main__` guard are deleted, each only when its
      condition appears in the code. */
  function RemoveMainGuards(code: string): (r: string)
    ensures !Contains(code, SingleQuotedGuard) && !Contains(code, DoubleQuotedGuard) ==> r == code
  {
    var c := if Contains(code, SingleQuotedMain) then ReplaceAll(code, SingleQuotedGuard, "") else code;
    if Contains(c, DoubleQuotedMain) then ReplaceAll(c, DoubleQuotedGuard, "") else c
  }

  /** A guard at the end of the code, whose first occurrence it is, is deleted. */
  lemma MainGuardRemoved(pre: string)
    requires Find(pre + SingleQuotedGuard, SingleQuotedGuard) == |pre|
    requires !Contains(pre, DoubleQuotedGuard)
    ensures RemoveMainGuards(pre + SingleQuotedGuard) == pre
  {
    assert Contains(pre + SingleQuotedGuard, SingleQuotedMain) by {
      assert pre + SingleQuotedGuard == pre + "if " + SingleQuotedMain + GuardBody;
      OccursAtJoin(pre + "if ", SingleQuotedMain, GuardBody);
    }
    ReplaceAtEnd(pre, SingleQuotedGuard);
  }

  /** A single-quoted guard in the middle of the code, occurring once, is deleted and the
      code on both sides of it is kept. */
  lemma MainGuardRemovedWithin(pre: string, post: string)
    requires Find(pre + SingleQuotedGuard + post, SingleQuotedGuard) == |pre|
    requires !Contains(post, SingleQuotedGuard)
    requires !Contains(pre + post, DoubleQuotedGuard)
    ensures RemoveMainGuards(pre + SingleQuotedGuard + post) == pre + post
  {
    var code := pre + SingleQuotedGuard + post;
    assert Contains(code, SingleQuotedMain) by {
      assert code == pre + "if " + SingleQuotedMain + (GuardBody + post);
      OccursAtJoin(pre + "if ", SingleQuotedMain, GuardBody + post);
    }
    ReplaceOnce(pre, SingleQuotedGuard, post, "");
    assert pre + "" + post == pre + post;
  }

  /** The double-quoted guard, occurring once and with no single-quoted guard in the code, is
      deleted and the code on both sides of it is kept. */
  lemma DoubleQuotedGuardRemoved(pre: string, post: string)
    requires Find(pre + DoubleQuotedGuard + post, DoubleQuotedGuard) == |pre|
    requires !Contains(post, DoubleQuotedGuard)
    requires !Contains(pre + DoubleQuotedGuard + post, SingleQuotedGuard)
    ensures RemoveMainGuards(pre + DoubleQuotedGuard + post) == pre + post
  {
    var code := pre + DoubleQuotedGuard + post;
    assert Contains(code, DoubleQuotedMain) by {
      assert code == pre + "if " + DoubleQuotedMain + (GuardBody + post);
      OccursAtJoin(pre + "if ", DoubleQuotedMain, GuardBody + post);
    }
    ReplaceOnce(pre, DoubleQuotedGuard, post, "");
    assert pre + "" + post == pre + post;
  }

  /** What `extract_unit_test` returns for `response`, given the class names and the import
      statements the Python parser finds in a piece of code. */
  function UnitTestOf(response: string, classNamesOf: string -> seq<string>,
                      importsOf: string -> seq<string>): string
  {
    UnitTestOfBlocks(ExtractCode(response), classNamesOf, importsOf)
  }

  /** The unit test made from the extracted code blocks: only a single block defining a single
      class gives one. */
  function UnitTestOfBlocks(blocks: seq<string>, classNamesOf: string -> seq<string>,
                            importsOf: string -> seq<string>): string
  {
    if |blocks| != 1 then ""
    else
      var names := classNamesOf(blocks[0]);
      if |names| != 1 then ""
      else
        var code := RemoveImportLines(RemoveMainGuards(blocks[0]));
        FormatUnitTest(RemovedFunctions(code, importsOf(code)), names[0])
  }

  /** `extract_unit_test`, rewriting the code step by step. */
  method ExtractUnitTestOf(response: string, classNamesOf: string -> seq<string>,
                           importsOf: string -> seq<string>) returns (unitTest: string)
    ensures unitTest == UnitTestOf(response, classNamesOf, importsOf)
  {
    var blocks := ExtractCode(response);
    unitTest := "";
    if |blocks| == 1 {
      var code := blocks[0];
      var names := classNamesOf(code);
      if |names| == 1 {
        if Contains(code, SingleQuotedMain) {
          code := ReplaceAll(code, SingleQuotedGuard, "");
        }
        if Contains(code, DoubleQuotedMain) {
          code := ReplaceAll(code, DoubleQuotedGuard, "");
        }
        assert code == RemoveMainGuards(blocks[0]);
        code := RemoveImportLines(code);
        ghost var prepared := code;
        code := RemoveFunc(code, importsOf(code));
        assert code == RemovedFunctions(prepared, importsOf(prepared));
        unitTest := FormatUnitTest(code, names[0]);
      }
    }
    assert unitTest == UnitTestOfBlocks(blocks, classNamesOf, importsOf);
  }

  /** A response yields a unit test exactly when it holds one code block defining one class. */
  lemma UnitTestNonEmptyIff(response: string, classNamesOf: string -> seq<string>,
                            importsOf: string -> seq<string>)
    ensures UnitTestOf(response, classNamesOf, importsOf) != "" <==>
      |ExtractCode(response)| == 1 && |classNamesOf(ExtractCode(response)[0])| == 1
  {
    var blocks := ExtractCode(response);
    if |blocks| == 1 && |classNamesOf(blocks[0])| == 1 {
      var code := RemoveImportLines(RemoveMainGuards(blocks[0]));
      FormatUnitTestShape(RemovedFunctions(code, importsOf(code)), classNamesOf(blocks[0])[0]);
    }
  }

  /** A unit test is the prepared code without trailing line ends, then the runner lines naming
      the block's only class. */
  lemma UnitTestShape(response: string, classNamesOf: string -> seq<string>,
                      importsOf: string -> seq<string>)
    requires UnitTestOf(response, classNamesOf, importsOf) != ""
    ensures var ut := UnitTestOf(response, classNamesOf, importsOf);
      var suffix := RunnerSuffix(classNamesOf(ExtractCode(response)[0])[0]);
      var body := ut[..|ut| - |suffix|];
      |suffix| <= |ut| && ut[|ut| - |suffix|..] == suffix && (body == [] || body[|body| - 1] != '\n')
  {
    var blocks := ExtractCode(response);
    var code := RemoveImportLines(RemoveMainGuards(blocks[0]));
    var prepared := RemovedFunctions(code, importsOf(code));
    var name := classNamesOf(blocks[0])[0];
    assert UnitTestOf(response, classNamesOf, importsOf) == FormatUnitTest(prepared, name);
    FormatUnitTestShape(prepared, name);
  }

  /* ---------------------------------------------------------------------------------------- */
  /* Deduplication and the per-task loop of `main`                                             */
  /* ---------------------------------------------------------------------------------------- */

  /** `extract_unit_test` as a function value, for the loops that apply it to each response. */
  function UnitTestExtractor(classNamesOf: string -> seq<string>, importsOf: string -> seq<string>)
    : string -> string
  {
    response => UnitTestOf(response, classNamesOf, importsOf)
  }

  /** The distinct non-empty texts of a list. */
  function Distinct(texts: seq<string>): (set_: set<string>)
    ensures "" !in set_
  {
    if texts == [] then {}
    else
      var last := texts[|texts| - 1];
      var before := Distinct(texts[..|texts| - 1]);
      if last != "" then before + {last} else before
  }

  /** A text is collected exactly when it is a non-empty member of the list. */
  lemma {:induction false} DistinctMembers(texts: seq<string>, t: string)
    ensures t in Distinct(texts) <==> t != "" && exists k :: 0 <= k < |texts| && texts[k] == t
    decreases |texts|
  {
    if texts != [] {
      var n := |texts|;
      var prefix := texts[..n - 1];
      DistinctMembers(prefix, t);
      if t != "" && exists k :: 0 <= k < n && texts[k] == t {
        var k :| 0 <= k < n && texts[k] == t;
        if k < n - 1 {
          assert prefix[k] == texts[k];
        }
      }
      if t != "" && exists k :: 0 <= k < n - 1 && prefix[k] == t {
        var k :| 0 <= k < n - 1 && prefix[k] == t;
        assert prefix[k] == texts[k];
      }
    }
  }

  /** The distinct non-empty unit tests of a task's responses. */
  function UnitTestSet(responses: seq<string>, classNamesOf: string -> seq<string>,
                       importsOf: string -> seq<string>): set<string>
  {
    Distinct(Map(responses, UnitTestExtractor(classNamesOf, importsOf)))
  }

  /** A text is collected exactly when it is the non-empty unit test of some response. */
  lemma UnitTestSetMembers(responses: seq<string>, classNamesOf: string -> seq<string>,
                           importsOf: string -> seq<string>, ut: string)
    ensures ut in UnitTestSet(responses, classNamesOf, importsOf) <==>
      ut != "" && exists k :: 0 <= k < |responses| && UnitTestOf(responses[k], classNamesOf, importsOf) == ut
  {
    var f := UnitTestExtractor(classNamesOf, importsOf);
    var uts := Map(responses, f);
    DistinctMembers(uts, ut);
    forall k | 0 <= k < |responses|
      ensures uts[k] == UnitTestOf(responses[k], classNamesOf, importsOf)
    {
      MapAt(responses, f, k);
    }
  }

  /** One more response adds its unit test to the collection, when that is not empty. */
  lemma CollectStep(responses: seq<string>, f: string -> string, i: nat)
    requires i < |responses|
    ensures Distinct(Map(responses[..i + 1], f)) ==
      if f(responses[i]) != "" then Distinct(Map(responses[..i], f)) + {f(responses[i])}
      else Distinct(Map(responses[..i], f))
  {
    var texts := Map(responses[..i], f);
    assert responses[..i + 1][..i] == responses[..i];
    assert Map(responses[..i + 1], f) == texts + [f(responses[i])];
    assert (texts + [f(responses[i])])[..|texts|] == texts;
  }

  /** The inner loop of `main`: apply the extractor `f` (`extract_unit_test`) to each response
      and add each non-empty result not collected yet. */
  method CollectUnitTests(responses: seq<string>, f: string -> string) returns (uts: set<string>)
    ensures uts == Distinct(Map(responses, f))
  {
    uts := {};
    for i := 0 to |responses|
      invariant uts == Distinct(Map(responses[..i], f))
    {
      var ut := f(responses[i]);
      CollectStep(responses, f, i);
      if ut != "" && ut !in uts {
        uts := uts + {ut};
      }
    }
    assert responses[..|responses|] == responses;
  }

  /** A line of the output: a task id and its distinct unit tests, in an order the model does
      not fix. */
  datatype TaskUnitTests = TaskUnitTests(taskId: string, unitTests: set<string>)

  /** The output line of one task: the id file's task id and the distinct non-empty results of
      `extract` on the task's responses. */
  function TaskLine(record: InferenceRecord, id: IdRecord, extract: string -> string): TaskUnitTests
  {
    TaskUnitTests(id.taskId, Distinct(Map(record.responses, extract)))
  }

  /** `main` without its file input: the lines appended to the output file, and the exception
      that stopped the run, if any. A line is appended as soon as its task is done, so the
      tasks before the first failing check stay written. `main` passes
      `UnitTestExtractor(classNamesOf, importsOf)` as `extract`, which makes each line's set the
      task's `UnitTestSet`. */
  method ExtractUnitTests(dataset: seq<InferenceRecord>, ids: seq<IdRecord>, extract: string -> string)
    returns (written: seq<TaskUnitTests>, error: Option<PyError>)
    ensures |written| <= |dataset| && |written| <= |ids|
    ensures forall j :: 0 <= j < |written| ==> ErrorAt(dataset, ids, j) == None
    ensures forall j :: 0 <= j < |written| ==> written[j] == TaskLine(dataset[j], ids[j], extract)
    ensures error == None <==> |written| == |dataset|
    ensures error != None ==> error == ErrorAt(dataset, ids, |written|)
  {
    written := [];
    error := None;
    for i := 0 to |dataset|
      invariant |written| == i && i <= |ids|
      invariant forall j :: 0 <= j < i ==> ErrorAt(dataset, ids, j) == None
      invariant forall j :: 0 <= j < i ==> written[j] == TaskLine(dataset[j], ids[j], extract)
    {
      var e := ErrorAt(dataset, ids, i);
      if e.Some? {
        error := e;
        return;
      }
      var uts := CollectUnitTests(dataset[i].responses, extract);
      written := written + [TaskUnitTests(ids[i].taskId, uts)];
    }
  }
}
