# CodeRM evaluation core, modelled in Dafny

CodeRM trains a unit-test generator and judges it by how well its tests pick correct solutions
out of many sampled ones. This project models the parts of that pipeline that decide the reported
numbers. It proves what each part computes.

- **Preprocessing** (`preprocess/extract_solution.py`, `preprocess/extract_unit_test.py`).
  - Fenced code blocks are pulled out of model responses (`extract_code`). The two files define
    this function identically, so the model defines it once (`CodeFences`).
  - A response is kept as a solution when it holds exactly one block (`ExtractSolution`).
  - A response becomes a runnable unit test when its single block defines exactly one class. The
    `__main__` guards and the `from your_module import …` lines are stripped. The code is cut
    from the first `\nclass` up to the first later `\ndef`, and trailing lines holding `#` are
    dropped from that cut. Without a later `\ndef` everything from `\nclass` on is kept, and
    without `\nclass` only the code's last character is. The extracted imports are put in front,
    and the result is wrapped in the runner template. The distinct non-empty
    tests are kept per task (`ExtractUnitTest`, `ImportLines`).
- **Job generation and selection** (`evaluation/evaluate.py`, module `Evaluate`).
  - Every solution is paired with the first `ut_num` tests of its task.
  - The result records are sorted numerically by task.
  - Passes are tallied per solution, and the solution with the most passes is chosen per task.
- **Executor** (`docker_source/main.py`, module `Executor`).
  - Each job runs in a worker that reports through shared cells, which start at sentinel values,
    plus a 2000-byte transcript buffer (the class `SharedCells`).
  - Jobs are read in chunks, and chunks already covered by `--recover` are skipped.
  - The results of each chunk are sorted by `(task_id, sol_id, ut_id)` and appended.
- **Best-of-N scoring** (`evaluation/calculate_result.py`, module `BestOfN`).
  - For every task, each solution's set of passed sampled tests is collected.
  - The solutions with the largest set form the pool.
  - The pool members whose set agrees with the most other members are selected.
  - The task scores the share of selected solutions that are correct.
  - A trial's accuracy is the mean task score, and the reported figure is the mean over trials.

Supporting modules:

- `Wrappers`: `Option`, `Result`, and the Python exceptions as `PyError`.
- `Records`: the job and result-line records.
- `InferenceData`: the records of inference outputs.
- `PyStr`: `str.find`, `replace`, `rstrip`, `splitlines`, `split`, `join`, and string ordering.
- `PyInt`: `int()` of a string and `str()` of a natural number.
- `Seqs`: map, filter and flatten.
- `Sorting`: `sorted`, as a stable insertion sort with its permutation, order, stability and
  determinism lemmas.

Each Python exception on a modelled path is a `Result` error, not a precondition. These cover an
out-of-range index, a missing key, a bad `int()`, a zero divisor, a failed `assert`, an unbound
local variable, and the mean of no data. Loops that update state in the source are methods with
loop invariants. Each is proved equal to a specification function, and the properties are proved
about that function as lemmas.

Where the code and its description disagree, the model follows the code:

- **Over-long transcript.** With details on, a transcript longer than 2000 bytes is not
  truncated. The ctypes assignment raises `ValueError`, so every cell keeps its sentinel value
  (`FailedRunKeepsSentinel`).
- **Run that stores no result.** When a run stores no `result` while details are on, the
  transcript was already written and is kept. The counts stay at the sentinel.
- **First record of a task.** `select_sol` does not count the first record of each task after the
  first one (see Findings).

## Model

| member | source | states |
|---|---|---|
| PyStr.Find | preprocess/extract_unit_test.py:65-67 | `str.find`: -1 exactly when the pattern does not occur, otherwise the first position where it occurs |
| PyStr.FindFrom | preprocess/extract_solution.py:7-8 | the first occurrence at or after a position, or -1 when there is none after it |
| PyStr.ReplaceAtEnd | preprocess/extract_unit_test.py:82-85 | replacing a pattern whose only occurrence ends the text with "" leaves the text before it |
| PyStr.ReplaceOnce | preprocess/extract_unit_test.py:82-85 | replacing a pattern that occurs once swaps that occurrence and keeps the text on both sides |
| PyStr.ReplaceAll | preprocess/extract_unit_test.py:83 | `str.replace` leaves a text without the pattern unchanged |
| PyStr.RStripNewlines | preprocess/extract_unit_test.py:88 | `rstrip('\n')`: the longest prefix not ending in a newline; only newlines are dropped |
| PyStr.JoinSplitLines | preprocess/extract_unit_test.py:68-71 | `'\n'.join(s.splitlines())` gives back `s`, less one final newline, when `\n` is its only line break |
| PyStr.SplitLinesWithout | preprocess/extract_unit_test.py:68-69 | no line of `splitlines()` contains a pattern the text does not contain |
| PyStr.SplitJoin | evaluation/evaluate.py:73 | `split(sep)` parts joined by `sep` give back the text, and no part contains `sep` |
| PyStr.SplitTwo | evaluation/evaluate.py:73 | `(a + "/" + b).split('/')` is `[a, b]` when neither contains `/` |
| PyStr.StrLeTotal | docker_source/main.py:198 | Python's string order is total |
| PyStr.StrLeTransitive | docker_source/main.py:198 | Python's string order is transitive |
| PyStr.StrLeAntisymmetric | docker_source/main.py:198 | Python's string order is antisymmetric |
| PyStr.StrLeCommonPrefix | evaluation/evaluate.py:73 | a shared prefix does not change the string order |
| PyInt.ParseInt | evaluation/evaluate.py:73 | `int()` of a string fails only with `ValueError` |
| PyInt.ParseNatToString | evaluation/evaluate.py:73 | `int(str(n)) == n` for every natural number |
| PyInt.NatToStringDigits | evaluation/evaluate.py:73 | `str(n)` of a natural number is all decimal digits |
| Sorting.SortByPermutes | docker_source/main.py:198 | `sorted` returns a permutation of its input |
| Sorting.SortBySorted | docker_source/main.py:198 | `sorted` under a strict weak order returns a sequence in that order |
| Sorting.SortByStable | evaluation/calculate_result.py:35 | `sorted` is stable: elements of equal key keep their input order |
| Sorting.SortByHead | evaluation/evaluate.py:87 | an element that no element beats, and that beats every element before it, comes first after sorting |
| Sorting.SortByDeterministic | docker_source/main.py:198 | when no two distinct elements tie, the sorted output does not depend on the input order |
| Sorting.StrictOfTotalPreorder | evaluation/calculate_result.py:35 | sorting by a key (with or without `reverse=True`) is sorting by a strict weak order |
| Sorting.FilterSorted | docker_source/main.py:199-205 | dropping elements of a sorted sequence leaves it sorted |
| CodeFences.ScanSpansOrdered | preprocess/extract_solution.py:7-8 | `re.findall` matches do not overlap and come in text order |
| CodeFences.FirstSpanIsMatch | preprocess/extract_solution.py:7 | the lazy `(.*?)` ends at the first closing fence after the opening one |
| CodeFences.ScanSpansAreMatches | preprocess/extract_solution.py:7-8 | every span found is a match of the fence pattern |
| CodeFences.ScanFindsBlock | preprocess/extract_solution.py:7-12 | the scan finds something exactly when the text holds an opening fence followed later by a closing one |
| CodeFences.ScanMissesNoFirstMatch | preprocess/extract_solution.py:7-8 | no match begins before the first span found, nor anywhere when none is found |
| CodeFences.ScanMissesNoMatch | preprocess/extract_solution.py:7-8 | no match begins between two consecutive spans found |
| CodeFences.ScanMissesNoLastMatch | preprocess/extract_solution.py:7-8 | no match begins after the last span found |
| CodeFences.BodiesAt | preprocess/extract_solution.py:8 | the i-th match is the text of the i-th span |
| CodeFences.MatchBodyHasNoCloseFence | preprocess/extract_solution.py:7 | a lazily matched body never contains the closing fence |
| CodeFences.BodiesHaveNoCloseFence | preprocess/extract_solution.py:6-14 | no extracted block contains the closing fence |
| CodeFences.ExtractCodeFindsBlock | preprocess/extract_solution.py:6-14 | `extract_code` returns blocks exactly when a `python` fence block or a bare fence block exists |
| CodeFences.PythonFencesFirst | preprocess/extract_unit_test.py:15-24 | when a `python` fenced block exists, only `python` fences are used; the bare fence is the fallback |
| CodeFences.SingleFencedBlock | preprocess/extract_solution.py:7-8 | a response that is one `python` fenced block gives back exactly its body |
| InferenceData.ErrorAt | preprocess/extract_solution.py:22 | line `i` passes the prompt check exactly when both first messages exist and are equal; otherwise `IndexError` or `AssertionError` |
| ExtractSolution.SingleBlocksAppend | preprocess/extract_solution.py:24-28 | the solutions of two response lists are the solutions of each, concatenated |
| ExtractSolution.SingleBlocks | preprocess/extract_solution.py:24-28 | there is at most one solution per response |
| ExtractSolution.SingleBlocksOfOne | preprocess/extract_solution.py:25-28 | a response contributes its block when it has exactly one, and nothing otherwise |
| ExtractSolution.SingleBlocksSound | preprocess/extract_solution.py:24-28 | every kept solution is the single block of some response |
| ExtractSolution.CollectSolutions | preprocess/extract_solution.py:23-28 | the loop collects exactly the single blocks, in response order |
| ExtractSolution.TaskLine | preprocess/extract_solution.py:30-33 | an output line carries the id file's task id and at most one solution per response |
| ExtractSolution.ExtractSol | preprocess/extract_solution.py:16-35 | succeeds exactly when every line passes the prompt check, with one output line per input line; otherwise fails with the first line's error |
| ImportLines.MatchImport | preprocess/extract_unit_test.py:38 | a match starts at a line start with `from` and ends at the end of the text or before a newline |
| ImportLines.RemoveFromWithoutFrom | preprocess/extract_unit_test.py:36-43 | code without `from` is left unchanged |
| ImportLines.LineKept | preprocess/extract_unit_test.py:38-41 | a line at whose start no match begins is kept unchanged with its newline, and removal continues on the next line |
| ImportLines.LastLineKept | preprocess/extract_unit_test.py:38-41 | a last line at whose start no match begins is kept unchanged |
| ImportLines.MatchImportHeader | preprocess/extract_unit_test.py:38 | a match begins with `from`, blanks, `your_module`, blanks, `import` and a blank |
| ImportLines.OtherModuleNoMatch | preprocess/extract_unit_test.py:38 | a `from` line naming any module other than `your_module` does not match |
| ImportLines.OtherModuleLineKept | preprocess/extract_unit_test.py:38-41 | such a line is kept unchanged, and removal continues on the next line |
| ImportLines.TypingImportKept | preprocess/extract_unit_test.py:38-41 | `from typing import List` is kept unchanged |
| ImportLines.ImportLineMatch | preprocess/extract_unit_test.py:38 | `from your_module import name` at the end of a line matches through the name |
| ImportLines.ImportLineRemoved | preprocess/extract_unit_test.py:38-41 | such a line is removed, its newline kept |
| ImportLines.CommentedImportLineMatch | preprocess/extract_unit_test.py:38 | the optional trailing ` #comment` is part of the match |
| ImportLines.CommentedImportLineRemoved | preprocess/extract_unit_test.py:38-41 | a commented import line is removed together with its comment |
| ImportLines.LongerImportLineNoMatch | preprocess/extract_unit_test.py:38 | an import line with anything else after the name does not match |
| ImportLines.LongerImportLineKept | preprocess/extract_unit_test.py:38-41 | such a line is kept unchanged, and removal continues on the next line |
| ExtractUnitTest.ClassSection | preprocess/extract_unit_test.py:65 | the code from the first `\nclass`; without one, `code[-1:]`, that is its last character |
| ExtractUnitTest.DropCommentedTail | preprocess/extract_unit_test.py:69-70 | drops exactly the trailing lines that contain `#` |
| ExtractUnitTest.CutStartsWithNewline | preprocess/extract_unit_test.py:65-70 | the cut class section starts with a newline, so its first line is empty and the `while` loop cannot empty the list |
| ExtractUnitTest.RemoveFunc | preprocess/extract_unit_test.py:63-73 | the method computes `remove_func` |
| ExtractUnitTest.RemoveFuncWithoutClass | preprocess/extract_unit_test.py:64-65 | without `\nclass`, the result is the imports, a newline and the last character of the code |
| ExtractUnitTest.RemoveFuncWithoutDef | preprocess/extract_unit_test.py:65-66 | without a later `\ndef`, the result is the imports, a newline and the whole class section |
| ExtractUnitTest.RemoveFuncCutsAtDef | preprocess/extract_unit_test.py:66-73 | with a `\ndef`, the class section is cut before it; when that cut holds no `#` and no line break other than `\n`, it is kept exactly, less one final newline |
| ExtractUnitTest.FormatUnitTestShape | preprocess/extract_unit_test.py:7-13 | the unit test is the right-stripped code followed by the runner suffix naming the class |
| ExtractUnitTest.RemoveMainGuards | preprocess/extract_unit_test.py:82-85 | code without either `__main__` guard is unchanged |
| ExtractUnitTest.MainGuardRemoved | preprocess/extract_unit_test.py:82-83 | a trailing single-quoted guard is removed |
| ExtractUnitTest.MainGuardRemovedWithin | preprocess/extract_unit_test.py:82-85 | a single-quoted guard occurring once is removed, the code before and after it kept |
| ExtractUnitTest.DoubleQuotedGuardRemoved | preprocess/extract_unit_test.py:82-85 | a double-quoted guard occurring once is removed, the code before and after it kept |
| ExtractUnitTest.ExtractUnitTestOf | preprocess/extract_unit_test.py:75-89 | the method computes `extract_unit_test` |
| ExtractUnitTest.UnitTestNonEmptyIff | preprocess/extract_unit_test.py:76-81 | a response yields a unit test exactly when it has one block and that block defines one class |
| ExtractUnitTest.UnitTestShape | preprocess/extract_unit_test.py:88 | a non-empty unit test ends with the runner suffix, and the code before it does not end in a newline |
| ExtractUnitTest.DistinctMembers | preprocess/extract_unit_test.py:97-101 | the set holds exactly the non-empty texts that occur |
| ExtractUnitTest.Distinct | preprocess/extract_unit_test.py:100 | the empty text is never added to the set |
| ExtractUnitTest.UnitTestSetMembers | preprocess/extract_unit_test.py:97-101 | a task's unit-test set is exactly the non-empty unit tests of its responses |
| ExtractUnitTest.CollectStep | preprocess/extract_unit_test.py:99-101 | one more response adds its unit test to the set only when that test is non-empty |
| ExtractUnitTest.CollectUnitTests | preprocess/extract_unit_test.py:97-101 | the loop builds exactly the set of distinct non-empty unit tests |
| ExtractUnitTest.ExtractUnitTests | preprocess/extract_unit_test.py:91-107 | lines are written in order until the first line that fails the prompt check; each written line carries its task's unit tests; the error is that line's |
| Executor.BeforeNul | docker_source/main.py:96 | a `c_char` array's `value` is the longest NUL-free prefix of its bytes |
| Executor.BeforeNulStops | docker_source/main.py:127 | bytes after a NUL are never read |
| Executor.SharedCells.constructor | docker_source/main.py:91-96 | the cells start at the sentinel (`False`, -1, 0, 0, 0), with an empty 2000-byte buffer |
| Executor.SharedCells.SetValue | docker_source/main.py:67 | an assignment that fits is stored, and `value` then reads it up to a NUL; a longer one is refused and leaves the buffer unchanged |
| Executor.SharedCells.ExecuteUnittest | docker_source/main.py:45-79 | the cells after a run are the run's outcome function of the run and `save_detail` |
| Executor.HandleExecute | docker_source/main.py:82-141 | the outcome returned is the specified outcome of the job under the worker |
| Executor.FailedRunKeepsSentinel | docker_source/main.py:74-79 | a run that raises, stores no result, or overflows the buffer reports `False` and total -1 with zero counts |
| Executor.FailedRunKeepsNoText | docker_source/main.py:125-131 | a run that raises, or overflows the buffer, reports an empty text |
| Executor.CompletedRunCounts | docker_source/main.py:68-73 | a completed run reports the runner's verdict and counts, and pass + fail + error == total |
| Executor.DetailsTextCases | docker_source/main.py:125-131 | for a completed run whose transcript fits the 2000-byte buffer: text is "" without `--details` or when decoding the bytes before the first NUL fails; with `--details` and a transcript without NUL it is the decoded transcript |
| Executor.RecordVerdict | docker_source/main.py:186-195 | the record keeps the job's ids and says `pass` exactly when the run completed, succeeded and did not overflow the buffer |
| Executor.ChunksShape | docker_source/main.py:33-42 | every chunk is non-empty, and all but the last hold exactly `chunk_size` lines |
| Executor.ChunksConcat | docker_source/main.py:33-42 | the chunks concatenated are the input lines, in order |
| Executor.ChunksAppend | docker_source/main.py:36-40 | chunking a prefix of whole chunks then the rest is chunking the whole |
| Executor.ReadInChunks | docker_source/main.py:33-42 | a zero chunk size with some input fails with `ZeroDivisionError`; otherwise the chunks of size `abs(chunk_size)` |
| Executor.LoadedThroughChunk | docker_source/main.py:168-169 | after chunk k, `data_loaded_num` is `min((k+1)*chunk_size, len(lines))` |
| Executor.ResumeSkipsWholeChunks | docker_source/main.py:167-171 | a chunk is skipped exactly when `recover` covers all of it, and then every earlier chunk is skipped too |
| Executor.LoadedThroughMonotone | docker_source/main.py:169 | the loaded count never decreases |
| Executor.RecordKeyTotalPreorder | docker_source/main.py:198 | the `(task_id, sol_id, ut_id)` key order is a total preorder |
| Executor.CollectRecords | docker_source/main.py:186-195 | one record per completed job, in completion order |
| Executor.WriteRecords | docker_source/main.py:199-205 | the records written are the sorted records whose write succeeds, in order |
| Executor.RunChunks | docker_source/main.py:167-205 | the lines written over all chunks are the specified output of chunking, skipping, completing, sorting and writing |
| Executor.ChunkOutputSorted | docker_source/main.py:186-205 | a chunk's output is sorted by key and is a permutation of the writable records of the chunk's jobs, whatever the completion order |
| Executor.ChunkOutputDeterministic | docker_source/main.py:187-198 | with distinct keys, a chunk's output does not depend on the order in which its jobs complete |
| Evaluate.TestsUsed | evaluation/evaluate.py:40-42 | the number of tests used never exceeds the task's count, no id below it equals `ut_num` (the `break` is never reached among them), and it stops at `ut_num` or runs through all |
| Evaluate.PairJobs | evaluation/evaluate.py:40-52 | a solution gets one job per test used |
| Evaluate.SolutionJobs | evaluation/evaluate.py:39-52 | a task gets `sol_num * m` jobs |
| Evaluate.PairJobsAt | evaluation/evaluate.py:44-51 | the u-th job of a solution pairs it with test u, joined by a blank line |
| Evaluate.SolutionJobsAt | evaluation/evaluate.py:39-51 | job `s*m + u` of a task is solution s paired with test u |
| Evaluate.JobsUpToFails | evaluation/evaluate.py:38-46 | the first task whose solutions or tests are too few ends generation with `IndexError` |
| Evaluate.GenerateJobs | evaluation/evaluate.py:38-52 | the loop computes the specified job list or error |
| Evaluate.PairTask | evaluation/evaluate.py:39-52 | one task's jobs, or `IndexError` when the task lacks a needed solution |
| Evaluate.PairWithTests | evaluation/evaluate.py:40-52 | one solution's jobs, or `IndexError` when the solution is missing and some test is used |
| Evaluate.TaskNumber | evaluation/evaluate.py:73 | the sort key fails only with `IndexError` (no `/`) or `ValueError` (not an integer) |
| Evaluate.TaskNumberOf | evaluation/evaluate.py:73 | `int("name/n".split('/')[1]) == n` |
| Evaluate.KeyAllSpec | evaluation/evaluate.py:73 | keying succeeds exactly when every task id parses, and then keeps the records and their numbers |
| Evaluate.KeyedTotalPreorder | evaluation/evaluate.py:73 | the `(number, sol_id, ut_id)` key is a total preorder |
| Evaluate.SortedDatasetSpec | evaluation/evaluate.py:73 | the sorted dataset is ordered by key and is a permutation of the input |
| Evaluate.NumericTaskOrder | evaluation/evaluate.py:73 | task 9 sorts before task 10, although `"…/10" < "…/9"` as strings |
| Evaluate.CountGeTotalPreorder | evaluation/evaluate.py:87 | the by-count order used by `sorted(..., reverse=True)` is a total preorder |
| Evaluate.Zeros | evaluation/evaluate.py:79 | one zero count per id in `range(sol_num)`, none when `sol_num` is not positive |
| Evaluate.FirstMax | evaluation/evaluate.py:87-90 | the chosen id has the largest count, and every smaller id has a strictly smaller count |
| Evaluate.BestIsFirstMax | evaluation/evaluate.py:87-90 | the head of the stable descending sort is the first id with the largest count |
| Evaluate.Count | evaluation/evaluate.py:82-84 | counting a record changes no task and no choice, and keeps the number of counts |
| Evaluate.Switch | evaluation/evaluate.py:93-95 | a task switch moves to the record's task with all counts reset to zero |
| Evaluate.PassCounts | evaluation/evaluate.py:79-84 | there is one count per solution id |
| Evaluate.CountStep | evaluation/evaluate.py:82-84 | counting one record adds its pass to the tally of passes |
| Evaluate.CountRun | evaluation/evaluate.py:81-84 | a run of the same task's records with known ids adds all their passes |
| Evaluate.SwitchStep | evaluation/evaluate.py:85-95 | a task switch records the old task's first-max choice; the switching record is counted only in the corrected variant |
| Evaluate.TaskBlock | evaluation/evaluate.py:81-95 | a new task's block of records gives the old task's choice and, in the corrected variant, counts every record of the new block |
| Evaluate.RunTracks | evaluation/evaluate.py:81-95 | the tally ends on the last record's task, with one choice per task switch, appended after the earlier ones |
| Evaluate.ChoicesPerTask | evaluation/evaluate.py:81-102 | one choice per task switch plus one for the last task, which is the last choice |
| Evaluate.StartTaskChosen | evaluation/evaluate.py:75-91 | a start task with no records is still chosen, with solution 0 |
| Evaluate.FirstLineOfTaskNotCounted | evaluation/evaluate.py:82-95 | as written, a pass on a task's first record is lost and can change the choice; the corrected tally does not lose it |
| Evaluate.PickSpec | evaluation/evaluate.py:104-110 | the lookup succeeds exactly when each choice's position and solution exist, and then pairs the task with that solution |
| Evaluate.Pick | evaluation/evaluate.py:106-110 | the lookup fails only with `IndexError` |
| Evaluate.SelectSol | evaluation/evaluate.py:70-114 | the method computes the specified selection, including the `UnboundLocalError`, `KeyError` and `IndexError` paths |
| Evaluate.TallyChoices | evaluation/evaluate.py:79-102 | the loop computes the specified choices |
| Evaluate.LookUp | evaluation/evaluate.py:104-110 | the loop computes the specified lookup |
| BestOfN.PassedSetBounds | evaluation/calculate_result.py:25-32 | a solution's passed-set holds at most `ut_num` ids, all in `0..99` |
| BestOfN.PassedSetMembers | evaluation/calculate_result.py:25-32 | an id is in the passed-set exactly when it is among the first `ut_num` shuffled ids and its result is `pass` |
| BestOfN.CandidateList | evaluation/calculate_result.py:22-29 | there is one entry per solution |
| BestOfN.CandidateAt | evaluation/calculate_result.py:22-32 | entry k is solution k with its passed-set |
| BestOfN.CollectPassedSets | evaluation/calculate_result.py:20-32 | the loops compute the specified entries, or `IndexError` when more than 100 solutions or tests are asked for |
| BestOfN.SizeGeTotal | evaluation/calculate_result.py:35 | ordering by passed-set size is a total preorder, so the sort's order is a strict weak order |
| BestOfN.MaxSizeSpec | evaluation/calculate_result.py:36 | the maximum size bounds every size and is reached |
| BestOfN.TopIsMaxSize | evaluation/calculate_result.py:35-36 | the head of the descending sort has the maximum size |
| BestOfN.TopPool | evaluation/calculate_result.py:35-42 | no entries gives `IndexError`; otherwise the specified pool |
| BestOfN.LeadingRunIsPool | evaluation/calculate_result.py:37-42 | the run of top-size entries before the `break` is the pool |
| BestOfN.RankedSizes | evaluation/calculate_result.py:35 | sizes never increase along the sorted list |
| BestOfN.LeadingRun | evaluation/calculate_result.py:37-42 | the leading run is the sorted list filtered to the top size |
| BestOfN.RestSmaller | evaluation/calculate_result.py:41-42 | after the `break`, no entry has the top size |
| BestOfN.PoolSpec | evaluation/calculate_result.py:35-42 | the pool is non-empty and holds exactly the entries of maximum size |
| BestOfN.Agreement | evaluation/calculate_result.py:47-50 | a consistency never exceeds the pool size |
| BestOfN.Consistency | evaluation/calculate_result.py:47-50 | the inner loop counts the pool members whose passed-set equals this one's |
| BestOfN.Vote | evaluation/calculate_result.py:44-55 | the loop selects exactly the specified solutions |
| BestOfN.MostAgreementBound | evaluation/calculate_result.py:51-53 | `max_consistency` bounds every consistency seen so far |
| BestOfN.VoteStep | evaluation/calculate_result.py:51-55 | a larger consistency restarts the selection, an equal one appends, and a smaller one keeps it |
| BestOfN.AgreementSelf | evaluation/calculate_result.py:49-50 | every member agrees with itself, so its consistency is at least 1 |
| BestOfN.MostAgreementReached | evaluation/calculate_result.py:51-53 | `max_consistency` is the consistency of some member seen so far |
| BestOfN.ChosenSpec | evaluation/calculate_result.py:44-55 | the selection is non-empty and holds exactly the pool members of greatest consistency |
| BestOfN.AgreementAlone | evaluation/calculate_result.py:47-50 | with distinct passed-sets, a member agrees only with itself |
| BestOfN.DistinctSetsSelectAll | evaluation/calculate_result.py:44-55 | when all passed-sets differ, every pool member is selected, in order |
| BestOfN.SelectedOnce | evaluation/calculate_result.py:51-55 | with distinct ids in the pool, no id is selected twice |
| BestOfN.PoolOnce | evaluation/calculate_result.py:22-42 | the pool never holds a solution twice |
| BestOfN.PassCount | evaluation/calculate_result.py:57-60 | counting fails only with `KeyError` |
| BestOfN.PassCountSpec | evaluation/calculate_result.py:57-60 | counting succeeds exactly when every selected id is labelled, and is then the number of correct selected ids |
| BestOfN.PassCountFails | evaluation/calculate_result.py:58-59 | the first missing label ends the count |
| BestOfN.CreditBounds | evaluation/calculate_result.py:61 | a task's credit `num / len(select_sol_ids)` lies in [0, 1] |
| BestOfN.Score | evaluation/calculate_result.py:57-61 | the loop computes the specified credit |
| BestOfN.TaskScoreErrors | evaluation/calculate_result.py:20-61 | out-of-range `sol_num` or `ut_num` gives `IndexError`; in range, the only error is `KeyError` |
| BestOfN.SelectionNotEmpty | evaluation/calculate_result.py:35-61 | with at least one solution and test, the selection is non-empty, so line 61 never divides by zero |
| BestOfN.TaskScoreBounds | evaluation/calculate_result.py:16-61 | every task score lies in [0, 1] |
| BestOfN.ScoreTask | evaluation/calculate_result.py:17-61 | one task's loop body computes the specified task score |
| BestOfN.TaskScorerInUnit | evaluation/calculate_result.py:16-61 | the scorer yields values in [0, 1] for every task and order |
| BestOfN.ScoreSumFails | evaluation/calculate_result.py:16-61 | the first failing task ends the sum with its error |
| BestOfN.ScoreSumNext | evaluation/calculate_result.py:61 | each task adds its score to the running sum |
| BestOfN.ScoreSumBounds | evaluation/calculate_result.py:14-61 | the sum over n tasks lies in [0, n] |
| BestOfN.AccuracySpec | evaluation/calculate_result.py:10-64 | an empty dataset gives `ZeroDivisionError`, and any accuracy lies in [0, 1] |
| BestOfN.AccuracyInUnit | evaluation/calculate_result.py:63 | the mean of unit-range scores lies in [0, 1] |
| BestOfN.CalcBestOfN | evaluation/calculate_result.py:10-64 | the method computes the specified accuracy |
| BestOfN.Accuracies | evaluation/calculate_result.py:89-92 | a successful run of the trials gives one accuracy per trial |
| BestOfN.Mean | evaluation/calculate_result.py:94 | `statistics.mean` fails exactly on empty data |
| BestOfN.AccuraciesFail | evaluation/calculate_result.py:90-92 | the first failing trial ends the run with its error |
| BestOfN.SumBounds | evaluation/calculate_result.py:94 | a sum of values in [0, 1] lies between 0 and their number |
| BestOfN.AccuraciesInUnit | evaluation/calculate_result.py:89-92 | every trial's accuracy lies in [0, 1] |
| BestOfN.MeanAccuracySpec | evaluation/calculate_result.py:89-94 | no trials gives `StatisticsError`, trials over an empty dataset give `ZeroDivisionError`, and the mean lies in [0, 1] |
| BestOfN.AverageTrials | evaluation/calculate_result.py:89-94 | the trials loop and `statistics.mean` compute the specified mean accuracy |
| BestOfN.WorkedExample | evaluation/calculate_result.py:35-61 | in a worked example, two solutions with equal passed-sets {1, 3} beat one with {2}; both are selected, and with one correct the task scores 0.5 |

## Left out

- Not modelled: file and JSON I/O (`load_jsonl`, `save_jsonl`, `open`, `json.dumps`), `tqdm`, `argparse` and `print`. Records are passed as values. A failed `json.dumps` is the `writable` predicate.
- Not modelled: the shell and docker steps of `evaluation/evaluate.py` (`exec_ut` and the driver), and the driver of `calculate_result.py` that builds the label dictionaries. The dictionaries are parameters.
- Not modelled: `preprocess/merge_output.py` and `preprocess/utils.py`.
- Executor: `exec` of the job code, the time limit, signals, the unittest runner and process termination are outside the model. How a job's code ends is a parameter (`WorkerRun`).
- Executor: UTF-8 decoding of the transcript is a parameter that may fail.
- Executor: `ProcessPoolExecutor` and `as_completed` are not modelled. The order in which a chunk's jobs complete is a given permutation.
- Executor: the worker writes cells that the parent reads. The model shows no concurrency, only the cells' final values.
- `random.shuffle` is not modelled. The order `ut_ids` has before each task is an argument (`orders[t]`), and one order list is given per trial. `CalcBestOfN` accepts any orders; `PassedSetBounds` assumes a true permutation of `0..99`.
- BestOfN.CalcBestOfN: does not model `round(…, 4)`, and computes in exact reals rather than floating point. The bounds proved hold for the exact values.
- BestOfN.AverageTrials: `statistics.mean` is the exact sum divided by the count.
- Result dictionaries keyed by text (`f"{task}-{sol}-{ut}"`, `f"{task}-{sol}"`) are keyed by tuples. The ids are non-negative integers, so the text keys of distinct tuples differ only if a task id contains `-` followed by digits. That aliasing is not modelled.
- `extract_class_names` and `extract_imports` (Python's `ast` module) are function parameters of the unit-test extraction.
- The regular expressions are modelled as scanners for their one pattern each. `\w` is ASCII letters, digits and `_`; Unicode word characters are not modelled.
- `list(ut_set)` has a hash-dependent order. The model returns the set itself.
- `evaluation/evaluate.py` reads solutions as plain strings for `livecodebench` and as `['solution']` fields otherwise. The model takes the solution text directly.
- PyInt.ParseInt: accepts ASCII decimal digits only; Python's `int()` also accepts other Unicode decimal digits (such as Arabic-Indic `١٢`), which the model rejects with `ValueError`.
- Evaluate.SelectSol: the start task comes from the benchmark name. The model takes it as an `Option`, where `None` is a benchmark with no start task (`UnboundLocalError`).

## Findings

| source | as written | input that shows it | evidently intended | confidence | as-written member | corrected member |
|---|---|---|---|---|---|---|
| evaluation/evaluate.py:82-95 | when a record's task differs from the current one, the `else` branch closes the old task and resets the counts but never counts that record, so the first record of every later task is lost | start task t0 with a failing record, then t1 records in sorted order where solution 0 passes on t1's first record (solution 0, test 0) and solution 1 passes once later: as written the counts are [0, 1] and solution 1 is chosen, while counting every record gives [1, 1] and solution 0 | every record of a task counts toward its tally | not executed | Evaluate.FirstLineOfTaskNotCounted | Evaluate.TaskBlock |
