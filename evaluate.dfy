/**
 * The two sequential stages of the evaluation script: pairing every solution of a task with
 * every unit test of the task to make the executor's jobs, and, from the executor's result
 * lines, choosing for each task the solution that passes the most unit tests.
 */
module Evaluate {
  import opened Wrappers
  import opened Seqs
  import opened Sorting
  import opened PyStr
  import opened PyInt
  import opened Records

  // ---------------------------------------------------------------------------------------
  // Job generation
  // ---------------------------------------------------------------------------------------

  /** A task of the solution file: its id and the texts of its sampled solutions. */
  datatype SolutionTask = SolutionTask(taskId: string, solutions: seq<string>)

  /** What a job's code puts between the solution and the unit test. */
  const CodeSeparator := "\n\n"

  /** How many of a task's `count` unit tests are paired: the ids the loop passes before it
      reaches one equal to `utNum` and breaks, or all of them when none is. */
  function TestsUsed(count: nat, utNum: int): (m: nat)
    ensures m <= count
    ensures !(0 <= utNum < m)
    ensures m == count || m == utNum
  {
    if 0 <= utNum < count then utNum else count
  }

  /** Task `i` can be paired without an index error: with at least one solution asked for, the
      task must have a unit-test entry, and when any of its tests is used it must have
      `solNum` solutions. */
  predicate TaskOk(sols: seq<SolutionTask>, tests: seq<seq<string>>, solNum: int, utNum: int,
                   i: nat)
    requires i < |sols|
  {
    solNum <= 0 ||
    (i < |tests| && (TestsUsed(|tests[i]|, utNum) == 0 || solNum <= |sols[i].solutions|))
  }

  /** The jobs pairing solution `s` of `task` with its first `m` unit tests, in test order. */
  function PairJobs(task: SolutionTask, s: nat, tests: seq<string>, m: nat): (r: seq<Job>)
    requires m <= |tests| && (m == 0 || s < |task.solutions|)
    ensures |r| == m
  {
    if m == 0 then []
    else
      PairJobs(task, s, tests, m - 1)
      + [Job(task.taskId, s, m - 1, task.solutions[s] + CodeSeparator + tests[m - 1])]
  }

  /** The jobs of the first `n` solutions of `task`, each paired with the first `m` tests. */
  function SolutionJobs(task: SolutionTask, tests: seq<string>, m: nat, n: nat): (r: seq<Job>)
    requires m <= |tests| && (m == 0 || n <= |task.solutions|)
    ensures |r| == n * m
  {
    if n == 0 then [] else SolutionJobs(task, tests, m, n - 1) + PairJobs(task, n - 1, tests, m)
  }

  /** The job of solution `s` with test `u`. */
  function PairJob(task: SolutionTask, s: nat, tests: seq<string>, u: nat): Job
    requires s < |task.solutions| && u < |tests|
  {
    Job(task.taskId, s, u, task.solutions[s] + CodeSeparator + tests[u])
  }

  /** Job `u` of a solution pairs it with test `u`. */
  lemma {:induction false} PairJobsAt(task: SolutionTask, s: nat, tests: seq<string>, m: nat, u: nat)
    requires m <= |tests| && s < |task.solutions| && u < m
    ensures PairJobs(task, s, tests, m)[u] == PairJob(task, s, tests, u)
    decreases m
  {
    if u < m - 1 {
      PairJobsAt(task, s, tests, m - 1, u);
    }
  }

  /** The jobs of a task are laid out solution by solution, and within a solution test by
      test: job `s * m + u` pairs solution `s` with test `u`. */
  lemma {:induction false} SolutionJobsAt(task: SolutionTask, tests: seq<string>, m: nat, n: nat,
                                          s: nat, u: nat)
    requires m <= |tests| && n <= |task.solutions| && s < n && u < m
    ensures s * m + u < |SolutionJobs(task, tests, m, n)|
    ensures SolutionJobs(task, tests, m, n)[s * m + u] == PairJob(task, s, tests, u)
    decreases n
  {
    var before := SolutionJobs(task, tests, m, n - 1);
    if s < n - 1 {
      RowBefore(s, n - 1, m, u);
      SolutionJobsAt(task, tests, m, n - 1, s, u);
    } else {
      PairJobsAt(task, s, tests, m, u);
    }
  }

  /** Cell `u` of row `s` comes before row `n` of a table with rows of `m` cells. */
  lemma RowBefore(s: nat, n: nat, m: nat, u: nat)
    requires s < n && u < m
    ensures s * m + u < n * m
  {
    var k: nat := n - s - 1;
    assert n * m == (s + 1 + k) * m == s * m + m + k * m;
  }

  /** The jobs of task `i`. */
  function TaskJobs(sols: seq<SolutionTask>, tests: seq<seq<string>>, solNum: int, utNum: int,
                    i: nat): seq<Job>
    requires i < |sols| && TaskOk(sols, tests, solNum, utNum, i)
  {
    if solNum <= 0 then []
    else SolutionJobs(sols[i], tests[i], TestsUsed(|tests[i]|, utNum), solNum)
  }

  /** The jobs of the first `n` tasks, task after task, or the index error of the first task
      that cannot be paired. */
  function JobsUpTo(sols: seq<SolutionTask>, tests: seq<seq<string>>, solNum: int, utNum: int,
                    n: nat): Result<seq<Job>>
    requires n <= |sols|
  {
    if n == 0 then Ok([])
    else
      match JobsUpTo(sols, tests, solNum, utNum, n - 1)
      case Err(e) => Err(e)
      case Ok(jobs) =>
        if TaskOk(sols, tests, solNum, utNum, n - 1)
        then Ok(jobs + TaskJobs(sols, tests, solNum, utNum, n - 1))
        else Err(IndexError)
  }

  /** The job list written for the executor, or the index error that stops the script. */
  function Jobs(sols: seq<SolutionTask>, tests: seq<seq<string>>, solNum: int, utNum: int)
    : Result<seq<Job>>
  {
    JobsUpTo(sols, tests, solNum, utNum, |sols|)
  }

  /** Once a task fails, the job list is that failure. */
  lemma {:induction false} JobsUpToFails(sols: seq<SolutionTask>, tests: seq<seq<string>>,
                                         solNum: int, utNum: int, i: nat, n: nat)
    requires i < n <= |sols| && JobsUpTo(sols, tests, solNum, utNum, i).Ok?
    requires !TaskOk(sols, tests, solNum, utNum, i)
    ensures JobsUpTo(sols, tests, solNum, utNum, n) == Err(IndexError)
    decreases n
  {
    if n > i + 1 {
      JobsUpToFails(sols, tests, solNum, utNum, i, n - 1);
    }
  }

  /** The loop over the tasks, which stops the script at the first index error. */
  method GenerateJobs(sols: seq<SolutionTask>, tests: seq<seq<string>>, solNum: int, utNum: int)
    returns (r: Result<seq<Job>>)
    ensures r == Jobs(sols, tests, solNum, utNum)
  {
    var output: seq<Job> := [];
    for i := 0 to |sols|
      invariant JobsUpTo(sols, tests, solNum, utNum, i) == Ok(output)
    {
      var jobs := PairTask(sols, tests, solNum, utNum, i);
      if jobs.Err? {
        JobsUpToFails(sols, tests, solNum, utNum, i, |sols|);
        return Err(IndexError);
      }
      output := output + jobs.value;
    }
    return Ok(output);
  }

  /** The loop over the solution ids of task `i`; the task's unit tests are looked up anew for
      each solution. */
  method PairTask(sols: seq<SolutionTask>, tests: seq<seq<string>>, solNum: int, utNum: int,
                  i: nat) returns (r: Result<seq<Job>>)
    requires i < |sols|
    ensures TaskOk(sols, tests, solNum, utNum, i) ==> r == Ok(TaskJobs(sols, tests, solNum, utNum, i))
    ensures !TaskOk(sols, tests, solNum, utNum, i) ==> r == Err(IndexError)
  {
    var output: seq<Job> := [];
    var solId := 0;
    while solId < solNum
      invariant 0 <= solId <= (if solNum > 0 then solNum else 0)
      invariant solId == 0 ==> output == []
      invariant solId > 0 ==> i < |tests|
      invariant solId > 0 ==>
        var m := TestsUsed(|tests[i]|, utNum);
        (m == 0 || solId <= |sols[i].solutions|) && output == SolutionJobs(sols[i], tests[i], m, solId)
    {
      if i >= |tests| {
        return Err(IndexError);
      }
      var pairs := PairWithTests(sols[i], solId, tests[i], utNum);
      if pairs.Err? {
        return Err(IndexError);
      }
      output := output + pairs.value;
      solId := solId + 1;
    }
    return Ok(output);
  }

  /** The innermost loop: solution `solId` of `task` paired with each unit test in turn, until
      test id `utNum`; looking the solution up fails when the task has too few solutions. */
  method PairWithTests(task: SolutionTask, solId: nat, unitTests: seq<string>, utNum: int)
    returns (r: Result<seq<Job>>)
    ensures var m := TestsUsed(|unitTests|, utNum);
      if m > 0 && solId >= |task.solutions| then r == Err(IndexError)
      else r == Ok(PairJobs(task, solId, unitTests, m))
  {
    var output: seq<Job> := [];
    var utId := 0;
    while utId < |unitTests|
      invariant utId <= TestsUsed(|unitTests|, utNum)
      invariant utId > 0 ==> solId < |task.solutions|
      invariant utId > 0 ==> output == PairJobs(task, solId, unitTests, utId)
      invariant utId == 0 ==> output == []
    {
      if utId == utNum {
        break;
      }
      if solId >= |task.solutions| {
        return Err(IndexError);
      }
      var code := task.solutions[solId] + CodeSeparator + unitTests[utId];
      output := output + [Job(task.taskId, solId, utId, code)];
      utId := utId + 1;
    }
    return Ok(output);
  }

  // ---------------------------------------------------------------------------------------
  // Solution selection
  // ---------------------------------------------------------------------------------------

  /** `int(task_id.split('/')[1])`: the number after the first `/` of a task id. */
  function TaskNumber(taskId: string): (r: Result<int>)
    ensures r.Err? ==> r.error == IndexError || r.error == ValueError
  {
    var parts := Split(taskId, '/');
    if |parts| < 2 then Err(IndexError) else ParseInt(parts[1])
  }

  /** A task id made of a name, `/` and a number gives that number back. */
  lemma TaskNumberOf(name: string, n: nat)
    requires '/' !in name
    ensures TaskNumber(name + "/" + NatToString(n)) == Ok(n)
  {
    var digits := NatToString(n);
    NatToStringDigits(n);
    assert '/' !in digits by {
      forall k | 0 <= k < |digits| ensures digits[k] != '/' {
        assert IsDigit(digits[k]);
      }
    }
    assert name + "/" + digits == name + ['/'] + digits;
    SplitTwo(name, digits, '/');
    ParseNatToString(n);
  }

  /** A result line with the number of its task, the first part of its sort key. */
  datatype Keyed = Keyed(number: int, record: ResultRecord)

  function KeyedRecord(k: Keyed): ResultRecord
  {
    k.record
  }

  /** The sort keys of all lines, computed in order by `number` from each line's task id: the
      first line without one stops the script. */
  function KeyAll(dataset: seq<ResultRecord>, number: string -> Result<int>): (r: Result<seq<Keyed>>)
    ensures r.Ok? ==> |r.value| == |dataset|
  {
    if dataset == [] then Ok([])
    else
      var last := dataset[|dataset| - 1];
      match KeyAll(dataset[..|dataset| - 1], number)
      case Err(e) => Err(e)
      case Ok(keyed) =>
        match number(last.taskId)
        case Err(e) => Err(e)
        case Ok(n) => Ok(keyed + [Keyed(n, last)])
  }

  /** The keys are computed for every line, each from its own task id; they fail exactly when
      some task id has no number. */
  lemma {:induction false} KeyAllSpec(dataset: seq<ResultRecord>, number: string -> Result<int>)
    ensures KeyAll(dataset, number).Ok? <==> forall k :: 0 <= k < |dataset| ==> number(dataset[k].taskId).Ok?
    ensures KeyAll(dataset, number).Ok? ==>
      && Map(KeyAll(dataset, number).value, KeyedRecord) == dataset
      && forall k :: 0 <= k < |dataset| ==> number(dataset[k].taskId) == Ok(KeyAll(dataset, number).value[k].number)
    decreases |dataset|
  {
    if dataset != [] {
      var n := |dataset|;
      var pre := dataset[..n - 1];
      KeyAllSpec(pre, number);
      if KeyAll(dataset, number).Ok? {
        var keyed := KeyAll(dataset, number).value;
        assert keyed[..n - 1] == KeyAll(pre, number).value;
        assert dataset == pre + [dataset[n - 1]];
      }
    }
  }

  /** `select_sol`'s sort key: the task number, then the solution id, then the unit-test id. */
  predicate KeyedLe(a: Keyed, b: Keyed)
  {
    if a.number != b.number then a.number < b.number
    else if a.record.solId != b.record.solId then a.record.solId < b.record.solId
    else a.record.utId <= b.record.utId
  }

  lemma KeyedTotalPreorder()
    ensures TotalPreorder(KeyedLe)
  {
  }

  /** The result lines in `select_sol`'s order, or the error computing a key. */
  function SortedDataset(dataset: seq<ResultRecord>): Result<seq<ResultRecord>>
  {
    match KeyAll(dataset, TaskNumber)
    case Err(e) => Err(e)
    case Ok(keyed) => Ok(Map(SortBy(keyed, StrictOf(KeyedLe)), KeyedRecord))
  }

  /** The lines come out in order of task number, solution id and unit-test id, and they are
      the lines that went in. */
  lemma SortedDatasetSpec(dataset: seq<ResultRecord>)
    requires KeyAll(dataset, TaskNumber).Ok?
    ensures var sorted := SortBy(KeyAll(dataset, TaskNumber).value, StrictOf(KeyedLe));
      && SortedBy(sorted, StrictOf(KeyedLe))
      && SortedDataset(dataset) == Ok(Map(sorted, KeyedRecord))
      && multiset(Map(sorted, KeyedRecord)) == multiset(dataset)
  {
    var keyed := KeyAll(dataset, TaskNumber).value;
    var sorted := SortBy(keyed, StrictOf(KeyedLe));
    KeyedTotalPreorder();
    StrictOfTotalPreorder(KeyedLe);
    SortBySorted(keyed, StrictOf(KeyedLe));
    SortByPermutes(keyed, StrictOf(KeyedLe));
    KeyAllSpec(dataset, TaskNumber);
    MapPreservesMultiset(sorted, keyed, KeyedRecord);
  }

  /** Task 9 comes before task 10 in `select_sol`'s order, while Python's string order, which
      the executor sorts its output by, puts task 10 first. */
  lemma NumericTaskOrder(name: string)
    requires '/' !in name
    ensures TaskNumber(name + "/" + NatToString(9)) == Ok(9)
    ensures TaskNumber(name + "/" + NatToString(10)) == Ok(10)
    ensures StrLe(name + "/" + NatToString(10), name + "/" + NatToString(9))
    ensures !StrLe(name + "/" + NatToString(9), name + "/" + NatToString(10))
  {
    TaskNumberOf(name, 9);
    TaskNumberOf(name, 10);
    StrLeCommonPrefix(name + "/", NatToString(10), NatToString(9));
    StrLeCommonPrefix(name + "/", NatToString(9), NatToString(10));
  }

  /** The `{i: 0 for i in range(sol_num)}` tally: one zero count per solution id. */
  function Zeros(solNum: int): (r: seq<nat>)
    ensures |r| == if solNum > 0 then solNum else 0
  {
    seq(if solNum > 0 then solNum else 0, _ => 0)
  }

  /** The tally's items, `(solution id, count)`, in insertion order. */
  function Entries(counts: seq<nat>): (r: seq<(nat, nat)>)
    ensures |r| == |counts|
  {
    seq(|counts|, k requires 0 <= k < |counts| => (k, counts[k]))
  }

  /** Items compared by count, larger first. */
  predicate CountGe(a: (nat, nat), b: (nat, nat))
  {
    a.1 >= b.1
  }

  lemma CountGeTotalPreorder()
    ensures TotalPreorder(CountGe)
  {
  }

  /** `sorted(solution_dict.items(), key=count, reverse=True)[0][0]`; an empty tally has no
      first item. */
  function Best(counts: seq<nat>): Result<nat>
  {
    if |counts| == 0 then Err(IndexError)
    else Ok(SortBy(Entries(counts), StrictOf(CountGe))[0].0)
  }

  /** The first solution id with the largest count. */
  function FirstMax(counts: seq<nat>): (i: nat)
    requires |counts| > 0
    ensures i < |counts|
    ensures forall j :: 0 <= j < |counts| ==> counts[j] <= counts[i]
    ensures forall j :: 0 <= j < i ==> counts[j] < counts[i]
  {
    if |counts| == 1 then 0
    else
      var k := FirstMax(counts[..|counts| - 1]);
      if counts[|counts| - 1] > counts[k] then |counts| - 1 else k
  }

  /** The stable descending sort puts first the lowest solution id with the most passes. */
  lemma BestIsFirstMax(counts: seq<nat>)
    requires |counts| > 0
    ensures Best(counts) == Ok(FirstMax(counts))
  {
    var entries := Entries(counts);
    var i := FirstMax(counts);
    CountGeTotalPreorder();
    StrictOfTotalPreorder(CountGe);
    SortByHead(entries, StrictOf(CountGe), i);
  }

  /** The choice made for a task. */
  datatype Choice = Choice(taskId: string, solId: nat)

  /** The loop's state: the task being tallied, its pass counts, and the choices made so far. */
  datatype Tally = Tally(current: string, counts: seq<nat>, chosen: seq<Choice>)

  /** A line of the current task: a pass adds one to its solution's count, which fails for a
      solution id outside the tally; a fail changes nothing. */
  function Count(t: Tally, rec: ResultRecord): (r: Result<Tally>)
    ensures r.Ok? ==> r.value.current == t.current && r.value.chosen == t.chosen
    ensures r.Ok? ==> |r.value.counts| == |t.counts|
  {
    if rec.result == Pass then
      if 0 <= rec.solId < |t.counts| then Ok(t.(counts := t.counts[rec.solId := t.counts[rec.solId] + 1]))
      else Err(KeyError)
    else Ok(t)
  }

  /** A line of another task: choose for the current task, then tally the line's task from
      zero. */
  function Switch(t: Tally, rec: ResultRecord, solNum: int): (r: Result<Tally>)
    ensures r.Ok? ==> r.value.current == rec.taskId && r.value.counts == Zeros(solNum)
  {
    match Best(t.counts)
    case Err(e) => Err(e)
    case Ok(b) => Ok(Tally(rec.taskId, Zeros(solNum), t.chosen + [Choice(t.current, b)]))
  }

  /** One iteration of `select_sol`'s loop. As written, the line at which the task changes is
      not counted; `corrected` counts it. */
  function Step(t: Tally, rec: ResultRecord, solNum: int, corrected: bool): Result<Tally>
  {
    if rec.taskId == t.current then Count(t, rec)
    else
      match Switch(t, rec, solNum)
      case Err(e) => Err(e)
      case Ok(u) => if corrected then Count(u, rec) else Ok(u)
  }

  /** The loop over the sorted lines, from the tally `init`. */
  function Run(recs: seq<ResultRecord>, init: Tally, solNum: int, corrected: bool): Result<Tally>
  {
    if recs == [] then Ok(init)
    else
      match Run(recs[..|recs| - 1], init, solNum, corrected)
      case Err(e) => Err(e)
      case Ok(t) => Step(t, recs[|recs| - 1], solNum, corrected)
  }

  /** The choices for a sorted list of lines, starting from the task `start`: one per change
      of task, and one for the task tallied last. */
  function SelectFrom(ordered: seq<ResultRecord>, start: string, solNum: int, corrected: bool)
    : Result<seq<Choice>>
  {
    match Run(ordered, Tally(start, Zeros(solNum), []), solNum, corrected)
    case Err(e) => Err(e)
    case Ok(t) =>
      match Best(t.counts)
      case Err(e) => Err(e)
      case Ok(b) => Ok(t.chosen + [Choice(t.current, b)])
  }

  /** How many lines of `recs` are passes of solution `j`. */
  function Passes(recs: seq<ResultRecord>, j: int): nat
  {
    if recs == [] then 0
    else
      var last := recs[|recs| - 1];
      Passes(recs[..|recs| - 1], j) + if last.result == Pass && last.solId == j then 1 else 0
  }

  /** The passes of each solution id `0 .. solNum - 1`. */
  function PassCounts(recs: seq<ResultRecord>, solNum: int): (r: seq<nat>)
    ensures |r| == if solNum > 0 then solNum else 0
  {
    seq(if solNum > 0 then solNum else 0, j => Passes(recs, j))
  }

  /** Every line of `recs` belongs to task `taskId`. */
  predicate SameTask(recs: seq<ResultRecord>, taskId: string)
  {
    forall k :: 0 <= k < |recs| ==> recs[k].taskId == taskId
  }

  /** Every pass in `recs` names a solution id of the tally. */
  predicate KnownIds(recs: seq<ResultRecord>, solNum: int)
  {
    forall k :: 0 <= k < |recs| && recs[k].result == Pass ==> 0 <= recs[k].solId < solNum
  }

  lemma ZerosNoPasses(solNum: int)
    ensures Zeros(solNum) == PassCounts([], solNum)
  {
  }

  /** Counting a line keeps the tally equal to the passes counted so far. */
  lemma CountStep(t: Tally, prev: seq<ResultRecord>, rec: ResultRecord, solNum: int)
    requires t.counts == PassCounts(prev, solNum)
    requires rec.result == Pass ==> 0 <= rec.solId < solNum
    ensures Count(t, rec) == Ok(t.(counts := PassCounts(prev + [rec], solNum)))
  {
    var after := PassCounts(prev + [rec], solNum);
    assert (prev + [rec])[..|prev|] == prev;
    forall j | 0 <= j < |after|
      ensures after[j] == t.counts[j] + if rec.result == Pass && rec.solId == j then 1 else 0
    {
      assert after[j] == Passes(prev + [rec], j);
    }
    if rec.result == Pass {
      assert after == t.counts[rec.solId := t.counts[rec.solId] + 1];
    } else {
      assert after == t.counts;
    }
  }

  /** Running over lines of the current task adds their passes to the tally. */
  lemma {:induction false} CountRun(t: Tally, prev: seq<ResultRecord>, run: seq<ResultRecord>,
                                    solNum: int, corrected: bool)
    requires t.counts == PassCounts(prev, solNum)
    requires SameTask(run, t.current) && KnownIds(run, solNum)
    ensures Run(run, t, solNum, corrected) == Ok(t.(counts := PassCounts(prev + run, solNum)))
    decreases |run|
  {
    if run == [] {
      assert prev + run == prev;
    } else {
      var m := |run|;
      var pre := run[..m - 1];
      CountRun(t, prev, pre, solNum, corrected);
      CountStep(t.(counts := PassCounts(prev + pre, solNum)), prev + pre, run[m - 1], solNum);
      assert prev + pre + [run[m - 1]] == prev + run;
    }
  }

  /** Running over two lists of lines one after the other. */
  lemma {:induction false} RunAppend(xs: seq<ResultRecord>, ys: seq<ResultRecord>, init: Tally,
                                     solNum: int, corrected: bool)
    ensures Run(xs, init, solNum, corrected).Err? ==>
      Run(xs + ys, init, solNum, corrected) == Run(xs, init, solNum, corrected)
    ensures Run(xs, init, solNum, corrected).Ok? ==>
      Run(xs + ys, init, solNum, corrected) == Run(ys, Run(xs, init, solNum, corrected).value, solNum, corrected)
    decreases |ys|
  {
    if ys == [] {
      assert xs + ys == xs;
    } else {
      var m := |ys|;
      assert (xs + ys)[..|xs + ys| - 1] == xs + ys[..m - 1];
      RunAppend(xs, ys[..m - 1], init, solNum, corrected);
    }
  }

  /** A block of lines of a new task: its first line closes the current task with the choice
      of the first solution with the most passes, and the block's passes are tallied. As
      written the block's first line is not among them; corrected it is. */
  lemma TaskBlock(t: Tally, rec: ResultRecord, run: seq<ResultRecord>, solNum: int, corrected: bool)
    requires rec.taskId != t.current && |t.counts| > 0
    requires SameTask(run, rec.taskId) && KnownIds([rec] + run, solNum)
    ensures Run([rec] + run, t, solNum, corrected) ==
      Ok(Tally(rec.taskId, PassCounts(if corrected then [rec] + run else run, solNum),
               t.chosen + [Choice(t.current, FirstMax(t.counts))]))
  {
    KnownIdsSplit(rec, run, solNum);
    RunAppend([rec], run, t, solNum, corrected);
    SwitchStep(t, rec, solNum, corrected);
    var prev := if corrected then [rec] else [];
    var u := Tally(rec.taskId, PassCounts(prev, solNum), t.chosen + [Choice(t.current, FirstMax(t.counts))]);
    CountRun(u, prev, run, solNum, corrected);
    assert prev + run == if corrected then [rec] + run else run;
  }

  lemma KnownIdsSplit(rec: ResultRecord, run: seq<ResultRecord>, solNum: int)
    requires KnownIds([rec] + run, solNum)
    ensures KnownIds(run, solNum) && (rec.result == Pass ==> 0 <= rec.solId < solNum)
  {
    assert ([rec] + run)[0] == rec;
    forall k | 0 <= k < |run| && run[k].result == Pass ensures 0 <= run[k].solId < solNum {
      assert ([rec] + run)[k + 1] == run[k];
    }
  }

  /** The line at which the task changes: the choice for the current task, then a tally of
      the new task that holds that line's pass only when corrected. */
  lemma SwitchStep(t: Tally, rec: ResultRecord, solNum: int, corrected: bool)
    requires rec.taskId != t.current && |t.counts| > 0
    requires rec.result == Pass ==> 0 <= rec.solId < solNum
    ensures Run([rec], t, solNum, corrected) ==
      Ok(Tally(rec.taskId, PassCounts(if corrected then [rec] else [], solNum),
               t.chosen + [Choice(t.current, FirstMax(t.counts))]))
  {
    assert [rec][..0] == [];
    BestIsFirstMax(t.counts);
    ZerosNoPasses(solNum);
    var u := Tally(rec.taskId, Zeros(solNum), t.chosen + [Choice(t.current, FirstMax(t.counts))]);
    if corrected {
      CountStep(u, [], rec, solNum);
      assert [] + [rec] == [rec];
    }
  }

  /** The task of the last line, or `start` when there are no lines. */
  function LastTask(start: string, recs: seq<ResultRecord>): string
  {
    if recs == [] then start else recs[|recs| - 1].taskId
  }

  /** How many lines have a task other than the line before them (the first line: other than
      `start`). */
  function Switches(start: string, recs: seq<ResultRecord>): nat
  {
    if recs == [] then 0
    else
      var pre := recs[..|recs| - 1];
      Switches(start, pre) + if recs[|recs| - 1].taskId != LastTask(start, pre) then 1 else 0
  }

  /** The loop tallies the task of the line it saw last, and adds one choice at each change of
      task to the choices it started with. */
  lemma {:induction false} RunTracks(recs: seq<ResultRecord>, init: Tally, solNum: int, corrected: bool)
    requires Run(recs, init, solNum, corrected).Ok?
    ensures Run(recs, init, solNum, corrected).value.current == LastTask(init.current, recs)
    ensures |Run(recs, init, solNum, corrected).value.chosen| == |init.chosen| + Switches(init.current, recs)
    ensures Run(recs, init, solNum, corrected).value.chosen[..|init.chosen|] == init.chosen
    decreases |recs|
  {
    if recs != [] {
      var pre := recs[..|recs| - 1];
      RunTracks(pre, init, solNum, corrected);
      var t := Run(pre, init, solNum, corrected).value;
      var u := Run(recs, init, solNum, corrected).value;
      assert u.chosen[..|t.chosen|] == t.chosen;
      assert t.chosen[..|init.chosen|] == init.chosen;
    }
  }

  /** One choice per change of task and one for the last task, which is the task of the last
      line. */
  lemma ChoicesPerTask(ordered: seq<ResultRecord>, start: string, solNum: int, corrected: bool)
    requires SelectFrom(ordered, start, solNum, corrected).Ok?
    ensures |SelectFrom(ordered, start, solNum, corrected).value| == 1 + Switches(start, ordered)
    ensures SelectFrom(ordered, start, solNum, corrected).value[Switches(start, ordered)].taskId ==
      LastTask(start, ordered)
  {
    RunTracks(ordered, Tally(start, Zeros(solNum), []), solNum, corrected);
  }

  /** The first solution has the most passes in an all-zero tally. */
  lemma FirstMaxZeros(solNum: int)
    requires solNum > 0
    ensures FirstMax(Zeros(solNum)) == 0
  {
    var i := FirstMax(Zeros(solNum));
    assert Zeros(solNum)[0] == 0 == Zeros(solNum)[i];
  }

  /** When the first line's task is not the start task, the start task gets a choice of its
      own, solution 0, from an empty tally. */
  lemma StartTaskChosen(ordered: seq<ResultRecord>, start: string, solNum: int, corrected: bool)
    requires ordered != [] && ordered[0].taskId != start && solNum > 0
    requires SelectFrom(ordered, start, solNum, corrected).Ok?
    ensures SelectFrom(ordered, start, solNum, corrected).value[0] == Choice(start, 0)
  {
    RunFromStart(ordered, start, solNum, corrected);
  }

  lemma RunFromStart(ordered: seq<ResultRecord>, start: string, solNum: int, corrected: bool)
    requires ordered != [] && ordered[0].taskId != start && solNum > 0
    requires Run(ordered, Tally(start, Zeros(solNum), []), solNum, corrected).Ok?
    ensures var t := Run(ordered, Tally(start, Zeros(solNum), []), solNum, corrected).value;
      |t.chosen| > 0 && t.chosen[0] == Choice(start, 0)
  {
    var init := Tally(start, Zeros(solNum), []);
    assert ordered == [ordered[0]] + ordered[1..];
    RunAppend([ordered[0]], ordered[1..], init, solNum, corrected);
    SwitchFromStart(ordered[0], start, solNum, corrected);
    var u := Run([ordered[0]], init, solNum, corrected).value;
    RunTracks(ordered[1..], u, solNum, corrected);
  }

  /** A first line of another task than `start` chooses solution 0 for `start`. */
  lemma SwitchFromStart(rec: ResultRecord, start: string, solNum: int, corrected: bool)
    requires rec.taskId != start && solNum > 0
    ensures var run := Run([rec], Tally(start, Zeros(solNum), []), solNum, corrected);
      run.Ok? ==> run.value.chosen == [Choice(start, 0)]
  {
    assert [rec][..0] == [];
    BestIsFirstMax(Zeros(solNum));
    FirstMaxZeros(solNum);
  }

  /** The lines of two tasks that show the first line of a later task going uncounted. */
  function ExampleLines(t0: string, t1: string, d: Details): seq<ResultRecord>
  {
    [ResultRecord(t0, 0, 0, Fail, d)] + ExampleBlock(t1, d)
  }

  /** Solutions 0 and 1 each pass one of two unit tests; solution 0's pass comes first. */
  function ExampleBlock(t1: string, d: Details): seq<ResultRecord>
  {
    [ResultRecord(t1, 0, 0, Pass, d), ResultRecord(t1, 0, 1, Fail, d),
     ResultRecord(t1, 1, 0, Fail, d), ResultRecord(t1, 1, 1, Pass, d)]
  }

  /** As written, the pass of solution 0 at the change of task is lost, so solution 1 is
      chosen although both pass one test each; counted, the tie goes to solution 0. */
  lemma FirstLineOfTaskNotCounted(t0: string, t1: string, d: Details)
    requires t0 != t1
    ensures PassCounts(ExampleBlock(t1, d), 2) == [1, 1]
    ensures SelectFrom(ExampleLines(t0, t1, d), t0, 2, false) == Ok([Choice(t0, 0), Choice(t1, 1)])
    ensures SelectFrom(ExampleLines(t0, t1, d), t0, 2, true) == Ok([Choice(t0, 0), Choice(t1, 0)])
  {
    ExampleCounts(t1, d);
    ExampleChoice(t0, t1, d, false, [0, 1]);
    ExampleChoice(t0, t1, d, true, [1, 1]);
  }

  /** The example's choices, from the counts its loop ends with. */
  lemma ExampleChoice(t0: string, t1: string, d: Details, corrected: bool, counts: seq<nat>)
    requires t0 != t1
    requires counts == PassCounts(if corrected then ExampleBlock(t1, d) else ExampleBlock(t1, d)[1..], 2)
    ensures |counts| == 2
    ensures SelectFrom(ExampleLines(t0, t1, d), t0, 2, corrected) ==
      Ok([Choice(t0, 0), Choice(t1, FirstMax(counts))])
  {
    ExampleRun(t0, t1, d, corrected);
    var t := Tally(t1, counts, [Choice(t0, 0)]);
    assert Run(ExampleLines(t0, t1, d), Tally(t0, Zeros(2), []), 2, corrected) == Ok(t);
    BestIsFirstMax(counts);
    assert t.chosen + [Choice(t1, FirstMax(counts))] == [Choice(t0, 0), Choice(t1, FirstMax(counts))];
  }

  /** The example's loop ends in task `t1` having chosen solution 0 for `t0`, with the passes
      of the block, less its first line unless corrected. */
  lemma ExampleRun(t0: string, t1: string, d: Details, corrected: bool)
    requires t0 != t1
    ensures Run(ExampleLines(t0, t1, d), Tally(t0, Zeros(2), []), 2, corrected) ==
      Ok(Tally(t1, PassCounts(if corrected then ExampleBlock(t1, d) else ExampleBlock(t1, d)[1..], 2),
               [Choice(t0, 0)]))
  {
    var block := ExampleBlock(t1, d);
    var first := ResultRecord(t0, 0, 0, Fail, d);
    var init := Tally(t0, Zeros(2), []);
    FirstMaxZeros(2);
    RunAppend([first], block, init, 2, corrected);
    assert [first] + block == ExampleLines(t0, t1, d);
    FailKeepsTally(first, init, 2, corrected);
    assert block == [block[0]] + block[1..];
    TaskBlock(init, block[0], block[1..], 2, corrected);
    assert init.chosen + [Choice(t0, FirstMax(init.counts))] == [Choice(t0, 0)];
  }

  /** A failing line of the current task leaves the tally as it is. */
  lemma FailKeepsTally(rec: ResultRecord, t: Tally, solNum: int, corrected: bool)
    requires rec.taskId == t.current && rec.result == Fail
    ensures Run([rec], t, solNum, corrected) == Ok(t)
  {
    assert [rec][..0] == [];
  }

  /** One more line adds its pass, if it is one, to its solution's count. */
  lemma PassesSnoc(recs: seq<ResultRecord>, rec: ResultRecord, j: int)
    ensures Passes(recs + [rec], j) == Passes(recs, j) + if rec.result == Pass && rec.solId == j then 1 else 0
  {
    assert (recs + [rec])[..|recs|] == recs;
  }

  lemma ExampleCounts(t1: string, d: Details)
    ensures PassCounts(ExampleBlock(t1, d), 2) == [1, 1]
    ensures PassCounts(ExampleBlock(t1, d)[1..], 2) == [0, 1]
  {
    var block := ExampleBlock(t1, d);
    var r0, r1, r2, r3 := block[0], block[1], block[2], block[3];
    assert block == [r0] + [r1] + [r2] + [r3];
    assert block[1..] == [r1] + [r2] + [r3];
    forall j | 0 <= j < 2
      ensures Passes(block, j) == 1
      ensures Passes(block[1..], j) == j
    {
      PassesSnoc([], r0, j);
      PassesSnoc([r0], r1, j);
      PassesSnoc([r0] + [r1], r2, j);
      PassesSnoc([r0] + [r1] + [r2], r3, j);
      PassesSnoc([], r1, j);
      PassesSnoc([r1], r2, j);
      PassesSnoc([r1] + [r2], r3, j);
      assert [] + [r0] == [r0] && [] + [r1] == [r1];
    }
  }

  /** An output line of `select_sol`: a task id and the text of the solution chosen for it. */
  datatype Selection = Selection(taskId: string, solution: string)

  /** The chosen solutions looked up in the solution file, entry `i` of which holds the
      solutions of the task of choice `i`. */
  function Pick(chosen: seq<Choice>, solDataset: seq<seq<string>>): (r: Result<seq<Selection>>)
    ensures r.Err? ==> r.error == IndexError
  {
    if chosen == [] then Ok([])
    else
      var i := |chosen| - 1;
      match Pick(chosen[..i], solDataset)
      case Err(e) => Err(e)
      case Ok(out) =>
        if i < |solDataset| && chosen[i].solId < |solDataset[i]|
        then Ok(out + [Selection(chosen[i].taskId, solDataset[i][chosen[i].solId])])
        else Err(IndexError)
  }

  /** Choice `i` is looked up by position in entry `i` of the solution file, whatever task that
      entry is for; the lookup fails exactly when some entry or solution is missing. */
  lemma {:induction false} PickSpec(chosen: seq<Choice>, solDataset: seq<seq<string>>)
    ensures Pick(chosen, solDataset).Ok? <==>
      forall i :: 0 <= i < |chosen| ==> i < |solDataset| && chosen[i].solId < |solDataset[i]|
    ensures Pick(chosen, solDataset).Ok? ==>
      && |Pick(chosen, solDataset).value| == |chosen|
      && forall i :: 0 <= i < |chosen| ==>
        Pick(chosen, solDataset).value[i] == Selection(chosen[i].taskId, solDataset[i][chosen[i].solId])
    decreases |chosen|
  {
    if chosen != [] {
      var n := |chosen|;
      PickSpec(chosen[..n - 1], solDataset);
      if Pick(chosen, solDataset).Ok? {
        assert Pick(chosen, solDataset).value[..n - 1] == Pick(chosen[..n - 1], solDataset).value;
      }
    }
  }

  /** `select_sol`'s output: the lines sorted, tallied from the benchmark's start task (none for
      a benchmark other than HumanEval and MBPP, whose tally variable is then never set), and
      the chosen solutions looked up. */
  function Select(dataset: seq<ResultRecord>, start: Option<string>, solNum: int,
                  solDataset: seq<seq<string>>, corrected: bool): Result<seq<Selection>>
  {
    match SortedDataset(dataset)
    case Err(e) => Err(e)
    case Ok(ordered) =>
      if start.None? then Err(UnboundLocalError)
      else
        match SelectFrom(ordered, start.value, solNum, corrected)
        case Err(e) => Err(e)
        case Ok(chosen) => Pick(chosen, solDataset)
  }

  /** The tally loop, the choice for the last task and the lookup loop of `select_sol`. */
  method SelectSol(dataset: seq<ResultRecord>, start: Option<string>, solNum: int,
                   solDataset: seq<seq<string>>) returns (r: Result<seq<Selection>>)
    ensures r == Select(dataset, start, solNum, solDataset, false)
  {
    var sorted := SortedDataset(dataset);
    if sorted.Err? {
      return Err(sorted.error);
    }
    if start.None? {
      return Err(UnboundLocalError);
    }
    var chosen := TallyChoices(sorted.value, start.value, solNum);
    if chosen.Err? {
      return Err(chosen.error);
    }
    r := LookUp(chosen.value, solDataset);
  }

  /** The loop over the sorted lines, then the choice for the last task. */
  method TallyChoices(ordered: seq<ResultRecord>, start: string, solNum: int)
    returns (r: Result<seq<Choice>>)
    ensures r == SelectFrom(ordered, start, solNum, false)
  {
    var current := start;
    var counts := Zeros(solNum);
    var chosen: seq<Choice> := [];
    ghost var init := Tally(current, counts, chosen);
    for i := 0 to |ordered|
      invariant Run(ordered[..i], init, solNum, false) == Ok(Tally(current, counts, chosen))
    {
      var data := ordered[i];
      assert ordered[..i + 1][..i] == ordered[..i];
      if data.taskId == current {
        if data.result == Pass {
          if !(0 <= data.solId < |counts|) {
            RunStops(ordered, i + 1, init, solNum);
            return Err(KeyError);
          }
          counts := counts[data.solId := counts[data.solId] + 1];
        }
      } else {
        var best := Best(counts);
        if best.Err? {
          RunStops(ordered, i + 1, init, solNum);
          return Err(best.error);
        }
        chosen := chosen + [Choice(current, best.value)];
        current := data.taskId;
        counts := Zeros(solNum);
      }
    }
    assert ordered[..|ordered|] == ordered;
    var best := Best(counts);
    if best.Err? {
      return Err(best.error);
    }
    return Ok(chosen + [Choice(current, best.value)]);
  }

  /** A loop stopped by an error at some line stops the whole loop with that error. */
  lemma RunStops(ordered: seq<ResultRecord>, k: nat, init: Tally, solNum: int)
    requires k <= |ordered| && Run(ordered[..k], init, solNum, false).Err?
    ensures Run(ordered, init, solNum, false) == Run(ordered[..k], init, solNum, false)
  {
    RunAppend(ordered[..k], ordered[k..], init, solNum, false);
    assert ordered[..k] + ordered[k..] == ordered;
  }

  /** The loop that looks the chosen solutions up. */
  method LookUp(chosen: seq<Choice>, solDataset: seq<seq<string>>) returns (r: Result<seq<Selection>>)
    ensures r == Pick(chosen, solDataset)
  {
    var output: seq<Selection> := [];
    for i := 0 to |chosen|
      invariant Pick(chosen[..i], solDataset) == Ok(output)
    {
      assert chosen[..i + 1][..i] == chosen[..i];
      if i >= |solDataset| || chosen[i].solId >= |solDataset[i]| {
        PickSpec(chosen, solDataset);
        return Err(IndexError);
      }
      output := output + [Selection(chosen[i].taskId, solDataset[i][chosen[i].solId])];
    }
    assert chosen[..|chosen|] == chosen;
    return Ok(output);
  }
}
