/**
 * `extract_sol`: turn each task's sampled model responses into candidate solutions, keeping a
 * response only when exactly one code block is extracted from it.
 */
module ExtractSolution {
  import opened Wrappers
  import opened CodeFences
  import opened InferenceData

  /** A line of the output. */
  datatype TaskSolutions = TaskSolutions(taskId: string, solutions: seq<string>)

  /** The solutions a list of responses yields: the single block of every response that has
      exactly one, in response order. */
  function SingleBlocks(responses: seq<string>): (sols: seq<string>)
    ensures |sols| <= |responses|
  {
    if responses == [] then []
    else
      var last := responses[|responses| - 1];
      var code := ExtractCode(last);
      SingleBlocks(responses[..|responses| - 1]) + (if |code| == 1 then [code[0]] else [])
  }

  /** Concatenated responses yield the concatenated solutions: responses are handled one at a
      time, and solutions keep the order of the responses they came from. */
  lemma {:induction false} SingleBlocksAppend(a: seq<string>, b: seq<string>)
    ensures SingleBlocks(a + b) == SingleBlocks(a) + SingleBlocks(b)
    decreases |b|
  {
    if b == [] {
      assert a + b == a;
    } else {
      var b' := b[..|b| - 1];
      assert (a + b)[..|a + b| - 1] == a + b';
      SingleBlocksAppend(a, b');
    }
  }

  /** One response contributes its block when exactly one is extracted, and nothing otherwise. */
  lemma SingleBlocksOfOne(response: string)
    ensures SingleBlocks([response]) ==
      (if |ExtractCode(response)| == 1 then ExtractCode(response) else [])
  {
    assert [response][..0] == [];
  }

  /** Every solution is the only block of one of the responses. */
  lemma {:induction false} SingleBlocksSound(responses: seq<string>, k: nat)
    requires k < |SingleBlocks(responses)|
    ensures exists i :: 0 <= i < |responses| && ExtractCode(responses[i]) == [SingleBlocks(responses)[k]]
    decreases |responses|
  {
    var n := |responses|;
    var prefix := responses[..n - 1];
    var code := ExtractCode(responses[n - 1]);
    var sols := SingleBlocks(responses);
    assert sols == SingleBlocks(prefix) + (if |code| == 1 then [code[0]] else []);
    if k < |SingleBlocks(prefix)| {
      SingleBlocksSound(prefix, k);
      var i :| 0 <= i < |prefix| && ExtractCode(prefix[i]) == [SingleBlocks(prefix)[k]];
      assert responses[i] == prefix[i] && sols[k] == SingleBlocks(prefix)[k];
      assert 0 <= i < |responses| && ExtractCode(responses[i]) == [sols[k]];
    } else {
      assert |code| == 1 && sols[k] == code[0];
      assert 0 <= n - 1 < |responses| && ExtractCode(responses[n - 1]) == [sols[k]];
    }
  }

  /** The inner loop of `extract_sol` over one task's responses. */
  method CollectSolutions(responses: seq<string>) returns (sols: seq<string>)
    ensures sols == SingleBlocks(responses)
  {
    sols := [];
    for i := 0 to |responses|
      invariant sols == SingleBlocks(responses[..i])
    {
      var code := ExtractCode(responses[i]);
      if |code| == 1 {
        sols := sols + [code[0]];
      }
      assert responses[..i + 1][..i] == responses[..i];
    }
    assert responses[..|responses|] == responses;
  }

  /** The output line of one task: the id file's task id and the task's single-block solutions. */
  function TaskLine(record: InferenceRecord, id: IdRecord): (line: TaskSolutions)
    ensures line.taskId == id.taskId && |line.solutions| <= |record.responses|
  {
    TaskSolutions(id.taskId, SingleBlocks(record.responses))
  }

  /** `extract_sol` without its file input and output: one output line per task, named by the id
      file at the same index, holding that task's single-block solutions; the first task whose
      first message disagrees with the id file aborts the whole run. */
  method ExtractSol(dataset: seq<InferenceRecord>, ids: seq<IdRecord>)
    returns (r: Result<seq<TaskSolutions>>)
    ensures r.Ok? <==> forall i :: 0 <= i < |dataset| ==> ErrorAt(dataset, ids, i) == None
    ensures r.Ok? ==> |r.value| == |dataset| <= |ids|
    ensures r.Ok? ==> forall i :: 0 <= i < |dataset| ==> r.value[i] == TaskLine(dataset[i], ids[i])
    ensures r.Err? ==> exists i :: (0 <= i < |dataset| && ErrorAt(dataset, ids, i) == Some(r.error)
      && forall j :: 0 <= j < i ==> ErrorAt(dataset, ids, j) == None)
  {
    hide SingleBlocks;
    var output: seq<TaskSolutions> := [];
    for i := 0 to |dataset|
      invariant |output| == i && i <= |ids|
      invariant forall j :: 0 <= j < i ==> ErrorAt(dataset, ids, j) == None
      invariant forall j :: 0 <= j < i ==> output[j] == TaskLine(dataset[j], ids[j])
    {
      var error := ErrorAt(dataset, ids, i);
      if error.Some? {
        assert 0 <= i < |dataset| && ErrorAt(dataset, ids, i) == Some(error.value);
        return Err(error.value);
      }
      var sols := CollectSolutions(dataset[i].responses);
      output := output + [TaskSolutions(ids[i].taskId, sols)];
    }
    return Ok(output);
  }
}
