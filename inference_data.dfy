/**
 * The two line-oriented inputs both preprocessing scripts read: the merged inference output and
 * the prompt file it was produced from, matched up by line index.
 */
module InferenceData {
  import opened Wrappers

  /** A line of the merged inference output: the contents of the prompt messages and the
      sampled responses. */
  datatype InferenceRecord = InferenceRecord(messages: seq<string>, responses: seq<string>)

  /** A line of the prompt file: the task id and the contents of the prompt messages. */
  datatype IdRecord = IdRecord(taskId: string, messages: seq<string>)

  /** The exception the per-task check raises for task `i`, if any: a missing prompt line or a
      missing first message is an index error, differing first messages fail the assertion. */
  function ErrorAt(dataset: seq<InferenceRecord>, ids: seq<IdRecord>, i: nat): (e: Option<PyError>)
    requires i < |dataset|
    ensures e == None <==>
      (i < |ids| && ids[i].messages != [] && dataset[i].messages != []
       && ids[i].messages[0] == dataset[i].messages[0])
    ensures e != None ==> e == Some(IndexError) || e == Some(AssertionError)
  {
    if i >= |ids| || ids[i].messages == [] || dataset[i].messages == [] then Some(IndexError)
    else if ids[i].messages[0] != dataset[i].messages[0] then Some(AssertionError)
    else None
  }
}
