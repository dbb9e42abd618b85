/**
 * The JSON-lines records passed between the evaluation stages: the jobs the evaluation script
 * writes for the executor, and the result lines the executor writes back.
 */
module Records {

  /** A job line: one solution of a task paired with one of the task's unit tests, and the code
      that runs the one against the other. */
  datatype Job = Job(taskId: string, solId: int, utId: int, code: string)

  /** The `result` field of a result line, which holds `'pass'` or `'fail'`. */
  datatype Verdict = Pass | Fail

  /** The `details` field of a result line. */
  datatype Details = Details(totalNum: int, passNum: int, failNum: int, errorNum: int, text: string)

  /** A result line. */
  datatype ResultRecord = ResultRecord(taskId: string, solId: int, utId: int, result: Verdict,
                                       details: Details)
}
