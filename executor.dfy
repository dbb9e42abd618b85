/**
 * The unit-test executor: each job runs in a worker that reports its outcome through shared
 * memory cells, jobs are read in fixed-size chunks, a chunk can be skipped when resuming, and
 * each chunk's results are sorted before they are appended to the output file.
 *
 * The worker's `exec` of the job code, its time limit and the unittest runner are not modelled:
 * how a job's code ends is given by a `WorkerRun` value. The process pool is not modelled either:
 * the order in which a chunk's jobs complete is a given permutation of the chunk.
 */
module Executor {
  import opened Wrappers
  import opened Seqs
  import opened Sorting
  import opened PyStr
  import opened Records

  newtype Byte = b: int | 0 <= b < 256

  /** The size of the shared transcript buffer, a ctypes array of 2000 `c_char`. */
  const BufferSize: nat := 2000

  /** What the runner's result object reports: `testsRun`, the lengths of `failures` and
      `errors`, and `wasSuccessful()`. */
  datatype RunnerResult = RunnerResult(testsRun: nat, failures: nat, errors: nat, successful: bool)

  /** How the worker's `exec` of a job's code ends. */
  datatype WorkerRun =
      /** The code ran to its end within the time limit, printing `transcript` (as UTF-8 bytes)
          and storing `result` under `'result'`, or nothing. */
    | Completed(transcript: seq<Byte>, result: Option<RunnerResult>)
      /** The code raised, or the time limit interrupted it. */
    | Raised

  /** What a job's outcome depends on besides the job: how each job's code ends, whether
      details are kept (`--details`), and UTF-8 decoding, which may fail. */
  datatype Worker = Worker(run: Job -> WorkerRun, saveDetail: bool,
                           decode: seq<Byte> -> Option<string>)

  /** The values of the shared cells: `is_pass`, `total_num`, `pass_num`, `fail_num`,
      `error_num` and the transcript bytes the buffer's `value` gives. */
  datatype Cells = Cells(isPass: bool, totalNum: int, passNum: int, failNum: int, errorNum: int,
                         text: seq<Byte>)

  /** The cells as `handle_execute` creates them. */
  const Sentinel: Cells := Cells(false, -1, 0, 0, 0, [])

  /** The `value` of a `c_char` array: its bytes up to the first NUL. */
  function BeforeNul(bytes: seq<Byte>): (r: seq<Byte>)
    ensures |r| <= |bytes| && r == bytes[..|r|]
    ensures forall k :: 0 <= k < |r| ==> r[k] != 0
    ensures |r| < |bytes| ==> bytes[|r|] == 0
    ensures 0 !in bytes ==> r == bytes
  {
    if bytes == [] || bytes[0] == 0 then [] else [bytes[0]] + BeforeNul(bytes[1..])
  }

  /** A NUL ends the value: what follows it is not read. */
  lemma {:induction false} BeforeNulStops(v: seq<Byte>, rest: seq<Byte>)
    ensures BeforeNul(v + [0] + rest) == BeforeNul(v)
    decreases |v|
  {
    if v != [] && v[0] != 0 {
      assert (v + [0] + rest)[1..] == v[1..] + [0] + rest;
      BeforeNulStops(v[1..], rest);
    }
  }

  /** The cells a worker run leaves behind, from the sentinel: a raised exception or timeout
      writes nothing; an over-long transcript is refused by ctypes with a ValueError before any
      count is written; a missing `result` fails at `wasSuccessful()` after the transcript was
      stored; otherwise every count is written. */
  function CellsAfter(run: WorkerRun, saveDetail: bool): Cells
  {
    match run
    case Raised => Sentinel
    case Completed(transcript, result) =>
      if saveDetail && |transcript| > BufferSize then Sentinel
      else
        var text := if saveDetail then BeforeNul(transcript) else [];
        match result
        case None => Sentinel.(text := text)
        case Some(r) =>
          Cells(r.successful, r.testsRun, r.testsRun - r.failures - r.errors, r.failures, r.errors,
                text)
  }

  /** The shared-memory cells of one job, which the worker writes and `handle_execute` reads. */
  class SharedCells {
    var isPass: bool
    var totalNum: int
    var passNum: int
    var failNum: int
    var errorNum: int
    const buffer: array<Byte>

    /** The `value` of the transcript buffer. */
    function Value(): seq<Byte>
      reads buffer
    {
      BeforeNul(buffer[..])
    }

    /** Everything `handle_execute` reads back. */
    function Read(): Cells
      reads this, buffer
    {
      Cells(isPass, totalNum, passNum, failNum, errorNum, Value())
    }

    /** `Value('b', False)`, `Value('i', -1)`, three `Value('i', 0)` and a zeroed array. */
    constructor ()
      ensures Read() == Sentinel && buffer.Length == BufferSize && fresh(buffer)
    {
      isPass, totalNum, passNum, failNum, errorNum := false, -1, 0, 0, 0;
      buffer := new Byte[BufferSize](_ => 0);
    }

    /** Assigning the buffer's `value`: ctypes refuses a byte string longer than the array, and
        otherwise copies it in, with a NUL behind it when there is room. */
    method SetValue(v: seq<Byte>) returns (stored: bool)
      modifies buffer
      ensures stored <==> |v| <= buffer.Length
      ensures !stored ==> buffer[..] == old(buffer[..])
      ensures stored ==> buffer[..|v|] == v && Value() == BeforeNul(v)
    {
      if |v| > buffer.Length {
        return false;
      }
      for i := 0 to |v|
        invariant buffer[..i] == v[..i]
      {
        buffer[i] := v[i];
      }
      if |v| < buffer.Length {
        buffer[|v|] := 0;
        assert buffer[..] == v + [0] + buffer[|v| + 1..];
        BeforeNulStops(v, buffer[|v| + 1..]);
      } else {
        assert buffer[..] == v;
      }
      return true;
    }

    /** `execute_unittest` after the `exec`: store the transcript when details are kept, then
        the runner's counts; any exception is caught and leaves `is_pass` false. */
    method ExecuteUnittest(run: WorkerRun, saveDetail: bool)
      requires Read() == Sentinel && buffer.Length == BufferSize
      modifies this, buffer
      ensures Read() == CellsAfter(run, saveDetail)
    {
      if run.Raised? {
        isPass := false;
        return;
      }
      if saveDetail {
        var stored := SetValue(run.transcript);
        if !stored {
          isPass := false;
          return;
        }
      }
      if run.result.None? {
        isPass := false;
        return;
      }
      var r := run.result.value;
      isPass := r.successful;
      totalNum := r.testsRun;
      passNum := r.testsRun - r.failures - r.errors;
      failNum := r.failures;
      errorNum := r.errors;
    }
  }

  /** What `handle_execute` returns. */
  datatype Outcome = Outcome(taskId: string, solId: int, utId: int, isPass: bool, details: Details)

  /** The details text: the decoded transcript when details are kept and it decodes, else "". */
  function DetailsText(bytes: seq<Byte>, w: Worker): string
  {
    if w.saveDetail && w.decode(bytes).Some? then w.decode(bytes).value else ""
  }

  /** The outcome of one job. */
  function OutcomeOf(job: Job, w: Worker): Outcome
  {
    var c := CellsAfter(w.run(job), w.saveDetail);
    Outcome(job.taskId, job.solId, job.utId, c.isPass,
            Details(c.totalNum, c.passNum, c.failNum, c.errorNum, DetailsText(c.text, w)))
  }

  /** `handle_execute`: fresh cells, the worker's writes, then the cells read back. */
  method HandleExecute(job: Job, w: Worker) returns (outcome: Outcome)
    ensures outcome == OutcomeOf(job, w)
  {
    var cells := new SharedCells();
    cells.ExecuteUnittest(w.run(job), w.saveDetail);
    var text := "";
    if w.saveDetail {
      var decoded := w.decode(cells.Value());
      if decoded.Some? {
        text := decoded.value;
      }
    }
    outcome := Outcome(job.taskId, job.solId, job.utId, cells.isPass,
                       Details(cells.totalNum, cells.passNum, cells.failNum, cells.errorNum, text));
  }

  /** The counts of an outcome are the sentinel's. */
  predicate SentinelCounts(o: Outcome)
  {
    !o.isPass && o.details.totalNum == -1 && o.details.passNum == 0 && o.details.failNum == 0
    && o.details.errorNum == 0
  }

  /** A run that raised, timed out, stored no `result` or printed more than the buffer holds
      (with details kept) leaves every count at the sentinel. */
  lemma FailedRunKeepsSentinel(job: Job, w: Worker)
    requires w.run(job).Raised? || w.run(job).result.None?
      || (w.saveDetail && |w.run(job).transcript| > BufferSize)
    ensures SentinelCounts(OutcomeOf(job, w))
  {
  }

  /** A raised exception, a timeout or an over-long transcript also leaves no text: the
      transcript is dropped whole rather than cut to the buffer's size. */
  lemma FailedRunKeepsNoText(job: Job, w: Worker)
    requires w.decode([]) == Some("")
    requires w.run(job).Raised? || (w.saveDetail && |w.run(job).transcript| > BufferSize)
    ensures OutcomeOf(job, w).details.text == ""
  {
  }

  /** A run that completed with a result reports the runner's verdict and counts, and the
      passed, failed and errored tests add up to the tests run. */
  lemma CompletedRunCounts(job: Job, w: Worker)
    requires w.run(job).Completed? && w.run(job).result.Some?
    requires !w.saveDetail || |w.run(job).transcript| <= BufferSize
    ensures var o, r := OutcomeOf(job, w), w.run(job).result.value;
      && o.isPass == r.successful
      && o.details.totalNum == r.testsRun
      && o.details.failNum == r.failures && o.details.errorNum == r.errors
      && o.details.passNum + o.details.failNum + o.details.errorNum == o.details.totalNum
  {
  }

  /** Without `--details` the text is empty; with it, a transcript that fails to decode gives
      an empty text rather than an error, and one that fits the buffer and holds no NUL is
      decoded whole. */
  lemma DetailsTextCases(job: Job, w: Worker)
    requires w.run(job).Completed? && |w.run(job).transcript| <= BufferSize
    ensures !w.saveDetail ==> OutcomeOf(job, w).details.text == ""
    ensures w.saveDetail && w.decode(BeforeNul(w.run(job).transcript)).None? ==>
      OutcomeOf(job, w).details.text == ""
    ensures w.saveDetail && 0 !in w.run(job).transcript ==>
      OutcomeOf(job, w).details.text == DetailsText(w.run(job).transcript, w)
  {
  }

  /** The result line of an outcome. */
  function RecordOf(o: Outcome): ResultRecord
  {
    ResultRecord(o.taskId, o.solId, o.utId, if o.isPass then Pass else Fail, o.details)
  }

  /** A job's result line names the job and says `'pass'` exactly when the runner reported
      success and, with details kept, the transcript fit the buffer. */
  lemma RecordVerdict(job: Job, w: Worker)
    ensures var r := RecordOf(OutcomeOf(job, w));
      r.taskId == job.taskId && r.solId == job.solId && r.utId == job.utId
    ensures RecordOf(OutcomeOf(job, w)).result == Pass <==>
      && w.run(job).Completed? && w.run(job).result.Some? && w.run(job).result.value.successful
      && (!w.saveDetail || |w.run(job).transcript| <= BufferSize)
  {
  }

  /** `read_jsonline_in_chunks` for a chunk size of magnitude `size`: a chunk ends after every
      `size`-th line, and the lines left at the end form a last, shorter chunk. */
  function Chunks<T>(lines: seq<T>, size: nat): seq<seq<T>>
    requires size > 0
    decreases |lines|
  {
    if lines == [] then []
    else if |lines| <= size then [lines]
    else [lines[..size]] + Chunks(lines[size..], size)
  }

  /** Every chunk is non-empty and at most `size` long, and all but the last are exactly
      `size` long. */
  lemma {:induction false} ChunksShape<T>(lines: seq<T>, size: nat)
    requires size > 0
    ensures forall k :: 0 <= k < |Chunks(lines, size)| ==>
      0 < |Chunks(lines, size)[k]| <= size
      && (k < |Chunks(lines, size)| - 1 ==> |Chunks(lines, size)[k]| == size)
    decreases |lines|
  {
    if |lines| > size {
      var rest := Chunks(lines[size..], size);
      ChunksShape(lines[size..], size);
      assert Chunks(lines, size) == [lines[..size]] + rest;
    }
  }

  /** The chunks, concatenated, give back the lines in order. */
  lemma {:induction false} ChunksConcat<T>(lines: seq<T>, size: nat)
    requires size > 0
    ensures Flatten(Chunks(lines, size)) == lines
    decreases |lines|
  {
    if lines == [] {
    } else if |lines| <= size {
      assert [lines][..0] == [];
    } else {
      ChunksConcat(lines[size..], size);
      FlattenCons(lines[..size], Chunks(lines[size..], size));
      assert lines == lines[..size] + lines[size..];
    }
  }

  /** Cutting at a chunk boundary. */
  lemma {:induction false} ChunksAppend<T>(a: seq<T>, b: seq<T>, size: nat)
    requires size > 0 && |a| % size == 0
    ensures Chunks(a + b, size) == Chunks(a, size) + Chunks(b, size)
    decreases |a|
  {
    if a == [] {
      assert a + b == b;
    } else {
      MultipleAtLeast(|a|, size);
      var rest := a[size..];
      MultipleLess(|a|, size);
      ChunksAppend(rest, b, size);
      assert (a + b)[..size] == a[..size] && (a + b)[size..] == rest + b;
      if |a| == size {
        assert rest == [];
        assert rest + b == b;
        if b == [] {
          assert a + b == a;
        }
      }
    }
  }

  /** Extending the lines read from a whole number of chunks by at most one chunk's worth
      adds that one chunk. */
  lemma ChunksSnoc<T>(lines: seq<T>, start: nat, end: nat, size: nat)
    requires size > 0 && start % size == 0 && start < end <= |lines| && end - start <= size
    ensures Chunks(lines[..end], size) == Chunks(lines[..start], size) + [lines[start..end]]
  {
    var a, b := lines[..start], lines[start..end];
    assert lines[..end] == a + b;
    ChunksAppend(a, b, size);
  }

  /** A positive multiple of `n` is at least `n`. */
  lemma MultipleAtLeast(m: nat, n: nat)
    requires n > 0 && m > 0 && m % n == 0
    ensures m >= n
  {
    var q := m / n;
    assert m == n * q;
  }

  /** A multiple of `n` less `n` is a multiple of `n`. */
  lemma MultipleLess(m: nat, n: nat)
    requires n > 0 && m >= n && m % n == 0
    ensures (m - n) % n == 0
  {
    var q := m / n;
    assert m == n * q;
    assert m - n == n * (q - 1);
    MultipleMod(n, q - 1);
  }

  /** A multiple of `n` leaves no remainder. */
  lemma MultipleMod(n: nat, q: int)
    requires n > 0
    ensures (n * q) % n == 0
  {
    var quotient, remainder := (n * q) / n, (n * q) % n;
    assert n * q == n * quotient + remainder;
    assert n * (q - quotient) == remainder;
    MulBound(n, q - quotient);
  }

  /** `n * d` strictly between `-n` and `n` needs `d == 0`. */
  lemma MulBound(n: int, d: int)
    requires n > 0 && -n < n * d < n
    ensures d == 0
  {
  }

  /** A remainder does not depend on the sign of the divisor. */
  lemma ModAbs(m: int, d: int)
    requires d != 0
    ensures m % d == m % (if d < 0 then -d else d)
  {
  }

  /** From a multiple of `n`, the next multiple is `n` further on. */
  lemma ModStep(m: nat, c: int, n: nat)
    requires n > 0 && m % n == 0 && 1 <= c <= n
    ensures (m + c) % n == 0 <==> c == n
  {
    var q := m / n;
    assert m == n * q;
    var quotient, remainder := (m + c) / n, (m + c) % n;
    assert m + c == n * quotient + remainder;
    if c < n {
      assert n * (quotient - q) == c - remainder;
      MulBound(n, quotient - q);
    } else {
      assert m + c == n * (q + 1);
      assert n * (quotient - q - 1) == -remainder;
      MulBound(n, quotient - q - 1);
    }
  }

  /** `read_jsonline_in_chunks`, with the lines already parsed. `(i + 1) % chunk_size` is
      Python's `%`, which like Dafny's is zero exactly for multiples of `|chunk_size|`; a zero
      chunk size raises on the first line. */
  method ReadInChunks<T>(lines: seq<T>, chunkSize: int) returns (r: Result<seq<seq<T>>>)
    ensures r.Err? <==> chunkSize == 0 && lines != []
    ensures r.Err? ==> r.error == ZeroDivisionError
    ensures r.Ok? && chunkSize == 0 ==> r.value == []
    ensures r.Ok? && chunkSize != 0 ==>
      r.value == Chunks(lines, if chunkSize < 0 then -chunkSize else chunkSize)
  {
    var size: nat := if chunkSize < 0 then -chunkSize else chunkSize;
    var chunks: seq<seq<T>> := [];
    var chunk: seq<T> := [];
    ghost var start: nat := 0;
    for i := 0 to |lines|
      invariant chunkSize == 0 ==> i == 0 && chunks == [] && chunk == []
      invariant start <= i && chunk == lines[start..i]
      invariant size > 0 ==> i - start < size && start % size == 0
      invariant size > 0 ==> chunks == Chunks(lines[..start], size)
    {
      chunk := chunk + [lines[i]];
      if chunkSize == 0 {
        return Err(ZeroDivisionError);
      }
      assert chunk == lines[start..i + 1];
      ModStep(start, i + 1 - start, size);
      ModAbs(i + 1, chunkSize);
      if (i + 1) % chunkSize == 0 {
        ChunksSnoc(lines, start, i + 1, size);
        chunks := chunks + [chunk];
        chunk := [];
        start := i + 1;
      }
    }
    if chunk != [] {
      ChunksSnoc(lines, start, |lines|, size);
      chunks := chunks + [chunk];
    }
    assert lines[..|lines|] == lines;
    return Ok(chunks);
  }

  /** `data_loaded_num` once chunk `k` has been read. */
  function LoadedThrough(chunks: seq<seq<Job>>, k: nat): nat
    requires k < |chunks|
  {
    |Flatten(chunks[..k + 1])|
  }

  /** A text of at most one chunk is loaded whole with its only chunk. */
  lemma LoadedThroughOnly(lines: seq<Job>, size: nat)
    requires size > 0 && 0 < |lines| <= size
    ensures |Chunks(lines, size)| == 1 && LoadedThrough(Chunks(lines, size), 0) == |lines|
  {
    assert Chunks(lines, size)[..1] == [lines];
    assert [lines][..0] == [];
    assert Flatten([lines]) == lines;
  }

  /** The first chunk of a longer text holds `size` lines. */
  lemma LoadedThroughFirst(lines: seq<Job>, size: nat)
    requires size > 0 && |lines| > size
    ensures LoadedThrough(Chunks(lines, size), 0) == size
  {
    var first := lines[..size];
    assert Chunks(lines, size)[..1] == [first];
    assert [first][..0] == [];
    assert Flatten([first]) == first;
  }

  /** Past the first chunk of a longer text, the lines loaded are the first chunk and those
      loaded through the chunk before among the chunks of the rest. */
  lemma LoadedThroughNext(lines: seq<Job>, size: nat, k: nat)
    requires size > 0 && |lines| > size && 0 < k < |Chunks(lines, size)|
    ensures LoadedThrough(Chunks(lines, size), k) ==
            size + LoadedThrough(Chunks(lines[size..], size), k - 1)
  {
    var rest := Chunks(lines[size..], size);
    assert Chunks(lines, size)[..k + 1] == [lines[..size]] + rest[..k];
    FlattenCons(lines[..size], rest[..k]);
  }

  /** Chunk `k` holds lines `k * size` up to `(k + 1) * size`, so the lines loaded once it is
      read are the first `(k + 1) * size`, or all of them. */
  lemma {:induction false} LoadedThroughChunk(lines: seq<Job>, size: nat, k: nat)
    requires size > 0 && k < |Chunks(lines, size)|
    ensures LoadedThrough(Chunks(lines, size), k) ==
      if (k + 1) * size <= |lines| then (k + 1) * size else |lines|
    decreases |lines|
  {
    if |lines| <= size {
      LoadedThroughOnly(lines, size);
    } else if k == 0 {
      LoadedThroughFirst(lines, size);
    } else {
      LoadedThroughNext(lines, size, k);
      LoadedThroughChunk(lines[size..], size, k - 1);
      assert (k + 1) * size == size + k * size;
    }
  }

  /** The resume rule on chunks of `size` lines: chunk `k` is skipped exactly when `recover`
      reaches the end of it, so the skipped chunks are the first ones and a chunk that
      `recover` only partly covers is run again in full. */
  lemma ResumeSkipsWholeChunks(lines: seq<Job>, size: nat, recover: int, k: nat)
    requires size > 0 && k < |Chunks(lines, size)|
    ensures recover >= LoadedThrough(Chunks(lines, size), k) <==>
      recover >= (k + 1) * size || recover >= |lines|
    ensures forall j :: 0 <= j <= k && recover >= LoadedThrough(Chunks(lines, size), k) ==>
      recover >= LoadedThrough(Chunks(lines, size), j)
  {
    LoadedThroughChunk(lines, size, k);
    forall j | 0 <= j <= k ensures LoadedThrough(Chunks(lines, size), j) <=
      LoadedThrough(Chunks(lines, size), k)
    {
      LoadedThroughMonotone(lines, size, j, k);
    }
  }

  /** Reading on never loads fewer lines. */
  lemma LoadedThroughMonotone(lines: seq<Job>, size: nat, j: nat, k: nat)
    requires size > 0 && j <= k < |Chunks(lines, size)|
    ensures LoadedThrough(Chunks(lines, size), j) <= LoadedThrough(Chunks(lines, size), k)
  {
    LoadedThroughChunk(lines, size, j);
    LoadedThroughChunk(lines, size, k);
    MulMonotone(j + 1, k + 1, size);
  }

  lemma MulMonotone(a: nat, b: nat, c: nat)
    requires a <= b
    ensures a * c <= b * c
  {
    assert b * c == a * c + (b - a) * c;
  }

  /** The sort key `itemgetter('task_id', 'sol_id', 'ut_id')`: the task id as a string, then
      the solution id, then the unit-test id; `RecordKeyLe` is the `<=` of these tuples. */
  predicate RecordKeyLe(a: ResultRecord, b: ResultRecord)
  {
    if a.taskId != b.taskId then StrLe(a.taskId, b.taskId)
    else if a.solId != b.solId then a.solId < b.solId
    else a.utId <= b.utId
  }

  lemma RecordKeyTotalPreorder()
    ensures TotalPreorder(RecordKeyLe)
  {
    forall a, b ensures RecordKeyLe(a, b) || RecordKeyLe(b, a) {
      StrLeTotal(a.taskId, b.taskId);
    }
    forall a, b, c | RecordKeyLe(a, b) && RecordKeyLe(b, c) ensures RecordKeyLe(a, c) {
      if a.taskId != b.taskId && b.taskId != c.taskId {
        StrLeTransitive(a.taskId, b.taskId, c.taskId);
        if a.taskId == c.taskId {
          StrLeAntisymmetric(a.taskId, b.taskId);
        }
      }
    }
  }

  /** The records of a chunk, in the order its jobs complete. */
  function RecordFor(w: Worker): Job -> ResultRecord
  {
    job => RecordOf(OutcomeOf(job, w))
  }

  /** The lines appended to the output file for a chunk: its records sorted by key, less those
      that fail to serialise. */
  function ChunkOutput(completed: seq<Job>, w: Worker, writable: ResultRecord -> bool)
    : seq<ResultRecord>
  {
    Filter(SortBy(Map(completed, RecordFor(w)), StrictOf(RecordKeyLe)), writable)
  }

  /** What the first `n` chunks append to the output file: nothing for a chunk skipped when
      resuming. */
  function Output(chunks: seq<seq<Job>>, completions: seq<seq<Job>>, recover: int, w: Worker,
                  writable: ResultRecord -> bool, n: nat): seq<ResultRecord>
    requires n <= |chunks| && n <= |completions|
  {
    if n == 0 then []
    else
      Output(chunks, completions, recover, w, writable, n - 1)
      + (if recover >= LoadedThrough(chunks, n - 1) then []
         else ChunkOutput(completions[n - 1], w, writable))
  }

  /** The `as_completed` loop: one result line per job, in completion order. */
  method CollectRecords(completed: seq<Job>, w: Worker) returns (raw: seq<ResultRecord>)
    ensures raw == Map(completed, RecordFor(w))
  {
    raw := [];
    for i := 0 to |completed|
      invariant raw == Map(completed[..i], RecordFor(w))
    {
      var outcome := HandleExecute(completed[i], w);
      raw := raw + [RecordOf(outcome)];
      assert completed[..i + 1][..i] == completed[..i];
    }
    assert completed[..|completed|] == completed;
  }

  /** The write loop: a line that fails to serialise is skipped and the rest are written. */
  method WriteRecords(sorted: seq<ResultRecord>, writable: ResultRecord -> bool)
    returns (written: seq<ResultRecord>)
    ensures written == Filter(sorted, writable)
  {
    written := [];
    for i := 0 to |sorted|
      invariant written == Filter(sorted[..i], writable)
    {
      if writable(sorted[i]) {
        written := written + [sorted[i]];
      }
      assert sorted[..i + 1][..i] == sorted[..i];
    }
    assert sorted[..|sorted|] == sorted;
  }

  /** The main loop: count the lines loaded, skip a chunk that `recover` covers, otherwise run
      its jobs, sort their records and append them. `completions[k]` is the order in which the
      jobs of chunk `k` complete. */
  method RunChunks(chunks: seq<seq<Job>>, completions: seq<seq<Job>>, recover: int, w: Worker,
                   writable: ResultRecord -> bool) returns (written: seq<ResultRecord>)
    requires |completions| == |chunks|
    ensures written == Output(chunks, completions, recover, w, writable, |chunks|)
  {
    written := [];
    var loaded := 0;
    for k := 0 to |chunks|
      invariant loaded == |Flatten(chunks[..k])|
      invariant written == Output(chunks, completions, recover, w, writable, k)
    {
      assert chunks[..k + 1][..k] == chunks[..k];
      loaded := loaded + |chunks[k]|;
      if recover >= loaded {
        continue;
      }
      var raw := CollectRecords(completions[k], w);
      var sorted := SortBy(raw, StrictOf(RecordKeyLe));
      var lines := WriteRecords(sorted, writable);
      written := written + lines;
    }
  }

  /** Each chunk's output is sorted by key and is a permutation of the chunk's result lines
      that serialise, whatever order the jobs completed in. */
  lemma ChunkOutputSorted(chunk: seq<Job>, completed: seq<Job>, w: Worker,
                          writable: ResultRecord -> bool)
    requires multiset(completed) == multiset(chunk)
    ensures SortedBy(ChunkOutput(completed, w, writable), StrictOf(RecordKeyLe))
    ensures forall r :: r in ChunkOutput(completed, w, writable) <==>
      r in Map(chunk, RecordFor(w)) && writable(r)
    ensures multiset(ChunkOutput(completed, w, writable)) ==
      multiset(Filter(Map(chunk, RecordFor(w)), writable))
  {
    var less := StrictOf(RecordKeyLe);
    var raw := Map(completed, RecordFor(w));
    RecordKeyTotalPreorder();
    StrictOfTotalPreorder(RecordKeyLe);
    SortBySorted(raw, less);
    FilterSorted(SortBy(raw, less), less, writable);
    SortByPermutes(raw, less);
    MapPreservesMultiset(completed, chunk, RecordFor(w));
    FilterPreservesMultiset(SortBy(raw, less), Map(chunk, RecordFor(w)), writable);
    forall r ensures r in ChunkOutput(completed, w, writable) <==>
      r in Map(chunk, RecordFor(w)) && writable(r)
    {
      FilterMembers(SortBy(raw, less), writable, r);
      assert r in SortBy(raw, less) <==> r in multiset(SortBy(raw, less));
      assert r in Map(chunk, RecordFor(w)) <==> r in multiset(Map(chunk, RecordFor(w)));
    }
  }

  /** When no two result lines of a chunk share a key, the chunk's output does not depend on
      the order its jobs completed in. */
  lemma ChunkOutputDeterministic(chunk: seq<Job>, completed: seq<Job>, w: Worker,
                                 writable: ResultRecord -> bool)
    requires multiset(completed) == multiset(chunk)
    requires forall a, b ::
      (a in Map(chunk, RecordFor(w)) && b in Map(chunk, RecordFor(w)) && a != b) ==>
      !RecordKeyLe(a, b) || !RecordKeyLe(b, a)
    ensures ChunkOutput(completed, w, writable) == ChunkOutput(chunk, w, writable)
  {
    var less := StrictOf(RecordKeyLe);
    var raw := Map(completed, RecordFor(w));
    var inOrder := Map(chunk, RecordFor(w));
    RecordKeyTotalPreorder();
    StrictOfTotalPreorder(RecordKeyLe);
    MapPreservesMultiset(completed, chunk, RecordFor(w));
    DistinctKeysComparable(raw, inOrder);
    SortByDeterministic(raw, inOrder, less);
  }

  /** Records whose keys differ are strictly ordered one way or the other, in any list holding
      the same records. */
  lemma DistinctKeysComparable(raw: seq<ResultRecord>, inOrder: seq<ResultRecord>)
    requires multiset(raw) == multiset(inOrder)
    requires forall a, b ::
      (a in inOrder && b in inOrder && a != b) ==> !RecordKeyLe(a, b) || !RecordKeyLe(b, a)
    ensures forall a, b :: a in raw && b in raw && a != b ==>
      StrictOf(RecordKeyLe)(a, b) || StrictOf(RecordKeyLe)(b, a)
  {
    forall a, b | a in raw && b in raw && a != b
      ensures StrictOf(RecordKeyLe)(a, b) || StrictOf(RecordKeyLe)(b, a)
    {
      assert a in multiset(inOrder) && b in multiset(inOrder);
    }
  }
}
