/**
 The life of a job's row, from its insert by the API to the worker's terminal status, at every moment of
 every interleaving with other jobs: by `JobTable.Valid` a row is what its own statements made of it.
 */
module JobLifecycle {
  import opened Text
  import opened JobRows
  import opened SortedStrings
  import opened S3Keys
  import opened JobWorker

  function Rank(s: Status): nat {
    match s
    case Queued => 0
    case Running => 1
    case _ => 2
  }

  function LinesIn(ops: seq<RowOp>): nat {
    if ops == [] then 0
    else LinesIn(ops[..|ops| - 1]) + match ops[|ops| - 1] case Success(lines, _) => lines case _ => 0
  }

  function ChunksIn(ops: seq<RowOp>): nat {
    if ops == [] then 0
    else ChunksIn(ops[..|ops| - 1]) + match ops[|ops| - 1] case Success(_, chunks) => chunks case _ => 0
  }

  lemma SumsOfNext(ops: seq<RowOp>, op: RowOp)
    ensures LinesIn(ops + [op]) == LinesIn(ops) + match op case Success(lines, _) => lines case _ => 0
    ensures ChunksIn(ops + [op]) == ChunksIn(ops) + match op case Success(_, chunks) => chunks case _ => 0
  {
    assert (ops + [op])[..|ops|] == ops;
  }

  // ---------------------------------------------------------------- what the runner reported

  /** The lines that the runner read in the first `n` files that are counted, all together. */
  function LinesOfFiles(files: seq<FileRef>, jobTask: string, fates: nat -> Fate, n: nat): nat
    requires n <= |files|
  {
    if n == 0 then 0
    else
      var rest := LinesOfFiles(files, jobTask, fates, n - 1);
      if Counts(files[n - 1], jobTask) && fates(n - 1).run.RunOk? then rest + fates(n - 1).run.lines else rest
  }

  /** The chunks that the runner wrote for the first `n` files that are counted, all together. */
  function ChunksOfFiles(files: seq<FileRef>, jobTask: string, fates: nat -> Fate, n: nat): nat
    requires n <= |files|
  {
    if n == 0 then 0
    else
      var rest := ChunksOfFiles(files, jobTask, fates, n - 1);
      if Counts(files[n - 1], jobTask) && fates(n - 1).run.RunOk? then rest + fates(n - 1).run.chunks else rest
  }

  function LinesOfKeys(fates: nat -> Fate, n: nat): nat {
    if n == 0 then 0 else LinesOfKeys(fates, n - 1) + if fates(n - 1).run.RunOk? then fates(n - 1).run.lines else 0
  }

  function ChunksOfKeys(fates: nat -> Fate, n: nat): nat {
    if n == 0 then 0 else ChunksOfKeys(fates, n - 1) + if fates(n - 1).run.RunOk? then fates(n - 1).run.chunks else 0
  }

  /** The lines that the runner read for a job: of a multipart job in its counted files, of an S3 job in its objects. */
  function LinesRead(w: Work, fates: nat -> Fate, nKeys: nat): nat {
    match w
    case Multipart(files, jobTask) => LinesOfFiles(files, jobTask, fates, |files|)
    case S3(_, _) => LinesOfKeys(fates, nKeys)
    case Unknown => 0
  }

  /** The chunks that the runner wrote for a job. */
  function ChunksWritten(w: Work, fates: nat -> Fate, nKeys: nat): nat {
    match w
    case Multipart(files, jobTask) => ChunksOfFiles(files, jobTask, fates, |files|)
    case S3(_, _) => ChunksOfKeys(fates, nKeys)
    case Unknown => 0
  }

  lemma {:induction false} SumsOfFiles(files: seq<FileRef>, jobTask: string, fates: nat -> Fate, n: nat)
    requires n <= |files|
    ensures LinesIn(PlannedFiles(files, jobTask, fates, n)) == LinesOfFiles(files, jobTask, fates, n)
    ensures ChunksIn(PlannedFiles(files, jobTask, fates, n)) == ChunksOfFiles(files, jobTask, fates, n)
  {
    hide LinesIn, ChunksIn, Counts;
    if n == 0 {
      NothingSums();
    } else {
      SumsOfFiles(files, jobTask, fates, n - 1);
      var planned := PlannedFiles(files, jobTask, fates, n - 1);
      SumsOfNext(planned, OutcomeOf(fates(n - 1)));
      assert planned + [] == planned;
    }
  }

  lemma NothingSums()
    ensures LinesIn([]) == 0 && ChunksIn([]) == 0
  {
  }

  lemma {:induction false} SumsOfKeys(fates: nat -> Fate, n: nat)
    ensures LinesIn(PlannedKeys(fates, n)) == LinesOfKeys(fates, n)
    ensures ChunksIn(PlannedKeys(fates, n)) == ChunksOfKeys(fates, n)
  {
    hide LinesIn, ChunksIn;
    if n == 0 {
      NothingSums();
    } else {
      SumsOfKeys(fates, n - 1);
      SumsOfNext(PlannedKeys(fates, n - 1), OutcomeOf(fates(n - 1)));
    }
  }

  /** The statements a job plans carry what the runner reported: lines as documents, chunks as chunks. */
  lemma PlanCarriesCounts(w: Work, fates: nat -> Fate, nKeys: nat)
    ensures LinesIn(PlanOf(w, fates, nKeys)) == LinesRead(w, fates, nKeys)
    ensures ChunksIn(PlanOf(w, fates, nKeys)) == ChunksWritten(w, fates, nKeys)
  {
    hide LinesIn, ChunksIn, PlannedFiles, PlannedKeys;
    match w {
      case Multipart(files, jobTask) => SumsOfFiles(files, jobTask, fates, |files|);
      case S3(_, _) => SumsOfKeys(fates, nKeys);
      case Unknown => NothingSums();
    }
  }

  // ---------------------------------------------------------------- the row of a run

  /** The row after the insert and the first `n` statements of a run. */
  function SlotAt(total: nat, ops: seq<RowOp>, n: nat): Slot
    requires n <= |ops|
  {
    AfterAll(Missing, [Insert(total)] + ops[..n])
  }

  lemma SlotStep(total: nat, ops: seq<RowOp>, n: nat)
    requires 0 < n <= |ops|
    ensures SlotAt(total, ops, n) == After(SlotAt(total, ops, n - 1), ops[n - 1])
  {
    var all := [Insert(total)] + ops[..n];
    assert all[..|all| - 1] == [Insert(total)] + ops[..n - 1];
  }

  lemma FirstSlot(total: nat, ops: seq<RowOp>)
    ensures SlotAt(total, ops, 0) == Present(Row(Queued, total, 0, 0, 0, 0, 0, 0))
  {
    var all := [Insert(total)] + ops[..0];
    assert all == [Insert(total)] && all[..0] == [];
    assert AfterAll(Missing, all) == After(AfterAll(Missing, []), Insert(total));
  }

  /** How many outcomes are among the first `n` statements of a run. */
  function OutcomesAt(pre: seq<RowOp>, outs: seq<RowOp>, n: nat): nat {
    if n <= 1 + |pre| then 0 else if n <= 1 + |pre| + |outs| then n - 1 - |pre| else |outs|
  }

  /** What the row says after `n` statements of a run. */
  ghost predicate RowSays(r: Row, total: nat, planned: seq<RowOp>, err: bool, pre: seq<RowOp>, outs: seq<RowOp>, n: nat) {
    var k := OutcomesAt(pre, outs, n);
    && r.status == (if n == 0 then Queued else if n <= 1 + |pre| + |outs| then Running else if err then Failed else Succeeded)
    && r.totalFiles == (if n <= 1 || pre == [] then total else |planned|)
    && r.successFiles + r.failFiles == k
    && r.failFiles <= 1 && (r.failFiles == 1 ==> err && k == |outs|)
    && r.totalDocs == r.successDocs + r.failDocs && r.failDocs == r.failFiles
    && r.successDocs == LinesIn(outs[..k]) && r.totalChunks == ChunksIn(outs[..k])
  }

  /** The statement at position `n` of a run. */
  lemma StatementAt(ops: seq<RowOp>, deferred: bool, planned: seq<RowOp>, err: bool,
                    pre: seq<RowOp>, outs: seq<RowOp>, fin: seq<RowOp>, n: nat)
    requires JobRun(ops, deferred, planned, err, pre, outs, fin) && n < |ops|
    ensures n == 0 ==> ops[n] == RowOp.MarkRunning
    ensures 0 < n <= |pre| ==> n == 1 && |pre| == 1 && ops[n] == SetTotal(|planned|)
    ensures |pre| < n <= |pre| + |outs| ==> ops[n] == outs[n - 1 - |pre|]
    ensures |pre| < n <= |pre| + |outs| ==> ops[n].Success? || (ops[n] == Failure && err && n == |pre| + |outs|)
    ensures n > |pre| + |outs| ==> n == |pre| + |outs| + 1 && ops[n] == Terminal(!err)
  {
  }

  /** The row at every moment of the run of its job. */
  lemma {:induction false} RowAt(total: nat, ops: seq<RowOp>, deferred: bool, planned: seq<RowOp>, err: bool,
                                 pre: seq<RowOp>, outs: seq<RowOp>, fin: seq<RowOp>, n: nat)
    requires JobRun(ops, deferred, planned, err, pre, outs, fin) && n <= |ops|
    ensures SlotAt(total, ops, n).Present? && RowSays(SlotAt(total, ops, n).row, total, planned, err, pre, outs, n)
    decreases n
  {
    if n == 0 {
      FirstSlot(total, ops);
    } else {
      RowAt(total, ops, deferred, planned, err, pre, outs, fin, n - 1);
      SlotStep(total, ops, n);
      StatementAt(ops, deferred, planned, err, pre, outs, fin, n - 1);
      RowMoves(SlotAt(total, ops, n - 1).row, ops[n - 1], total, deferred, planned, err, pre, outs, fin, n);
    }
  }

  lemma RowMoves(r: Row, op: RowOp, total: nat, deferred: bool, planned: seq<RowOp>, err: bool,
                 pre: seq<RowOp>, outs: seq<RowOp>, fin: seq<RowOp>, n: nat)
    requires n > 0 && RowSays(r, total, planned, err, pre, outs, n - 1)
    requires n == 1 ==> op == RowOp.MarkRunning
    requires 0 < n - 1 <= |pre| ==> n == 2 && |pre| == 1 && op == SetTotal(|planned|)
    requires |pre| < n - 1 <= |pre| + |outs| ==> op == outs[n - 2 - |pre|]
    requires |pre| < n - 1 <= |pre| + |outs| ==> op.Success? || (op == Failure && err && n - 1 == |pre| + |outs|)
    requires n - 1 > |pre| + |outs| ==> n == |pre| + |outs| + 2 && op == Terminal(!err)
    ensures After(Present(r), op).Present? && RowSays(After(Present(r), op).row, total, planned, err, pre, outs, n)
  {
    var k := OutcomesAt(pre, outs, n);
    if |pre| < n - 1 <= |pre| + |outs| {
      assert outs[..k][..k - 1] == outs[..k - 1] && outs[..k][k - 1] == op;
    }
  }

  /**
   The laws of a row, at every moment: documents add up, at most one file fails, no more files are counted than
   there are, and a job that succeeded counted every file it asked for and no failure.
   */
  lemma RowLaws(total: nat, ops: seq<RowOp>, deferred: bool, planned: seq<RowOp>, err: bool,
                pre: seq<RowOp>, outs: seq<RowOp>, fin: seq<RowOp>, n: nat)
    requires JobRun(ops, deferred, planned, err, pre, outs, fin) && n <= |ops|
    ensures SlotAt(total, ops, n).Present?
    ensures var r := SlotAt(total, ops, n).row;
      && r.totalDocs == r.successDocs + r.failDocs
      && r.failFiles <= 1
      && (deferred || |planned| <= total ==> r.successFiles + r.failFiles <= r.totalFiles)
      && (r.status.Succeeded? ==>
           (&& r.failFiles == 0 && r.successFiles == |planned|
            && r.successDocs == LinesIn(planned) && r.totalChunks == ChunksIn(planned)
            && (r.successFiles == r.totalFiles <==> deferred || |planned| == total)))
  {
    RowAt(total, ops, deferred, planned, err, pre, outs, fin, n);
    assert outs[..|outs|] == outs;
  }

  /** The status only moves queued, running, terminal, and a terminal status stays. */
  lemma StatusMovesForward(total: nat, ops: seq<RowOp>, deferred: bool, planned: seq<RowOp>, err: bool,
                           pre: seq<RowOp>, outs: seq<RowOp>, fin: seq<RowOp>, m: nat, n: nat)
    requires JobRun(ops, deferred, planned, err, pre, outs, fin) && m <= n <= |ops|
    ensures SlotAt(total, ops, m).Present? && SlotAt(total, ops, n).Present?
    ensures var s, t := SlotAt(total, ops, m).row.status, SlotAt(total, ops, n).row.status;
      Rank(s) <= Rank(t) && (Rank(s) == Rank(t) ==> s == t)
  {
    RowAt(total, ops, deferred, planned, err, pre, outs, fin, m);
    RowAt(total, ops, deferred, planned, err, pre, outs, fin, n);
  }

  // ---------------------------------------------------------------- enqueueing

  /** The row first, then the task placeholders; the job is queued only if both succeed. */
  method OnEnqueueMultipart(t: JobTable, jobID: JobID, files: seq<FileRef>, tasksOn: bool, reached: bool, indexed: bool)
    returns (ok: bool)
    requires t.Valid()
    modifies t
    ensures t.Valid()
    ensures t.log == old(t.log) + if reached && old(t.Get(jobID)).Missing? then Tagged(jobID, [Insert(|files|)]) else []
    ensures ok <==>
      && reached && old(t.Get(jobID)).Missing?
      && (indexed || !tasksOn || forall k :: 0 <= k < |files| ==> TrimSpace(files[k].taskID) == "")
    ensures forall jobTask :: Enqueued(Multipart(files, jobTask), |files|)
  {
    hide TrimSpace, JobTable.Valid;
    TaggedStep(jobID, [], Insert(|files|));
    ok := t.InsertQueued(jobID, |files|, reached);
    if !ok || !tasksOn {
      return;
    }
    var docs := 0;
    for i := 0 to |files|
      invariant docs == 0 <==> forall k :: 0 <= k < i ==> TrimSpace(files[k].taskID) == ""
    {
      if TrimSpace(files[i].taskID) != "" {
        docs := docs + 1;
      }
    }
    if docs > 0 {
      ok := indexed;
    }
  }

  /** What the resolution of the API promises for the keys of a job. */
  ghost predicate Resolves(r: Result<(string, seq<string>), KeyError>, j: S3Job) {
    match r
    case Ok((bucket, keys)) =>
      && KeyList(KeysOf(j.uris) + j.keys, keys)
      && if j.uris == [] then bucket == TrimSpace(j.bucket) && (bucket == "" ==> keys == []) else OneBucket(j.uris, bucket)
    case Err(InvalidURI(_)) => !AllParse(j.uris)
    case Err(MixedBuckets) => forall b :: !OneBucket(j.uris, b)
    case Err(NoBucket) => TrimSpace(j.bucket) == "" && j.uris == [] && exists k :: Named(j.keys, k)
    case Err(NoKeys) => false
  }

  /** The file count of a job whose keys are listed later starts at zero; otherwise it is the number of keys. */
  method OnEnqueueS3(t: JobTable, jobID: JobID, j: S3Job, tasksOn: bool, reached: bool, indexed: bool)
    returns (ok: bool, resolved: Result<(string, seq<string>), KeyError>)
    requires t.Valid()
    modifies t
    ensures t.Valid()
    ensures j.deferred ==> resolved == Ok(("", []))
    ensures !j.deferred ==> Resolves(resolved, j)
    ensures var inserted := resolved.Ok? && reached && old(t.Get(jobID)).Missing?;
      && t.log == old(t.log) + (if inserted then Tagged(jobID, [Insert(|resolved.value.1|)]) else [])
      && (ok <==> inserted && (indexed || !tasksOn || resolved.value.1 == []))
    ensures resolved.Ok? ==> forall listing :: Enqueued(S3(j, listing), |resolved.value.1|)
  {
    hide JobTable.Valid, KeyList, KeysOf, TrimSpace, OneBucket, Of, AllParse, Named;
    resolved := Ok(("", []));
    if !j.deferred {
      resolved := ResolveS3EnqueueKeys(j.bucket, j.uris, j.keys);
      if resolved.Err? {
        return false, resolved;
      }
    }
    var keys := resolved.value.1;
    var total := |keys|;
    TaggedStep(jobID, [], Insert(total));
    ok := t.InsertQueued(jobID, total, reached);
    if ok && !j.deferred && tasksOn && |keys| > 0 {
      ok := indexed;
    }
  }

  // ---------------------------------------------------------------- when success means every file

  /** A file is counted if it has a payload key, and the file or its job a task id. */
  lemma CountsMeans(f: FileRef, jobTask: string)
    ensures Counts(f, jobTask) <==> f.payloadKey != "" && (TrimSpace(f.taskID) != "" || TrimSpace(jobTask) != "")
  {
    hide TrimSpace;
  }

  /** A multipart job asks for every file exactly when each has a payload key and a task id. */
  lemma {:induction false} MultipartPlan(files: seq<FileRef>, jobTask: string, fates: nat -> Fate, n: nat)
    requires n <= |files|
    ensures |PlannedFiles(files, jobTask, fates, n)| == n <==> forall k :: 0 <= k < n ==> Counts(files[k], jobTask)
  {
    hide Counts;
    if n > 0 {
      MultipartPlan(files, jobTask, fates, n - 1);
    }
  }

  /** The API counts the keys that the worker processes, when there is no prefix. */
  lemma KeyCountAgrees(uris: seq<string>, jobKeys: seq<string>, apiKeys: seq<string>, workerKeys: seq<string>)
    requires KeyList(KeysOf(uris) + jobKeys, apiKeys) && KeyList(KeysOf(uris) + jobKeys + [], workerKeys)
    ensures apiKeys == workerKeys
  {
    hide Named;
    var names := KeysOf(uris) + jobKeys;
    assert names + [] == names;
    SortedIsUnique(apiKeys, workerKeys);
  }

  /** The files of a job are all counted by its plan. */
  ghost predicate CountsAll(w: Work) {
    match w
    case Multipart(files, jobTask) => forall k :: 0 <= k < |files| ==> Counts(files[k], jobTask)
    case S3(job, _) => job.deferred || TrimSpace(job.prefix) == ""
    case Unknown => false
  }

  /** The file count at enqueue: of a multipart job its files, of a job listed later zero, else its keys. */
  ghost predicate Enqueued(w: Work, total: nat) {
    match w
    case Multipart(files, _) => total == |files|
    case S3(job, _) =>
      if job.deferred then total == 0
      else exists keys :: KeyList(KeysOf(job.uris) + job.keys, keys) && total == |keys|
    case Unknown => true
  }

  lemma PlanWithinTotal(w: Work, total: nat, fates: nat -> Fate, keys: seq<string>, err: bool)
    requires CountsAll(w) && Enqueued(w, total) && (w.S3? ==> WorkerKeys(w, keys, err))
    ensures IsDeferred(w) || |PlanOf(w, fates, |keys|)| <= total
    ensures !err ==> IsDeferred(w) || |PlanOf(w, fates, |keys|)| == total
  {
    hide Counts, TrimSpace, PlannedFiles, KeyList;
    match w {
      case Multipart(files, jobTask) =>
        MultipartPlan(files, jobTask, fates, |files|);
      case S3(job, _) =>
        if !job.deferred && keys != [] {
          var apiKeys :| KeyList(KeysOf(job.uris) + job.keys, apiKeys) && total == |apiKeys|;
          assert Listed(job, w.listing) == [];
          KeyCountAgrees(job.uris, job.keys, apiKeys, keys);
        }
    }
  }

  /** What the row of a processed job says: `started` and `ended` tell whether the first and last update got through. */
  ghost predicate FinalRow(r: Row, w: Work, fates: nat -> Fate, nKeys: nat, started: bool, ended: bool, err: bool) {
    && r.totalDocs == r.successDocs + r.failDocs && r.failFiles <= 1
    && (r.status.Succeeded? <==> started && ended && !err)
    && (r.status.Failed? <==> started && ended && err)
    && (r.status.Queued? <==> !started)
    && (CountsAll(w) ==> r.successFiles + r.failFiles <= r.totalFiles)
    && (CountsAll(w) && r.status.Succeeded? ==> r.successFiles == r.totalFiles && r.failFiles == 0)
    && (r.status.Succeeded? ==> r.successDocs == LinesRead(w, fates, nKeys) && r.totalChunks == ChunksWritten(w, fates, nKeys))
  }

  lemma RunEndsWell(w: Work, total: nat, fates: nat -> Fate, keys: seq<string>, err: bool,
                    ops: seq<RowOp>, pre: seq<RowOp>, outs: seq<RowOp>, fin: seq<RowOp>)
    requires JobRun(ops, IsDeferred(w), PlanOf(w, fates, |keys|), err, pre, outs, fin)
    requires Enqueued(w, total) && (w.S3? ==> WorkerKeys(w, keys, err))
    ensures SlotAt(total, ops, |ops|).Present?
    ensures FinalRow(SlotAt(total, ops, |ops|).row, w, fates, |keys|, true, fin != [], err)
  {
    hide CountsAll, Enqueued, WorkerKeys, PlanOf, SlotAt, LinesRead, ChunksWritten;
    PlanCarriesCounts(w, fates, |keys|);
    var planned := PlanOf(w, fates, |keys|);
    RowAt(total, ops, IsDeferred(w), planned, err, pre, outs, fin, |ops|);
    RowLaws(total, ops, IsDeferred(w), planned, err, pre, outs, fin, |ops|);
    if CountsAll(w) {
      PlanWithinTotal(w, total, fates, keys, err);
    }
  }

  /**
   The laws of a row: documents add up, at most one file fails, no more files are counted than there are, and a job
   that succeeded counted every line the runner read as a document, every chunk it wrote, every file, and no failure.
   */
  ghost predicate Lawful(r: Row, w: Work, fates: nat -> Fate, nKeys: nat) {
    && r.totalDocs == r.successDocs + r.failDocs && r.failFiles <= 1
    && (CountsAll(w) ==> r.successFiles + r.failFiles <= r.totalFiles)
    && (r.status.Succeeded? ==>
         && r.failFiles == 0 && r.successFiles == |PlanOf(w, fates, nKeys)|
         && r.successDocs == LinesRead(w, fates, nKeys) && r.totalChunks == ChunksWritten(w, fates, nKeys))
    && (CountsAll(w) && r.status.Succeeded? ==> r.successFiles == r.totalFiles)
  }

  /** The first `n` statements of a run, among any statements of other jobs, make a lawful row. */
  lemma LogMoment(log: seq<(JobID, RowOp)>, j: JobID, total: nat, w: Work, fates: nat -> Fate, keys: seq<string>, err: bool,
                  ops: seq<RowOp>, pre: seq<RowOp>, outs: seq<RowOp>, fin: seq<RowOp>, n: nat)
    requires n <= |ops| && Of(log, j) == [Insert(total)] + ops[..n]
    requires JobRun(ops, IsDeferred(w), PlanOf(w, fates, |keys|), err, pre, outs, fin)
    requires Enqueued(w, total) && (w.S3? ==> WorkerKeys(w, keys, err))
    ensures RowOf(log, j).Present? && Lawful(RowOf(log, j).row, w, fates, |keys|)
    ensures RowOf(log, j).row.status.Queued? <==> n == 0
  {
    hide CountsAll, Enqueued, WorkerKeys, PlanOf, LinesRead, ChunksWritten;
    PlanCarriesCounts(w, fates, |keys|);
    RowAt(total, ops, IsDeferred(w), PlanOf(w, fates, |keys|), err, pre, outs, fin, n);
    RowLaws(total, ops, IsDeferred(w), PlanOf(w, fates, |keys|), err, pre, outs, fin, n);
    if CountsAll(w) {
      PlanWithinTotal(w, total, fates, keys, err);
    }
  }

  /**
   A job whose row was inserted is processed; any statements of other jobs may be in the log before it.
   Its row then obeys the laws, success means that every file succeeded and that the row holds what the runner
   reported for them, and no other row has changed.
   */
  method ProcessQueued(t: JobTable, jobID: JobID, total: nat, w: Work, fates: nat -> Fate, c: Calls, tasksOn: bool)
    returns (err: bool, keys: seq<string>)
    requires t.Valid() && Of(t.log, jobID) == [Insert(total)] && Enqueued(w, total)
    modifies t
    ensures t.Valid() && t.Get(jobID).Present? && FinalRow(t.Get(jobID).row, w, fates, |keys|, c.started, c.ended, err)
    ensures c.started && w.S3? ==> WorkerKeys(w, keys, err)
    ensures forall k :: k != jobID ==> t.Get(k) == old(t.Get(k))
  {
    hide JobTable.Valid, Tagged, PlanOf, CountsAll, Enqueued, WorkerKeys, FinalRow, JobRun, AfterAll, Of;
    ghost var pre, outs, fin;
    ghost var before := t.log;
    InsertedRow(t, jobID, total);
    TableIsLog(t);
    err, keys, pre, outs, fin := ProcessJob(t, jobID, w, fates, c, true, tasksOn);
    ghost var ops := [RowOp.MarkRunning] + pre + outs + fin;
    if c.started {
      LogOf(t, before, jobID, ops);
      RunEndsWell(w, total, fates, keys, err, ops, pre, outs, fin);
      WholeRun(total, ops);
    } else {
      NotStarted(w, fates, |keys|, total);
    }
    TableIsLog(t);
  }

  lemma TableIsLog(t: JobTable)
    requires t.Valid()
    ensures forall k :: t.Get(k) == AfterAll(Missing, Of(t.log, k))
  {
  }

  lemma WholeRun(total: nat, ops: seq<RowOp>)
    ensures SlotAt(total, ops, |ops|) == AfterAll(Missing, [Insert(total)] + ops)
  {
    assert ops[..|ops|] == ops;
  }

  lemma NotStarted(w: Work, fates: nat -> Fate, nKeys: nat, total: nat)
    ensures FinalRow(Row(Queued, total, 0, 0, 0, 0, 0, 0), w, fates, nKeys, false, false, true)
    ensures FinalRow(Row(Queued, total, 0, 0, 0, 0, 0, 0), w, fates, nKeys, false, true, true)
  {
  }

  lemma InsertedRow(t: JobTable, j: JobID, total: nat)
    requires t.Valid() && Of(t.log, j) == [Insert(total)]
    ensures t.Get(j) == Present(Row(Queued, total, 0, 0, 0, 0, 0, 0))
  {
    FirstSlot(total, []);
    assert [Insert(total)] + [] == [Insert(total)];
  }

  /** What a run adds to the log is the run's, for its own job, and nothing for the others. */
  lemma LogOf(t: JobTable, before: seq<(JobID, RowOp)>, j: JobID, ops: seq<RowOp>)
    requires t.Valid() && t.log == before + Tagged(j, ops)
    ensures t.Get(j) == AfterAll(Missing, Of(before, j) + ops)
    ensures forall k :: k != j ==> t.Get(k) == AfterAll(Missing, Of(before, k))
  {
    forall k ensures t.Get(k) == AfterAll(Missing, if k == j then Of(before, j) + ops else Of(before, k)) {
      OfConcat(before, Tagged(j, ops), k);
      OfTagged(j, ops, k);
      if k != j {
        assert Of(before, k) + [] == Of(before, k);
      }
    }
  }
}
