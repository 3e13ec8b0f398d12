/**
 The worker: what it writes to the row of the one job it processes.  Everything it cannot decide itself
 (Redis, Elasticsearch, MySQL, S3, the runner) is a parameter that says how each call turned out.
 */
module JobWorker {
  import opened Text
  import opened JobRows
  import opened SortedStrings
  import opened S3Keys

  datatype RunResult = RunOk(lines: nat, chunks: nat) | RunErr

  /** How the calls for one file or object turn out. */
  datatype Fate = Fate(
    loaded: bool,      // the body could be fetched, read, and is not too large
    running: bool,     // the task document could be set to running
    run: RunResult,    // the runner's result; an unsupported extension is an error
    taskDoc: bool,     // the task document could be set to its outcome
    counted: bool)     // the row could be updated with the outcome

  datatype FileRef = FileRef(payloadKey: string, filename: string, taskID: string)

  function TaskIDFor(f: FileRef, jobTask: string): string {
    if TrimSpace(f.taskID) != "" then TrimSpace(f.taskID) else TrimSpace(jobTask)
  }

  /** The row update that a file asks for once it has run. */
  function OutcomeOf(f: Fate): RowOp {
    match f.run
    case RunOk(lines, chunks) => Success(lines, chunks)
    case RunErr => Failure
  }

  predicate Counts(f: FileRef, jobTask: string) {
    f.payloadKey != "" && TaskIDFor(f, jobTask) != ""
  }

  /** The outcomes of the files that are counted, in order. */
  function PlannedFiles(files: seq<FileRef>, jobTask: string, fates: nat -> Fate, n: nat): (r: seq<RowOp>)
    requires n <= |files|
    ensures |r| <= n
  {
    if n == 0 then []
    else PlannedFiles(files, jobTask, fates, n - 1) + if Counts(files[n - 1], jobTask) then [OutcomeOf(fates(n - 1))] else []
  }

  function PlannedKeys(fates: nat -> Fate, n: nat): (r: seq<RowOp>)
    ensures |r| == n
  {
    if n == 0 then [] else PlannedKeys(fates, n - 1) + [OutcomeOf(fates(n - 1))]
  }

  /** Successes in the planned order, at most one failure and nothing after it; all of the plan unless there was an error. */
  ghost predicate Outcomes(ops: seq<RowOp>, planned: seq<RowOp>, err: bool) {
    && |ops| <= |planned|
    && (forall k :: 0 <= k < |ops| - 1 ==> ops[k] == planned[k] && ops[k].Success?)
    && (ops != [] ==>
         var last := |ops| - 1; (ops[last] == planned[last] && ops[last].Success?) || (ops[last] == Failure && err))
    && (!err ==> ops == planned)
  }

  /** The plan up to here, all of it successful. */
  ghost predicate SoFar(ops: seq<RowOp>, planned: seq<RowOp>) {
    ops == planned && forall k :: 0 <= k < |ops| ==> ops[k].Success?
  }

  /** An error after a successful stretch of the plan leaves at most one failure behind it. */
  lemma StopsHere(ops: seq<RowOp>, more: seq<RowOp>, sofar: seq<RowOp>, planned: seq<RowOp>)
    requires SoFar(ops, sofar) && sofar <= planned
    requires more == [] || (more == [Failure] && |sofar| < |planned|)
    ensures Outcomes(ops + more, planned, true)
  {
  }

  lemma RanThrough(ops: seq<RowOp>, planned: seq<RowOp>, err: bool)
    requires SoFar(ops, planned)
    ensures Outcomes(ops, planned, err)
  {
  }

  /** The statements `ops`, all of job `j`. */
  function Tagged(j: JobID, ops: seq<RowOp>): (r: seq<(JobID, RowOp)>)
    ensures |r| == |ops| && forall k :: 0 <= k < |r| ==> r[k] == (j, ops[k])
  {
    if ops == [] then [] else Tagged(j, ops[..|ops| - 1]) + [(j, ops[|ops| - 1])]
  }

  lemma TaggedStep(j: JobID, ops: seq<RowOp>, op: RowOp)
    ensures Tagged(j, ops + [op]) == Tagged(j, ops) + [(j, op)]
  {
  }

  lemma TaggedConcat(j: JobID, a: seq<RowOp>, b: seq<RowOp>)
    ensures Tagged(j, a + b) == Tagged(j, a) + Tagged(j, b)
  {
  }

  lemma {:induction false} OfTagged(j: JobID, ops: seq<RowOp>, k: JobID)
    ensures Of(Tagged(j, ops), k) == if k == j then ops else []
  {
    if ops != [] {
      var n := |ops| - 1;
      OfTagged(j, ops[..n], k);
      var t := Tagged(j, ops);
      assert t[..n] == Tagged(j, ops[..n]);
    }
  }

  method OnTaskFailed(t: JobTable, jobID: JobID, hasTaskDoc: bool, f: Fate) returns (ok: bool)
    requires t.Valid()
    modifies t
    ensures t.Valid() && ok == Recorded(f, hasTaskDoc)
    ensures ok <==> (hasTaskDoc ==> f.taskDoc) && f.counted
    ensures t.log == old(t.log) + if ok then Tagged(jobID, [Failure]) else []
  {
    if hasTaskDoc && !f.taskDoc {
      return false;
    }
    ok := t.AddOutcome(jobID, false, 0, 1, 0, f.counted);
  }

  method OnTaskSucceeded(t: JobTable, jobID: JobID, hasTaskDoc: bool, f: Fate) returns (ok: bool)
    requires t.Valid() && f.run.RunOk?
    modifies t
    ensures t.Valid() && ok == Recorded(f, hasTaskDoc)
    ensures ok <==> (hasTaskDoc ==> f.taskDoc) && f.counted
    ensures t.log == old(t.log) + if ok then Tagged(jobID, [Success(f.run.lines, f.run.chunks)]) else []
  {
    if hasTaskDoc && !f.taskDoc {
      return false;
    }
    ok := t.AddOutcome(jobID, true, f.run.lines, 0, f.run.chunks, f.counted);
  }

  /** The task document could be set to running. */
  predicate Announced(f: Fate, tasksOn: bool) {
    !tasksOn || f.running
  }

  /** The outcome gets into the row: the task document first, then the row. */
  predicate Recorded(f: Fate, tasksOn: bool) {
    (!tasksOn || f.taskDoc) && f.counted
  }

  /** One file: the outcome that was recorded, if any, and whether the job stops here. */
  method ProcessFile(t: JobTable, jobID: JobID, f: FileRef, jobTask: string, fate: Fate, metaOn: bool, tasksOn: bool)
    returns (err: bool, ghost ops: seq<RowOp>)
    requires t.Valid()
    modifies t
    ensures t.Valid() && t.log == old(t.log) + Tagged(jobID, ops)
    ensures !err ==> ops == (if metaOn && Counts(f, jobTask) then [OutcomeOf(fate)] else [])
    ensures !err && ops != [] ==> fate.run.RunOk? && ops == [Success(fate.run.lines, fate.run.chunks)]
    ensures !err && f.payloadKey != "" ==> fate.loaded && fate.run.RunOk?
    ensures err ==> ops == [] || (ops == [Failure] && metaOn && Counts(f, jobTask))
    ensures f.payloadKey != "" ==>
      (err <==> !fate.loaded || fate.run.RunErr?
                || (metaOn && Counts(f, jobTask) && ((tasksOn && !(fate.running && fate.taskDoc)) || !fate.counted)))
    ensures ops == [Failure] <==>
      && metaOn && Counts(f, jobTask) && Recorded(fate, tasksOn)
      && (!fate.loaded || (Announced(fate, tasksOn) && fate.run.RunErr?))
  {
    ops := [];
    assert Tagged(jobID, []) == [];
    if f.payloadKey == "" {
      return false, [];
    }
    var taskID := TaskIDFor(f, jobTask);
    if !fate.loaded {
      if metaOn && taskID != "" {
        var ok := OnTaskFailed(t, jobID, tasksOn, fate);
        ops := if ok then [Failure] else [];
      }
      return true, ops;
    }
    if metaOn && taskID != "" {
      if tasksOn && !fate.running {
        return true, [];
      }
    }
    if metaOn && taskID != "" {
      if fate.run.RunErr? {
        var ok := OnTaskFailed(t, jobID, tasksOn, fate);
        return true, if ok then [Failure] else [];
      }
      var ok := OnTaskSucceeded(t, jobID, tasksOn, fate);
      if !ok {
        return true, [];
      }
      ops := [OutcomeOf(fate)];
    } else if fate.run.RunErr? {
      return true, [];
    }
    err := false;
  }

  method ProcessMultipart(t: JobTable, jobID: JobID, files: seq<FileRef>, jobTask: string, fates: nat -> Fate,
                          hasBroker: bool, flushed: bool, metaOn: bool, tasksOn: bool)
    returns (err: bool, ghost ops: seq<RowOp>)
    requires t.Valid()
    modifies t
    ensures t.Valid() && t.log == old(t.log) + Tagged(jobID, ops)
    ensures if metaOn then Outcomes(ops, PlannedFiles(files, jobTask, fates, |files|), err) else ops == []
    ensures !err ==> hasBroker && flushed && forall k :: 0 <= k < |files| && files[k].payloadKey != "" ==> fates(k).run.RunOk?
  {
    hide JobTable.Valid, Tagged, Outcomes, Announced, Recorded, OutcomeOf, FilesDone, PlannedFiles, Counts;
    ops := [];
    NoTags(jobID, []);
    NoFileYet(files, jobTask, fates, metaOn);
    if !hasBroker {
      return true, [];
    }
    for i := 0 to |files|
      invariant t.Valid() && t.log == old(t.log) + Tagged(jobID, ops)
      invariant FilesDone(ops, files, jobTask, fates, metaOn, i)
      invariant forall k :: 0 <= k < i && files[k].payloadKey != "" ==> fates(k).run.RunOk?
    {
      ghost var more;
      err, more := ProcessFile(t, jobID, files[i], jobTask, fates(i), metaOn, tasksOn);
      TaggedConcat(jobID, ops, more);
      if err {
        FileFailed(ops, more, files, jobTask, fates, metaOn, i);
        ops := ops + more;
        return;
      }
      FileDone(ops, more, files, jobTask, fates, metaOn, i);
      ops := ops + more;
    }
    err := !flushed;
    AllFilesDone(ops, files, jobTask, fates, metaOn, err);
  }

  /** After `i` files without an error. */
  ghost predicate FilesDone(ops: seq<RowOp>, files: seq<FileRef>, jobTask: string, fates: nat -> Fate, metaOn: bool, i: nat)
    requires i <= |files|
  {
    if metaOn then SoFar(ops, PlannedFiles(files, jobTask, fates, i)) else ops == []
  }

  lemma NoFileYet(files: seq<FileRef>, jobTask: string, fates: nat -> Fate, metaOn: bool)
    ensures FilesDone([], files, jobTask, fates, metaOn, 0) && Outcomes([], PlannedFiles(files, jobTask, fates, |files|), true)
  {
  }

  lemma FileDone(ops: seq<RowOp>, more: seq<RowOp>, files: seq<FileRef>, jobTask: string, fates: nat -> Fate, metaOn: bool, i: nat)
    requires i < |files| && FilesDone(ops, files, jobTask, fates, metaOn, i)
    requires more == if metaOn && Counts(files[i], jobTask) then [OutcomeOf(fates(i))] else []
    requires files[i].payloadKey != "" ==> fates(i).run.RunOk?
    ensures FilesDone(ops + more, files, jobTask, fates, metaOn, i + 1)
  {
    if metaOn {
      OneMoreFile(ops, files, jobTask, fates, i);
    }
  }

  lemma FileFailed(ops: seq<RowOp>, more: seq<RowOp>, files: seq<FileRef>, jobTask: string, fates: nat -> Fate, metaOn: bool, i: nat)
    requires i < |files| && FilesDone(ops, files, jobTask, fates, metaOn, i)
    requires more == [] || (more == [Failure] && metaOn && Counts(files[i], jobTask))
    ensures if metaOn then Outcomes(ops + more, PlannedFiles(files, jobTask, fates, |files|), true) else ops + more == []
  {
    var planned, sofar := PlannedFiles(files, jobTask, fates, |files|), PlannedFiles(files, jobTask, fates, i);
    PlanIsPrefix(files, jobTask, fates, i, |files|);
    if metaOn {
      StopsHere(ops, more, sofar, planned);
    }
  }

  lemma AllFilesDone(ops: seq<RowOp>, files: seq<FileRef>, jobTask: string, fates: nat -> Fate, metaOn: bool, err: bool)
    requires FilesDone(ops, files, jobTask, fates, metaOn, |files|)
    ensures if metaOn then Outcomes(ops, PlannedFiles(files, jobTask, fates, |files|), err) else ops == []
  {
    if metaOn {
      RanThrough(ops, PlannedFiles(files, jobTask, fates, |files|), err);
    }
  }

  lemma NothingYet(planned: seq<RowOp>)
    ensures SoFar([], []) && Outcomes([], planned, true)
  {
  }

  lemma OneMoreFile(ops: seq<RowOp>, files: seq<FileRef>, jobTask: string, fates: nat -> Fate, i: nat)
    requires i < |files| && SoFar(ops, PlannedFiles(files, jobTask, fates, i))
    requires Counts(files[i], jobTask) ==> fates(i).run.RunOk?
    ensures SoFar(ops + (if Counts(files[i], jobTask) then [OutcomeOf(fates(i))] else []), PlannedFiles(files, jobTask, fates, i + 1))
  {
  }

  lemma OneMoreKey(ops: seq<RowOp>, fates: nat -> Fate, i: nat)
    requires SoFar(ops, PlannedKeys(fates, i)) && fates(i).run.RunOk?
    ensures SoFar(ops + [OutcomeOf(fates(i))], PlannedKeys(fates, i + 1))
  {
  }

  lemma {:induction false} PlanIsPrefix(files: seq<FileRef>, jobTask: string, fates: nat -> Fate, m: nat, n: nat)
    requires m <= n <= |files|
    ensures PlannedFiles(files, jobTask, fates, m) <= PlannedFiles(files, jobTask, fates, n)
    ensures m < n && Counts(files[m], jobTask) ==>
      |PlannedFiles(files, jobTask, fates, m)| < |PlannedFiles(files, jobTask, fates, n)|
    decreases n
  {
    if m < n {
      PlanIsPrefix(files, jobTask, fates, m, n - 1);
    }
  }

  lemma {:induction false} KeyPlanIsPrefix(fates: nat -> Fate, m: nat, n: nat)
    requires m <= n
    ensures PlannedKeys(fates, m) <= PlannedKeys(fates, n)
    decreases n
  {
    if m < n {
      KeyPlanIsPrefix(fates, m, n - 1);
    }
  }

  /** One object; the task document is set to running before the object is fetched. */
  method ProcessKey(t: JobTable, jobID: JobID, fate: Fate, metaOn: bool, tasksOn: bool)
    returns (err: bool, ghost ops: seq<RowOp>)
    requires t.Valid()
    modifies t
    ensures t.Valid() && t.log == old(t.log) + Tagged(jobID, ops)
    ensures !err ==> fate.loaded && fate.run.RunOk? && ops == if metaOn then [OutcomeOf(fate)] else []
    ensures !err && metaOn ==> ops == [Success(fate.run.lines, fate.run.chunks)]
    ensures err ==> ops == [] || (ops == [Failure] && metaOn)
    ensures err <==>
      !fate.loaded || fate.run.RunErr? || (metaOn && ((tasksOn && !(fate.running && fate.taskDoc)) || !fate.counted))
    ensures ops == [Failure] <==>
      metaOn && Announced(fate, tasksOn) && Recorded(fate, tasksOn) && (!fate.loaded || fate.run.RunErr?)
  {
    ops := [];
    assert Tagged(jobID, []) == [];
    if metaOn && tasksOn && !fate.running {
      return true, [];
    }
    if !fate.loaded || fate.run.RunErr? {
      if metaOn {
        var ok := OnTaskFailed(t, jobID, tasksOn, fate);
        ops := if ok then [Failure] else [];
      }
      return true, ops;
    }
    if metaOn {
      var ok := OnTaskSucceeded(t, jobID, tasksOn, fate);
      if !ok {
        return true, [];
      }
      ops := [OutcomeOf(fate)];
    }
    err := false;
  }

  /** After a deferred listing: placeholders, then the number of files. */
  method AfterS3List(t: JobTable, jobID: JobID, n: nat, tasksOn: bool, indexed: bool, reached: bool) returns (ok: bool)
    requires t.Valid() && n > 0
    modifies t
    ensures t.Valid() && ok == ((!tasksOn || indexed) && reached)
    ensures t.log == old(t.log) + if ok then Tagged(jobID, [SetTotal(n)]) else []
  {
    if tasksOn && !indexed {
      return false;
    }
    ok := t.SetTotalFiles(jobID, n, reached);
  }

  /** An S3 job as it is queued. */
  datatype S3Job = S3Job(bucket: string, uris: seq<string>, keys: seq<string>, prefix: string, deferred: bool)

  function Listed(j: S3Job, listing: Result<seq<string>, bool>): seq<string> {
    if TrimSpace(j.prefix) != "" && listing.Ok? then listing.value else []
  }

  lemma ListedMeans(j: S3Job, listing: Result<seq<string>, bool>)
    ensures Listed(j, listing) == if TrimSpace(j.prefix) != "" && listing.Ok? then listing.value else []
  {
    hide TrimSpace;
  }

  /** `resolved` is what the key resolution gave; `pre` the correction of the file count, `outs` the outcomes. */
  method ProcessS3(t: JobTable, jobID: JobID, j: S3Job, listing: Result<seq<string>, bool>, fates: nat -> Fate,
                   hasS3: bool, indexed: bool, totalSet: bool, flushed: bool, metaOn: bool, tasksOn: bool)
    returns (err: bool, resolved: Result<(string, seq<string>), KeyError>, ghost pre: seq<RowOp>, ghost outs: seq<RowOp>)
    requires t.Valid()
    modifies t
    ensures t.Valid() && t.log == old(t.log) + Tagged(jobID, pre + outs)
    ensures !metaOn ==> pre + outs == []
    ensures resolved.Err? ==> err && pre == [] && outs == []
    ensures resolved.Ok? ==> resolved.value.1 != [] && KeyList(KeysOf(j.uris) + j.keys + Listed(j, listing), resolved.value.1)
    ensures resolved.Ok? && TrimSpace(j.prefix) != "" ==> listing.Ok? && Listed(j, listing) == listing.value
    ensures resolved.Ok? && TrimSpace(j.prefix) == "" ==> Listed(j, listing) == []
    ensures metaOn && resolved.Ok? ==>
      var n := |resolved.value.1|;
      && Outcomes(outs, PlannedKeys(fates, n), err)
      && (if j.deferred then pre == [SetTotal(n)] || (pre == [] && outs == [] && err) else pre == [])
    ensures !err ==> flushed && resolved.Ok? && forall k :: 0 <= k < |resolved.value.1| ==> fates(k).run.RunOk?
  {
    hide JobTable.Valid, Tagged, SoFar, Outcomes, KeyList, TrimSpace, Listed, OneBucket, Named, AllParse, KeysOf;
    pre, outs := [], [];
    ListedMeans(j, listing);
    resolved := Err(NoKeys);
    NoTags(jobID, []);
    if !hasS3 {
      return true, resolved, [], [];
    }
    if TrimSpace(j.prefix) != "" && listing.Err? {
      return true, resolved, [], [];
    }
    resolved := ResolveWorkerKeys(j.bucket, j.uris, j.keys, Listed(j, listing));
    if resolved.Err? {
      return true, resolved, [], [];
    }
    var n := |resolved.value.1|;
    NothingYet(PlannedKeys(fates, n));
    if metaOn && j.deferred {
      var ok := AfterS3List(t, jobID, n, tasksOn, indexed, totalSet);
      if !ok {
        return true, resolved, [], [];
      }
      pre := [SetTotal(n)];
    }
    err, outs := ProcessKeys(t, jobID, n, fates, flushed, metaOn, tasksOn);
    TaggedConcat(jobID, pre, outs);
  }

  /** The loop over the resolved keys, and the final flush. */
  method ProcessKeys(t: JobTable, jobID: JobID, n: nat, fates: nat -> Fate, flushed: bool, metaOn: bool, tasksOn: bool)
    returns (err: bool, ghost outs: seq<RowOp>)
    requires t.Valid()
    modifies t
    ensures t.Valid() && t.log == old(t.log) + Tagged(jobID, outs)
    ensures if metaOn then Outcomes(outs, PlannedKeys(fates, n), err) else outs == []
    ensures !err ==> flushed && forall k :: 0 <= k < n ==> fates(k).run.RunOk?
  {
    hide JobTable.Valid, Tagged, SoFar, Outcomes;
    outs := [];
    NoTags(jobID, []);
    NothingYet(PlannedKeys(fates, n));
    for i := 0 to n
      invariant t.Valid() && t.log == old(t.log) + Tagged(jobID, outs)
      invariant if metaOn then SoFar(outs, PlannedKeys(fates, i)) else outs == []
      invariant forall k :: 0 <= k < i ==> fates(k).run.RunOk?
    {
      ghost var more;
      err, more := ProcessKey(t, jobID, fates(i), metaOn, tasksOn);
      TaggedConcat(jobID, outs, more);
      if err {
        KeyPlanIsPrefix(fates, i, n);
        if metaOn {
          StopsHere(outs, more, PlannedKeys(fates, i), PlannedKeys(fates, n));
        }
        outs := outs + more;
        return;
      }
      if metaOn {
        OneMoreKey(outs, fates, i);
      }
      outs := outs + more;
    }
    err := !flushed;
    if metaOn {
      RanThrough(outs, PlannedKeys(fates, n), err);
    }
  }

  lemma NoTags(j: JobID, pre: seq<RowOp>)
    ensures pre + [] == pre && Tagged(j, []) == []
  {
  }

  // ---------------------------------------------------------------- one job, start to end

  datatype Work =
    | Multipart(files: seq<FileRef>, jobTask: string)
    | S3(job: S3Job, listing: Result<seq<string>, bool>)
    | Unknown

  /** How the remaining calls turn out. */
  datatype Calls = Calls(started: bool, backend: bool, indexed: bool, totalSet: bool, flushed: bool, ended: bool)

  /**
   What a job with a row may write: it is marked running, its file count may be corrected once before any
   outcome, then come the outcomes, and last the terminal status that tells whether there was an error.
   */
  ghost predicate JobRun(ops: seq<RowOp>, deferred: bool, planned: seq<RowOp>, err: bool, pre: seq<RowOp>, outs: seq<RowOp>, fin: seq<RowOp>) {
    && ops == [MarkRunning] + pre + outs + fin
    && (if deferred then pre == [SetTotal(|planned|)] || (pre == [] && outs == [] && err) else pre == [])
    && Outcomes(outs, planned, err)
    && (fin == [] || fin == [Terminal(!err)])
  }

  /** The outcomes a job asks for. */
  function PlanOf(w: Work, fates: nat -> Fate, nKeys: nat): seq<RowOp> {
    match w
    case Multipart(files, jobTask) => PlannedFiles(files, jobTask, fates, |files|)
    case S3(_, _) => PlannedKeys(fates, nKeys)
    case Unknown => []
  }

  predicate IsDeferred(w: Work) {
    w.S3? && w.job.deferred
  }

  lemma PresentStays(s: Slot, ops: seq<RowOp>)
    requires s.Present?
    ensures AfterAll(s, ops).Present?
  {
  }

  lemma RowFromLog(t: JobTable, j: JobID)
    requires t.Valid()
    ensures t.Get(j) == AfterAll(Missing, Of(t.log, j))
  {
  }

  /** Rows are never deleted. */
  lemma RowPresent(t: JobTable, j: JobID, before: seq<(JobID, RowOp)>, slot: Slot, ops: seq<RowOp>)
    requires t.Valid() && t.log == before + Tagged(j, ops)
    requires slot == AfterAll(Missing, Of(before, j)) && slot.Present?
    ensures t.Get(j).Present?
  {
    OfConcat(before, Tagged(j, ops), j);
    AfterAllConcat(Missing, Of(before, j), Of(Tagged(j, ops), j));
    PresentStays(AfterAll(Missing, Of(before, j)), Of(Tagged(j, ops), j));
  }

  /** The keys the worker resolved, or none and an error. */
  ghost predicate WorkerKeys(w: Work, keys: seq<string>, err: bool)
    requires w.S3?
  {
    if keys == [] then err else KeyList(KeysOf(w.job.uris) + w.job.keys + Listed(w.job, w.listing), keys)
  }

  /** The body of a job. */
  method RunWork(t: JobTable, jobID: JobID, w: Work, fates: nat -> Fate, c: Calls, metaOn: bool, tasksOn: bool)
    returns (err: bool, keys: seq<string>, ghost pre: seq<RowOp>, ghost outs: seq<RowOp>)
    requires t.Valid()
    modifies t
    ensures t.Valid() && t.log == old(t.log) + Tagged(jobID, pre + outs)
    ensures !metaOn ==> pre + outs == []
    ensures w.S3? ==> WorkerKeys(w, keys, err)
    ensures metaOn ==> Outcomes(outs, PlanOf(w, fates, |keys|), err)
    ensures metaOn ==>
      if IsDeferred(w) then pre == [SetTotal(|keys|)] || (pre == [] && outs == [] && err) else pre == []
  {
    hide KeyList, KeysOf, Listed;
    pre, outs, keys := [], [], [];
    match w {
      case Multipart(files, jobTask) =>
        err, outs := ProcessMultipart(t, jobID, files, jobTask, fates, c.backend, c.flushed, metaOn, tasksOn);
        assert pre + outs == outs;
      case S3(job, listing) =>
        var resolved;
        err, resolved, pre, outs := ProcessS3(t, jobID, job, listing, fates, c.backend, c.indexed, c.totalSet, c.flushed, metaOn, tasksOn);
        keys := if resolved.Ok? then resolved.value.1 else [];
      case Unknown =>
        err := true;
        assert Tagged(jobID, pre + outs) == [];
    }
  }

  method ProcessJob(t: JobTable, jobID: JobID, w: Work, fates: nat -> Fate, c: Calls, metaOn: bool, tasksOn: bool)
    returns (err: bool, keys: seq<string>, ghost pre: seq<RowOp>, ghost outs: seq<RowOp>, ghost fin: seq<RowOp>)
    requires t.Valid()
    modifies t
    ensures t.Valid()
    ensures !metaOn ==> t.log == old(t.log)
    ensures metaOn && !(c.started && old(t.Get(jobID)).Present?) ==> err && t.log == old(t.log)
    ensures metaOn && c.started && old(t.Get(jobID)).Present? ==>
      var ops := [MarkRunning] + pre + outs + fin;
      && t.log == old(t.log) + Tagged(jobID, ops)
      && JobRun(ops, IsDeferred(w), PlanOf(w, fates, |keys|), err, pre, outs, fin)
      && (w.S3? ==> WorkerKeys(w, keys, err))
      && (c.ended <==> fin != [])
  {
    hide JobTable.Valid, Tagged, Outcomes, PlanOf, WorkerKeys;
    pre, outs, fin := [], [], [];
    NoTags(jobID, []);
    RowFromLog(t, jobID);
    if !metaOn {
      err, keys, pre, outs := RunWork(t, jobID, w, fates, c, metaOn, tasksOn);
      return;
    }
    var ok := t.MarkRunning(jobID, c.started);
    if !ok {
      return true, [], [], [], [];
    }
    TaggedStep(jobID, [], RowOp.MarkRunning);
    err, keys, pre, outs := RunWork(t, jobID, w, fates, c, metaOn, tasksOn);
    TaggedConcat(jobID, [RowOp.MarkRunning], pre + outs);
    ghost var ops := [RowOp.MarkRunning] + (pre + outs);
    RowPresent(t, jobID, old(t.log), old(t.Get(jobID)), ops);
    var done := t.MarkTerminal(jobID, !err, c.ended);
    if done {
      fin := [Terminal(!err)];
      TaggedStep(jobID, ops, Terminal(!err));
    }
    PlanLength(w, fates, |keys|);
    RunShape(pre, outs, fin, ops);
  }

  lemma RunShape(pre: seq<RowOp>, outs: seq<RowOp>, fin: seq<RowOp>, ops: seq<RowOp>)
    requires ops == [RowOp.MarkRunning] + (pre + outs)
    ensures [RowOp.MarkRunning] + pre + outs + fin == ops + fin && ops + [] == ops
  {
  }

  lemma PlanLength(w: Work, fates: nat -> Fate, nKeys: nat)
    ensures IsDeferred(w) ==> |PlanOf(w, fates, nKeys)| == nKeys
  {
  }
}
