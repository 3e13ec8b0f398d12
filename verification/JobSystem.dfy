/**
 The whole ingest system over all its runs: any number of requests that insert a row and then push the job, one queue,
 any number of workers that pop jobs and issue the statements of their runs one by one, crashes anywhere.
 What a run issues is what `ProcessJob` issues; everything else, one worker per job above all, is derived.
 */
module JobSystem {
  import opened JobQueue
  import opened JobRows
  import opened JobWorker
  import opened JobLifecycle

  type WorkerID = nat
  type RequestID = nat

  /** How the processing of one job turns out, should it ever be processed. */
  datatype Run = Run(total: nat, w: Work, fates: nat -> Fate, keys: seq<string>, started: bool, err: bool,
                     pre: seq<RowOp>, outs: seq<RowOp>, fin: seq<RowOp>)
  {
    /** The statements that take effect, in order; none if the job could not be marked running. */
    function Script(): seq<RowOp> {
      if started then [RowOp.MarkRunning] + pre + outs + fin else []
    }

    function Planned(): seq<RowOp> {
      PlanOf(w, fates, |keys|)
    }

    ghost predicate Possible() {
      && Enqueued(w, total)
      && (started ==> JobRun(Script(), IsDeferred(w), Planned(), err, pre, outs, fin))
      && (started && w.S3? ==> WorkerKeys(w, keys, err))
    }
  }

  type Runs = JobID -> Run

  /** The scripts are those of the worker: processing a job whose row is there issues a possible script, and nothing else. */
  method IssuedByProcessJob(t: JobTable, jobID: JobID, total: nat, w: Work, fates: nat -> Fate, c: Calls, tasksOn: bool)
    returns (ghost run: Run)
    requires t.Valid() && t.Get(jobID).Present? && Enqueued(w, total)
    modifies t
    ensures t.Valid() && run.Possible() && run.total == total && run.w == w && run.fates == fates && run.started == c.started
    ensures t.log == old(t.log) + Tagged(jobID, run.Script())
  {
    hide JobTable.Valid, Tagged, PlanOf, WorkerKeys, JobRun, Enqueued;
    var err, keys;
    ghost var pre, outs, fin;
    NoTags(jobID, []);
    err, keys, pre, outs, fin := ProcessJob(t, jobID, w, fates, c, true, tasksOn);
    run := Run(total, w, fates, keys, c.started, err, pre, outs, fin);
    assert old(t.log) + [] == old(t.log);
  }

  /** And the inserts are those of the requests: a request writes at most the insert of its job, with the file count due to it. */
  method InsertedByRequest(t: JobTable, jobID: JobID, w: Work, tasksOn: bool, reached: bool, indexed: bool)
    returns (ok: bool, ghost inserted: bool, ghost total: nat)
    requires t.Valid() && !w.Unknown?
    modifies t
    ensures t.Valid() && t.log == old(t.log) + if inserted then Tagged(jobID, [RowOp.Insert(total)]) else []
    ensures inserted ==> Enqueued(w, total) && old(t.Get(jobID)).Missing?
    ensures ok ==> inserted
  {
    hide JobTable.Valid, Tagged, Enqueued, Resolves;
    inserted := reached && t.Get(jobID).Missing?;
    match w {
      case Multipart(files, _) =>
        total := |files|;
        ok := OnEnqueueMultipart(t, jobID, files, tasksOn, reached, indexed);
      case S3(job, _) =>
        var resolved;
        ok, resolved := OnEnqueueS3(t, jobID, job, tasksOn, reached, indexed);
        inserted := inserted && resolved.Ok?;
        total := if resolved.Ok? then |resolved.value.1| else 0;
    }
  }

  // ---------------------------------------------------------------- states and events

  datatype Request = Fresh | Inserted(job: JobID) | Answered

  datatype Duty = Free | On(job: JobID, at: nat)

  datatype State = State(
    list: seq<JobID>, pushed: seq<JobID>, popped: seq<JobID>, requests: map<RequestID, Request>,
    duties: map<WorkerID, Duty>, log: seq<(JobID, RowOp)>)
  {
    function RequestOf(q: RequestID): Request {
      if q in requests then requests[q] else Fresh
    }

    function DutyOf(w: WorkerID): Duty {
      if w in duties then duties[w] else Free
    }
  }

  datatype Event =
    | Insert(q: RequestID, job: JobID)
    | Push(q: RequestID)
    | GiveUp(q: RequestID)
    | Pop(w: WorkerID, decoded: bool)
    | Step(w: WorkerID)
    | Crash(w: WorkerID)

  /** One event; an event that is not enabled changes nothing. */
  function Apply(s: State, e: Event, runs: Runs): State {
    match e
    case Insert(q, j) =>
      // The primary key refuses a second row.
      if !s.RequestOf(q).Fresh? then s
      else if RowOf(s.log, j).Present? then s.(requests := s.requests[q := Answered])
      else s.(requests := s.requests[q := Inserted(j)], log := s.log + [(j, RowOp.Insert(runs(j).total))])
    case Push(q) =>
      if !s.RequestOf(q).Inserted? then s
      else
        var j := s.RequestOf(q).job;
        s.(requests := s.requests[q := Answered], list := [j] + s.list, pushed := s.pushed + [j])
    case GiveUp(q) => s.(requests := s.requests[q := Answered])
    case Pop(w, decoded) =>
      if !s.DutyOf(w).Free? || s.list == [] then s
      else
        var n := |s.list| - 1;
        var j := s.list[n];
        s.(list := s.list[..n], popped := s.popped + [j],
           duties := s.duties[w := if decoded then On(j, 0) else Free])
    case Step(w) =>
      if s.DutyOf(w).Free? then s
      else
        var j, at := s.DutyOf(w).job, s.DutyOf(w).at;
        if at < |runs(j).Script()| then
          s.(duties := s.duties[w := On(j, at + 1)], log := s.log + [(j, runs(j).Script()[at])])
        else s.(duties := s.duties[w := Free])
    case Crash(w) => s.(duties := s.duties[w := Free])
  }

  const INIT: State := State([], [], [], map[], map[], [])

  /** The state after the first `n` events. */
  function At(es: seq<Event>, n: nat, runs: Runs): State
    requires n <= |es|
  {
    if n == 0 then INIT else Apply(At(es, n - 1, runs), es[n - 1], runs)
  }

  // ---------------------------------------------------------------- the invariant

  /** Job `j` has issued its insert and the first `n` statements of its script. */
  ghost predicate Issued(log: seq<(JobID, RowOp)>, j: JobID, runs: Runs, n: nat) {
    n <= |runs(j).Script()| && Of(log, j) == [RowOp.Insert(runs(j).total)] + runs(j).Script()[..n]
  }

  /** Nothing, or the insert and a prefix of the script. */
  ghost predicate Orderly(log: seq<(JobID, RowOp)>, j: JobID, runs: Runs) {
    Of(log, j) == [] || exists n :: Issued(log, j, runs, n)
  }

  ghost predicate NoDuplicates(s: seq<JobID>) {
    forall i, k :: 0 <= i < k < |s| ==> s[i] != s[k]
  }

  /** First in, first out, and no job is pushed twice. */
  ghost predicate QueueInv(pushed: seq<JobID>, popped: seq<JobID>, list: seq<JobID>) {
    Fifo(pushed, popped, list) && NoDuplicates(pushed)
  }

  /** Every job has issued a prefix of its script, and nothing but the insert before it was popped. */
  ghost predicate LogsInv(log: seq<(JobID, RowOp)>, pushed: seq<JobID>, popped: seq<JobID>, runs: Runs) {
    && (forall j :: Orderly(log, j, runs))
    && (forall j :: j !in popped && Of(log, j) != [] ==> Issued(log, j, runs, 0))
    && (forall j :: j in pushed ==> Of(log, j) != [])
  }

  /** A request that has inserted a row is the only one to push that job, and has not yet done so. */
  ghost predicate RequestsInv(requests: map<RequestID, Request>, pushed: seq<JobID>, log: seq<(JobID, RowOp)>) {
    && (forall q :: q in requests && requests[q].Inserted? ==> requests[q].job !in pushed && Of(log, requests[q].job) != [])
    && forall q, p :: q in requests && p in requests && q != p && requests[q].Inserted? && requests[p].Inserted? ==>
         requests[q].job != requests[p].job
  }

  /** A worker is on a popped job, exactly as far as its statements, and no other worker is on it. */
  ghost predicate DutiesInv(duties: map<WorkerID, Duty>, popped: seq<JobID>, log: seq<(JobID, RowOp)>, runs: Runs) {
    && (forall w :: w in duties && duties[w].On? ==> duties[w].job in popped && Issued(log, duties[w].job, runs, duties[w].at))
    && forall w, v :: w in duties && v in duties && w != v && duties[w].On? && duties[v].On? ==> duties[w].job != duties[v].job
  }

  ghost predicate Inv(s: State, runs: Runs) {
    && QueueInv(s.pushed, s.popped, s.list)
    && LogsInv(s.log, s.pushed, s.popped, runs)
    && RequestsInv(s.requests, s.pushed, s.log)
    && DutiesInv(s.duties, s.popped, s.log, runs)
  }

  // ---------------------------------------------------------------- one event

  /** A statement of job `k` leaves the statements of the others alone. */
  lemma LogGrows(log: seq<(JobID, RowOp)>, k: JobID, op: RowOp, runs: Runs)
    ensures var more := log + [(k, op)];
      && Of(more, k) == Of(log, k) + [op]
      && (forall j :: j != k ==> Of(more, j) == Of(log, j))
      && (forall j, n :: j != k ==> (Issued(more, j, runs, n) <==> Issued(log, j, runs, n)))
      && (forall j :: j != k ==> (Orderly(more, j, runs) <==> Orderly(log, j, runs)))
  {
    var more := log + [(k, op)];
    OfStep(log, k, op, k);
    forall j | j != k ensures Of(more, j) == Of(log, j) {
      OfStep(log, k, op, j);
    }
    hide Of;
    assert forall j, n :: j != k ==> (Issued(more, j, runs, n) <==> Issued(log, j, runs, n));
  }

  lemma PoppedWasPushed(pushed: seq<JobID>, popped: seq<JobID>, list: seq<JobID>, j: JobID)
    requires QueueInv(pushed, popped, list) && j in popped
    ensures j in pushed
  {
    var k :| 0 <= k < |popped| && popped[k] == j;
    DeliveredInOrder(pushed, popped, list, k);
  }

  /** The job that is popped next was pushed and not popped before. */
  lemma NextIsNew(pushed: seq<JobID>, popped: seq<JobID>, list: seq<JobID>)
    requires QueueInv(pushed, popped, list) && list != []
    ensures list[|list| - 1] in pushed && list[|list| - 1] !in popped
    ensures QueueInv(pushed, popped + [list[|list| - 1]], list[..|list| - 1])
  {
    PopKeepsFifo(pushed, popped, list);
    var j := list[|list| - 1];
    forall k | 0 <= k < |popped| ensures popped[k] != j {
      DeliveredInOrder(pushed, popped, list, k);
    }
  }

  /** A row is there exactly when something was issued for the job. */
  lemma RowMeansIssued(log: seq<(JobID, RowOp)>, j: JobID, runs: Runs)
    requires Orderly(log, j, runs)
    ensures RowOf(log, j).Present? <==> Of(log, j) != []
  {
    if Of(log, j) != [] {
      var n: nat :| Issued(log, j, runs, n);
      var ops := [RowOp.Insert(runs(j).total)];
      assert ops[..0] == [] && AfterAll(Missing, ops) == After(AfterAll(Missing, []), ops[0]);
      AfterAllConcat(Missing, ops, runs(j).Script()[..n]);
      PresentStays(AfterAll(Missing, ops), runs(j).Script()[..n]);
    }
  }

  lemma InsertIssues(log: seq<(JobID, RowOp)>, j: JobID, runs: Runs)
    requires Of(log, j) == []
    ensures Issued(log + [(j, RowOp.Insert(runs(j).total))], j, runs, 0)
  {
    OfStep(log, j, RowOp.Insert(runs(j).total), j);
  }

  lemma InsertKeepsInv(s: State, q: RequestID, j: JobID, runs: Runs)
    requires Inv(s, runs)
    ensures Inv(Apply(s, Event.Insert(q, j), runs), runs)
  {
    hide RowOf, Of, Issued, QueueInv;
    RowMeansIssued(s.log, j, runs);
    if s.RequestOf(q).Fresh? && Of(s.log, j) == [] {
      var log := s.log + [(j, RowOp.Insert(runs(j).total))];
      InsertIssues(s.log, j, runs);
      LogGrows(s.log, j, RowOp.Insert(runs(j).total), runs);
      NobodyIsOn(s, j, runs);
      hide Orderly;
      assert LogsInv(log, s.pushed, s.popped, runs);
      assert DutiesInv(s.duties, s.popped, log, runs);
      assert RequestsInv(s.requests[q := Inserted(j)], s.pushed, log);
    }
  }

  /** A job without a statement was not pushed, so it is neither held by a request nor worked on. */
  lemma NobodyIsOn(s: State, j: JobID, runs: Runs)
    requires Inv(s, runs) && Of(s.log, j) == []
    ensures j !in s.pushed && j !in s.popped
    ensures forall w :: w in s.duties && s.duties[w].On? ==> s.duties[w].job != j
    ensures forall q :: q in s.requests && s.requests[q].Inserted? ==> s.requests[q].job != j
  {
    hide Of, Issued, QueueInv, Orderly;
    if j in s.popped {
      PoppedWasPushed(s.pushed, s.popped, s.list, j);
    }
  }

  lemma PushKeepsInv(s: State, q: RequestID, runs: Runs)
    requires Inv(s, runs)
    ensures Inv(Apply(s, Push(q), runs), runs)
  {
    hide Fifo, Issued, Orderly, Of;
    if s.RequestOf(q).Inserted? {
      PushKeepsFifo(s.pushed, s.popped, s.list, s.RequestOf(q).job);
    }
  }

  lemma PopKeepsInv(s: State, w: WorkerID, decoded: bool, runs: Runs)
    requires Inv(s, runs)
    ensures Inv(Apply(s, Pop(w, decoded), runs), runs)
  {
    hide QueueInv, Issued, Orderly, Of;
    if s.DutyOf(w).Free? && s.list != [] {
      NextIsNew(s.pushed, s.popped, s.list);
    }
  }

  lemma StepIssues(log: seq<(JobID, RowOp)>, j: JobID, runs: Runs, at: nat)
    requires Issued(log, j, runs, at) && at < |runs(j).Script()|
    ensures Issued(log + [(j, runs(j).Script()[at])], j, runs, at + 1)
  {
    var script := runs(j).Script();
    OfStep(log, j, script[at], j);
    assert script[..at + 1] == script[..at] + [script[at]];
  }

  lemma StepKeepsInv(s: State, w: WorkerID, runs: Runs)
    requires Inv(s, runs)
    ensures Inv(Apply(s, Step(w), runs), runs)
  {
    hide QueueInv, Of, Issued, RowOf;
    if s.DutyOf(w).On? {
      var j, at := s.DutyOf(w).job, s.DutyOf(w).at;
      if at < |runs(j).Script()| {
        StepIssues(s.log, j, runs, at);
        LogGrows(s.log, j, runs(j).Script()[at], runs);
      }
    }
  }

  lemma LeaveKeepsInv(s: State, w: WorkerID, q: RequestID, runs: Runs)
    requires Inv(s, runs)
    ensures Inv(Apply(s, Crash(w), runs), runs) && Inv(Apply(s, GiveUp(q), runs), runs)
  {
    hide QueueInv, LogsInv, Issued, Orderly, Of;
  }

  /** Every event keeps the invariant; so it holds in every reachable state. */
  lemma {:induction false} AlwaysInv(es: seq<Event>, n: nat, runs: Runs)
    requires n <= |es|
    ensures Inv(At(es, n, runs), runs)
  {
    if n == 0 {
      InitInv(runs);
    } else {
      AlwaysInv(es, n - 1, runs);
      var s := At(es, n - 1, runs);
      hide Inv, Apply;
      match es[n - 1] {
        case Insert(q, j) => InsertKeepsInv(s, q, j, runs);
        case Push(q) => PushKeepsInv(s, q, runs);
        case GiveUp(q) => LeaveKeepsInv(s, 0, q, runs);
        case Pop(w, decoded) => PopKeepsInv(s, w, decoded, runs);
        case Step(w) => StepKeepsInv(s, w, runs);
        case Crash(w) => LeaveKeepsInv(s, w, 0, runs);
      }
    }
  }

  lemma InitInv(runs: Runs)
    ensures Inv(INIT, runs)
  {
    assert [] + Reversed<JobID>([]) == [];
  }

  // ---------------------------------------------------------------- what follows, in every reachable state

  /** No two workers are on one job, none is on a queued job, and no job is queued or delivered twice. */
  lemma OneWorkerEach(es: seq<Event>, n: nat, runs: Runs)
    requires n <= |es|
    ensures var s := At(es, n, runs);
      && (forall w, v :: w != v && s.DutyOf(w).On? && s.DutyOf(v).On? ==> s.DutyOf(w).job != s.DutyOf(v).job)
      && (forall w :: s.DutyOf(w).On? ==> s.DutyOf(w).job !in s.list)
      && NoDuplicates(s.list) && NoDuplicates(s.popped) && s.popped <= s.pushed
  {
    AlwaysInv(es, n, runs);
    var s := At(es, n, runs);
    hide At, Of, Issued, Orderly, LogsInv, RequestsInv;
    QueueSplits(s.pushed, s.popped, s.list);
  }

  lemma {:induction false} ReversedAt(s: seq<JobID>, k: nat)
    requires k < |s|
    ensures Reversed(s)[|s| - 1 - k] == s[k]
  {
    if k < |s| - 1 {
      ReversedAt(s[..|s| - 1], k);
    }
  }

  lemma QueueSplits(pushed: seq<JobID>, popped: seq<JobID>, list: seq<JobID>)
    requires QueueInv(pushed, popped, list)
    ensures NoDuplicates(list) && NoDuplicates(popped) && popped <= pushed
    ensures forall j :: j in popped ==> j !in list
  {
    var r := Reversed(list);
    forall k | 0 <= k < |list| ensures list[k] == pushed[|popped| + |list| - 1 - k] {
      ReversedAt(list, k);
    }
    hide Reversed;
    forall i | 0 <= i < |popped| ensures popped[i] == pushed[i] {
    }
  }

  /** In every reachable state, the statements of a job are its insert and a prefix of the script of one run. */
  lemma AlwaysOrderly(es: seq<Event>, n: nat, runs: Runs, j: JobID)
    requires n <= |es|
    ensures Orderly(At(es, n, runs).log, j, runs)
  {
    AlwaysInv(es, n, runs);
    hide At, Orderly;
  }

  lemma IssuedIsLawful(log: seq<(JobID, RowOp)>, j: JobID, runs: Runs, n: nat)
    requires runs(j).Possible() && Issued(log, j, runs, n)
    ensures RowOf(log, j).Present? && Lawful(RowOf(log, j).row, runs(j).w, runs(j).fates, |runs(j).keys|)
    ensures RowOf(log, j).row.status.Queued? <==> n == 0
  {
    var r := runs(j);
    hide Of, CountsAll, Enqueued, JobRun, WorkerKeys, PlanOf, LinesRead, ChunksWritten;
    if r.started {
      LogMoment(log, j, r.total, r.w, r.fates, r.keys, r.err, r.Script(), r.pre, r.outs, r.fin, n);
    } else {
      FirstSlot(r.total, []);
      assert [RowOp.Insert(r.total)] + [] == [RowOp.Insert(r.total)];
    }
  }

  /** The laws of the rows hold in every reachable state, whatever requests, workers and crashes came before. */
  lemma RowsAlwaysLawful(es: seq<Event>, n: nat, runs: Runs, j: JobID)
    requires n <= |es| && runs(j).Possible()
    ensures var slot := RowOf(At(es, n, runs).log, j); slot.Present? ==> Lawful(slot.row, runs(j).w, runs(j).fates, |runs(j).keys|)
  {
    AlwaysOrderly(es, n, runs, j);
    var log := At(es, n, runs).log;
    hide At, Issued, Lawful, Run.Possible;
    RowMeansIssued(log, j, runs);
    if Of(log, j) != [] {
      var k: nat :| Issued(log, j, runs, k);
      IssuedIsLawful(log, j, runs, k);
    }
  }

  /** In the table: when it holds what a run of the system has written, its rows obey the laws. */
  lemma AnyMoment(t: JobTable, es: seq<Event>, n: nat, runs: Runs, j: JobID)
    requires t.Valid() && n <= |es| && t.log == At(es, n, runs).log && runs(j).Possible()
    ensures t.Get(j).Present? ==> Lawful(t.Get(j).row, runs(j).w, runs(j).fates, |runs(j).keys|)
  {
    hide At, RowOf, Lawful, Run.Possible;
    RowsAlwaysLawful(es, n, runs, j);
  }

  lemma {:induction false} LogOnlyGrows(es: seq<Event>, m: nat, n: nat, runs: Runs, j: JobID)
    requires m <= n <= |es|
    ensures Of(At(es, m, runs).log, j) <= Of(At(es, n, runs).log, j)
    decreases n
  {
    hide Of, Apply;
    if m < n {
      LogOnlyGrows(es, m, n - 1, runs, j);
      OneEventGrows(At(es, n - 1, runs), es[n - 1], runs, j);
      PrefixOfPrefix(Of(At(es, m, runs).log, j), Of(At(es, n - 1, runs).log, j), Of(At(es, n, runs).log, j));
    }
  }

  lemma PrefixOfPrefix<T>(a: seq<T>, b: seq<T>, c: seq<T>)
    requires a <= b <= c
    ensures a <= c
  {
  }

  lemma OneEventGrows(s: State, e: Event, runs: Runs, j: JobID)
    ensures Of(s.log, j) <= Of(Apply(s, e, runs).log, j)
  {
    hide RowOf;
    if |Apply(s, e, runs).log| > |s.log| {
      var x := Apply(s, e, runs).log[|s.log|];
      OfStep(s.log, x.0, x.1, j);
    }
  }

  /** Over a whole run a status only moves queued, running, terminal, and a terminal status stays. */
  lemma StatusNeverGoesBack(es: seq<Event>, m: nat, n: nat, runs: Runs, j: JobID)
    requires m <= n <= |es| && runs(j).Possible() && RowOf(At(es, m, runs).log, j).Present?
    ensures RowOf(At(es, n, runs).log, j).Present?
    ensures var a, b := RowOf(At(es, m, runs).log, j).row.status, RowOf(At(es, n, runs).log, j).row.status;
      Rank(a) <= Rank(b) && (Rank(a) == Rank(b) ==> a == b)
  {
    AlwaysOrderly(es, m, runs, j);
    AlwaysOrderly(es, n, runs, j);
    LogOnlyGrows(es, m, n, runs, j);
    var before, now := At(es, m, runs).log, At(es, n, runs).log;
    hide At;
    RowMeansIssued(before, j, runs);
    RowMeansIssued(now, j, runs);
    var k: nat :| Issued(before, j, runs, k);
    var l: nat :| Issued(now, j, runs, l);
    assert k <= l by {
      assert |Of(before, j)| == k + 1 && |Of(now, j)| == l + 1;
    }
    hide Of;
    var r := runs(j);
    if r.started {
      hide JobRun;
      StatusMovesForward(r.total, r.Script(), IsDeferred(r.w), r.Planned(), r.err, r.pre, r.outs, r.fin, k, l);
    } else {
      assert k == l;
    }
  }
}
