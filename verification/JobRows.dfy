/**
 The `ingest_job` table: one row per job, each repository method one atomic update.  A call that fails
 changes nothing.  Updates of different jobs commute, so a row depends only on the updates of its own job.
 */
module JobRows {

  type JobID = string

  datatype Status = Queued | Running | Succeeded | Failed

  datatype Row = Row(
    status: Status, totalFiles: nat, successFiles: nat, failFiles: nat,
    successDocs: nat, failDocs: nat, totalDocs: nat, totalChunks: nat)

  /** One statement on one row; the outcome of a file is a success with its counts, a failure, or any other counts. */
  datatype RowOp =
    | Insert(total: nat)
    | MarkRunning
    | SetTotal(n: nat)
    | Success(lines: nat, chunks: nat)
    | Failure
    | Counted(fileOK: bool, moreSuccessDocs: int, moreFailDocs: int, moreChunks: int)
    | Terminal(ok: bool)

  datatype Slot = Missing | Present(row: Row)

  /** The columns are unsigned: an update that would make one negative is refused. */
  predicate CanCount(r: Row, successDocs: int, failDocs: int, chunks: int) {
    r.successDocs + successDocs >= 0 && r.failDocs + failDocs >= 0 && r.totalChunks + chunks >= 0
  }

  /** AddFileOutcome; a negative number of documents counts as none in the total. */
  function AddFileOutcome(r: Row, fileOK: bool, successDocs: int, failDocs: int, chunks: int): Row
    requires CanCount(r, successDocs, failDocs, chunks)
  {
    r.(successFiles := r.successFiles + (if fileOK then 1 else 0),
       failFiles := r.failFiles + (if fileOK then 0 else 1),
       successDocs := r.successDocs + successDocs,
       failDocs := r.failDocs + failDocs,
       totalDocs := r.totalDocs + (if successDocs + failDocs < 0 then 0 else successDocs + failDocs),
       totalChunks := r.totalChunks + chunks)
  }

  /** The outcome of a file as a statement. */
  function OutcomeOp(fileOK: bool, successDocs: int, failDocs: int, chunks: int): RowOp {
    if fileOK && successDocs >= 0 && failDocs == 0 && chunks >= 0 then Success(successDocs, chunks)
    else if !fileOK && successDocs == 0 && failDocs == 1 && chunks == 0 then Failure
    else Counted(fileOK, successDocs, failDocs, chunks)
  }

  function Updated(r: Row, op: RowOp): Row {
    match op
    case Insert(_) => r
    case MarkRunning => r.(status := Running)
    case SetTotal(n) => r.(totalFiles := n)
    case Success(lines, chunks) => AddFileOutcome(r, true, lines, 0, chunks)
    case Failure => AddFileOutcome(r, false, 0, 1, 0)
    case Counted(fileOK, s, f, c) => if CanCount(r, s, f, c) then AddFileOutcome(r, fileOK, s, f, c) else r
    case Terminal(ok) => r.(status := if ok then Succeeded else Failed)
  }

  lemma NotAnInsert(fileOK: bool, successDocs: int, failDocs: int, chunks: int)
    ensures !OutcomeOp(fileOK, successDocs, failDocs, chunks).Insert?
  {
  }

  lemma OutcomeCounts(r: Row, fileOK: bool, successDocs: int, failDocs: int, chunks: int)
    requires CanCount(r, successDocs, failDocs, chunks)
    ensures Updated(r, OutcomeOp(fileOK, successDocs, failDocs, chunks)) == AddFileOutcome(r, fileOK, successDocs, failDocs, chunks)
  {
  }

  /** The row after an outcome, column by column. */
  lemma CountedRow(r: Row, fileOK: bool, successDocs: int, failDocs: int, chunks: int)
    requires CanCount(r, successDocs, failDocs, chunks)
    ensures var docs := successDocs + failDocs;
      AddFileOutcome(r, fileOK, successDocs, failDocs, chunks) == r.(
        successFiles := if fileOK then r.successFiles + 1 else r.successFiles,
        failFiles := if fileOK then r.failFiles else r.failFiles + 1,
        successDocs := r.successDocs + successDocs, failDocs := r.failDocs + failDocs,
        totalDocs := if docs > 0 then r.totalDocs + docs else r.totalDocs, totalChunks := r.totalChunks + chunks)
  {
  }

  /** The effect of a statement; an update of a missing row changes nothing, nor does a second insert. */
  function After(s: Slot, op: RowOp): Slot {
    if s.Present? then Present(Updated(s.row, op))
    else if op.Insert? then Present(Row(Queued, op.total, 0, 0, 0, 0, 0, 0))
    else s
  }

  function AfterAll(s: Slot, ops: seq<RowOp>): Slot {
    if ops == [] then s else After(AfterAll(s, ops[..|ops| - 1]), ops[|ops| - 1])
  }

  lemma {:induction false} AfterAllConcat(s: Slot, a: seq<RowOp>, b: seq<RowOp>)
    ensures AfterAll(s, a + b) == AfterAll(AfterAll(s, a), b)
  {
    if b == [] {
      assert a + b == a;
    } else {
      var n := |b| - 1;
      AfterAllConcat(s, a, b[..n]);
      assert (a + b)[..|a + b| - 1] == a + b[..n];
    }
  }

  /** The statements of job `j` in a log of statements of all jobs. */
  function Of(log: seq<(JobID, RowOp)>, j: JobID): seq<RowOp> {
    if log == [] then []
    else Of(log[..|log| - 1], j) + if log[|log| - 1].0 == j then [log[|log| - 1].1] else []
  }

  lemma {:induction false} OfConcat(a: seq<(JobID, RowOp)>, b: seq<(JobID, RowOp)>, j: JobID)
    ensures Of(a + b, j) == Of(a, j) + Of(b, j)
  {
    if b == [] {
      assert a + b == a;
    } else {
      var n := |b| - 1;
      OfConcat(a, b[..n], j);
      assert (a + b)[..|a + b| - 1] == a + b[..n];
    }
  }

  /** The row that a log makes of job `j`. */
  function RowOf(log: seq<(JobID, RowOp)>, j: JobID): Slot {
    AfterAll(Missing, Of(log, j))
  }

  lemma OfStep(log: seq<(JobID, RowOp)>, k: JobID, op: RowOp, j: JobID)
    ensures Of(log + [(k, op)], j) == if j == k then Of(log, j) + [op] else Of(log, j)
  {
    assert (log + [(k, op)])[..|log|] == log;
  }

  lemma RowOfStep(log: seq<(JobID, RowOp)>, k: JobID, op: RowOp, j: JobID)
    ensures RowOf(log + [(k, op)], j) == if j == k then After(RowOf(log, j), op) else RowOf(log, j)
  {
    OfStep(log, k, op, j);
    assert (Of(log, j) + [op])[..|Of(log, j)|] == Of(log, j);
  }

  /** Statements of different jobs commute: exchanging two neighbours changes no row. */
  lemma DifferentJobsCommute(a: seq<(JobID, RowOp)>, x: (JobID, RowOp), y: (JobID, RowOp), b: seq<(JobID, RowOp)>, j: JobID)
    requires x.0 != y.0
    ensures RowOf(a + [x] + [y] + b, j) == RowOf(a + [y] + [x] + b, j)
  {
    OfConcat(a + [x] + [y], b, j);
    OfConcat(a + [y] + [x], b, j);
    OfStep(a, x.0, x.1, j);
    OfStep(a, y.0, y.1, j);
    OfStep(a + [x], y.0, y.1, j);
    OfStep(a + [y], x.0, x.1, j);
  }

  /** The table, with the log of the statements that took effect. */
  class JobTable {
    var rows: map<JobID, Row>
    ghost var log: seq<(JobID, RowOp)>

    function Get(j: JobID): Slot
      reads this
    {
      if j in rows then Present(rows[j]) else Missing
    }

    /** Every row is what the statements of its own job made of it, however they interleaved with others. */
    ghost predicate Valid()
      reads this
    {
      forall j :: Get(j) == RowOf(log, j)
    }

    constructor ()
      ensures Valid() && log == [] && rows == map[]
    {
      rows, log := map[], [];
    }

    /** Records a statement of job `j` that took effect. */
    ghost method Record(j: JobID, op: RowOp, before: map<JobID, Row>)
      requires forall k :: (if k in before then Present(before[k]) else Missing) == RowOf(log, k)
      requires forall k :: k != j ==> ((k in rows <==> k in before) && (k in rows ==> rows[k] == before[k]))
      requires Get(j) == After(if j in before then Present(before[j]) else Missing, op)
      modifies `log
      ensures Valid() && log == old(log) + [(j, op)]
    {
      hide After, RowOf;
      forall k ensures Get(k) == RowOf(log + [(j, op)], k) {
        RowOfStep(log, j, op, k);
      }
      log := log + [(j, op)];
    }

    method InsertQueued(jobID: JobID, totalFiles: nat, reached: bool) returns (ok: bool)
      requires Valid()
      modifies this
      ensures Valid() && ok == (reached && old(Get(jobID)).Missing?)
      ensures log == old(log) + if ok then [(jobID, Insert(totalFiles))] else []
      ensures ok ==> Get(jobID) == Present(Row(Queued, totalFiles, 0, 0, 0, 0, 0, 0))
    {
      if !reached || jobID in rows {
        return false;
      }
      hide RowOf;
      ghost var before := rows;
      rows := rows[jobID := Row(Queued, totalFiles, 0, 0, 0, 0, 0, 0)];
      Record(jobID, Insert(totalFiles), before);
      ok := true;
    }

    method MarkRunning(jobID: JobID, reached: bool) returns (ok: bool)
      requires Valid()
      modifies this
      ensures Valid() && ok == (reached && old(Get(jobID)).Present?)
      ensures log == old(log) + if ok then [(jobID, RowOp.MarkRunning)] else []
      ensures ok ==> Get(jobID) == Present(old(Get(jobID)).row.(status := Running))
    {
      if !reached || jobID !in rows {
        return false;
      }
      hide RowOf;
      ghost var before := rows;
      rows := rows[jobID := rows[jobID].(status := Running)];
      Record(jobID, RowOp.MarkRunning, before);
      ok := true;
    }

    method SetTotalFiles(jobID: JobID, n: nat, reached: bool) returns (ok: bool)
      requires Valid()
      modifies this
      ensures Valid() && ok == reached
      ensures log == old(log) + if ok then [(jobID, SetTotal(n))] else []
      ensures ok ==> Get(jobID) == if old(Get(jobID)).Missing? then Missing else Present(old(Get(jobID)).row.(totalFiles := n))
    {
      if !reached {
        return false;
      }
      hide RowOf;
      ghost var before := rows;
      if jobID in rows {
        rows := rows[jobID := rows[jobID].(totalFiles := n)];
      }
      Record(jobID, SetTotal(n), before);
      ok := true;
    }

    /** The counters move by one file, in one statement; a missing row is no error. */
    method AddOutcome(jobID: JobID, fileOK: bool, successDocs: int, failDocs: int, chunks: int, reached: bool)
      returns (ok: bool)
      requires Valid()
      modifies this
      ensures Valid()
      ensures ok <==> reached && (old(Get(jobID)).Present? ==> CanCount(old(Get(jobID)).row, successDocs, failDocs, chunks))
      ensures log == old(log) + if ok then [(jobID, OutcomeOp(fileOK, successDocs, failDocs, chunks))] else []
      ensures ok && old(Get(jobID)).Missing? ==> Get(jobID) == Missing
      ensures ok && old(Get(jobID)).Present? ==>
        var r, docs := old(Get(jobID)).row, successDocs + failDocs;
        Get(jobID) == Present(r.(
          successFiles := if fileOK then r.successFiles + 1 else r.successFiles,
          failFiles := if fileOK then r.failFiles else r.failFiles + 1,
          successDocs := r.successDocs + successDocs, failDocs := r.failDocs + failDocs,
          totalDocs := if docs > 0 then r.totalDocs + docs else r.totalDocs, totalChunks := r.totalChunks + chunks))
    {
      if !reached {
        return false;
      }
      if jobID in rows && !CanCount(rows[jobID], successDocs, failDocs, chunks) {
        return false;
      }
      hide RowOf, Updated, OutcomeOp, AddFileOutcome;
      ghost var before := rows;
      if jobID in rows {
        var r := rows[jobID];
        CountedRow(r, fileOK, successDocs, failDocs, chunks);
        var sf, ff := 0, 0;
        if fileOK {
          sf := 1;
        } else {
          ff := 1;
        }
        var docDelta := successDocs + failDocs;
        if docDelta < 0 {
          docDelta := 0;
        }
        OutcomeCounts(r, fileOK, successDocs, failDocs, chunks);
        rows := rows[jobID := r.(successFiles := r.successFiles + sf, failFiles := r.failFiles + ff,
                                 successDocs := r.successDocs + successDocs, failDocs := r.failDocs + failDocs,
                                 totalDocs := r.totalDocs + docDelta, totalChunks := r.totalChunks + chunks)];
      }
      assert !OutcomeOp(fileOK, successDocs, failDocs, chunks).Insert? by {
        NotAnInsert(fileOK, successDocs, failDocs, chunks);
      }
      Record(jobID, OutcomeOp(fileOK, successDocs, failDocs, chunks), before);
      ok := true;
    }

    method MarkTerminal(jobID: JobID, succeeded: bool, reached: bool) returns (ok: bool)
      requires Valid()
      modifies this
      ensures Valid() && ok == (reached && old(Get(jobID)).Present?)
      ensures log == old(log) + if ok then [(jobID, Terminal(succeeded))] else []
      ensures ok ==> Get(jobID) == Present(old(Get(jobID)).row.(status := if succeeded then Succeeded else Failed))
    {
      if !reached || jobID !in rows {
        return false;
      }
      hide RowOf;
      ghost var before := rows;
      rows := rows[jobID := rows[jobID].(status := if succeeded then Succeeded else Failed)];
      Record(jobID, Terminal(succeeded), before);
      ok := true;
    }
  }
}
