/** NDJSON files: the lines that can be read and split, their chunks, and what reading hands on before it stops. */
module InputFiles {
  import opened Text
  import opened ChunkIds
  import opened BatchRuns

  datatype Line = Blank | Malformed | Parsed(rec: TextChunkLine)

  /** The source type inferred for the file fills a missing one. */
  function Filled(rec: TextChunkLine, inferred: string): TextChunkLine {
    if TrimSpace(rec.sourceType) == "" then rec.(sourceType := inferred) else rec
  }

  /** The lines of a file, whether it could be read to its end, and how a record is split. */
  datatype Input = Input(lines: seq<Line>, complete: bool, inferred: string, split: TextChunkLine -> Result<seq<TextChunkLine>, Unsplit>)
  {
    predicate Readable(n: nat)
      requires n <= |lines|
    {
      n == 0 || (
        Readable(n - 1) && !lines[n - 1].Malformed?
        && (lines[n - 1].Parsed? ==> split(Filled(lines[n - 1].rec, inferred)).Ok?))
    }

    /** How many of the first `n` lines hold records. */
    function Lines(n: nat): nat
      requires n <= |lines|
    {
      if n == 0 then 0 else Lines(n - 1) + if lines[n - 1].Blank? then 0 else 1
    }

    /** The chunks of the first `n` lines. */
    function Chunks(n: nat): seq<TextChunkLine>
      requires n <= |lines| && Readable(n)
    {
      if n == 0 then []
      else if lines[n - 1].Blank? then Chunks(n - 1)
      else Chunks(n - 1) + split(Filled(lines[n - 1].rec, inferred)).value
    }

    lemma Step(n: nat)
      requires n < |lines| && Readable(n)
      ensures lines[n].Blank? ==> Readable(n + 1) && Lines(n + 1) == Lines(n) && Chunks(n + 1) == Chunks(n)
      ensures lines[n].Malformed? ==> !Readable(n + 1)
      ensures lines[n].Parsed? ==> Lines(n + 1) == Lines(n) + 1
      ensures lines[n].Parsed? ==>
        var rows := split(Filled(lines[n].rec, inferred));
        && (Readable(n + 1) <==> rows.Ok?)
        && (rows.Ok? ==> Chunks(n + 1) == Chunks(n) + rows.value)
    {
    }

    /** How many lines can be read and split, from line `n` on. */
    function Reach(n: nat): (r: nat)
      requires n <= |lines| && Readable(n)
      ensures n <= r <= |lines| && Readable(r) && (r < |lines| ==> !Readable(r + 1))
      decreases |lines| - n
    {
      if n == |lines| || !Readable(n + 1) then n else Reach(n + 1)
    }

    predicate AllRead() {
      Readable(|lines|) && complete
    }

    /** The chunks that are handed to the slices: all of them, or those that fill whole slices before reading stops. */
    function Submitted(clock: nat -> int, size: nat): seq<TextChunkLine>
      requires size > 0
    {
      var rows := Stamped(Chunks(Reach(0)), clock);
      if AllRead() then rows else FullSlices(rows, size)
    }

    lemma ReachIs(n: nat)
      requires n <= |lines| && Readable(n) && (n < |lines| ==> !Readable(n + 1))
      ensures Reach(0) == n
    {
      var r := Reach(0);
      if r < n {
        StaysUnreadable(r + 1, n);
      } else if n < r {
        StaysUnreadable(n + 1, r);
      }
    }

    lemma {:induction false} ChunksGrow(n: nat, m: nat)
      requires n <= m <= |lines| && Readable(n) && Readable(m)
      ensures Chunks(n) <= Chunks(m)
      decreases m
    {
      if n < m {
        StaysUnreadable(m - 1, m);
        ChunksGrow(n, m - 1);
      }
    }

    lemma {:induction false} StaysUnreadable(n: nat, m: nat)
      requires n <= m <= |lines| && Readable(m)
      ensures Readable(n)
      decreases m
    {
      if n < m {
        StaysUnreadable(n, m - 1);
      }
    }
  }

  lemma NothingRead(input: Input, clock: nat -> int)
    ensures input.Readable(0) && input.Lines(0) == 0 && Stamped(input.Chunks(0), clock) == []
  {
  }

  /** Only reads and splits. */
  method PreviewNDJSON(input: Input) returns (inputLines: nat, chunkRows: nat, ok: bool)
    ensures ok <==> input.Readable(|input.lines|) && input.complete
    ensures ok ==> inputLines == input.Lines(|input.lines|) && chunkRows == |input.Chunks(|input.lines|)|
  {
    inputLines, chunkRows, ok := 0, 0, false;
    for n := 0 to |input.lines|
      invariant input.Readable(n) && inputLines == input.Lines(n) && chunkRows == |input.Chunks(n)|
    {
      input.Step(n);
      match input.lines[n] {
        case Blank =>
          continue;
        case Malformed =>
          Unreadable(input, n);
          return;
        case Parsed(r) =>
          var rec := Filled(r, input.inferred);
          inputLines := inputLines + 1;
          var rows := input.split(rec);
          if rows.Err? {
            Unreadable(input, n);
            return;
          }
          chunkRows := chunkRows + |rows.value|;
      }
    }
    ok := input.complete;
  }

  lemma Unreadable(input: Input, n: nat)
    requires n < |input.lines| && !input.Readable(n + 1)
    ensures !input.Readable(|input.lines|)
  {
    if input.Readable(|input.lines|) {
      input.StaysUnreadable(n + 1, |input.lines|);
    }
  }

  /** The time of writing replaces the times of the record. */
  function Stamp(row: TextChunkLine, now: int): TextChunkLine {
    row.(createdMs := now, updatedMs := now, tsLegacy := 0)
  }

  function Stamped(rows: seq<TextChunkLine>, clock: nat -> int): (r: seq<TextChunkLine>)
    ensures |r| == |rows| && forall i :: 0 <= i < |r| ==> r[i] == Stamp(rows[i], clock(i))
  {
    seq(|rows|, i requires 0 <= i < |rows| => Stamp(rows[i], clock(i)))
  }

  lemma StampedStep(had: seq<TextChunkLine>, rows: seq<TextChunkLine>, i: nat, clock: nat -> int)
    requires i < |rows|
    ensures Stamped(had + rows[..i + 1], clock) == Stamped(had + rows[..i], clock) + [Stamp(rows[i], clock(|had| + i))]
  {
    hide Stamp;
    assert had + rows[..i + 1] == (had + rows[..i]) + [rows[i]];
  }

  lemma StampedPrefix(a: seq<TextChunkLine>, b: seq<TextChunkLine>, clock: nat -> int)
    requires a <= b
    ensures Stamped(a, clock) <= Stamped(b, clock)
  {
    hide Stamp;
  }

  // ---------------------------------------------------------------- what reading gives

  /** The first `n` lines can be read if and only if none is malformed and every record among them can be split. */
  lemma {:induction false} ReadableMeans(input: Input, n: nat)
    requires n <= |input.lines|
    ensures input.Readable(n) <==> forall k :: 0 <= k < n ==>
      && !input.lines[k].Malformed?
      && (input.lines[k].Parsed? ==> input.split(Filled(input.lines[k].rec, input.inferred)).Ok?)
  {
    hide Filled;
    if n > 0 {
      ReadableMeans(input, n - 1);
    }
  }

  /** The input lines counted are those that are not blank. */
  lemma {:induction false} LinesMean(input: Input, n: nat)
    requires n <= |input.lines|
    ensures input.Lines(n) == |set k | 0 <= k < n && !input.lines[k].Blank?|
  {
    var here := set k | 0 <= k < n && !input.lines[k].Blank?;
    if n == 0 {
      assert here == {};
    } else {
      LinesMean(input, n - 1);
      var before := set k | 0 <= k < n - 1 && !input.lines[k].Blank?;
      assert here == if input.lines[n - 1].Blank? then before else before + {n - 1};
    }
  }

  /** The chunks of a line stand behind those of the lines before it, and nothing else comes between. */
  lemma ChunksOfLine(input: Input, m: nat, n: nat)
    requires m < n <= |input.lines| && input.Readable(n)
    ensures input.Readable(m)
    ensures input.lines[m].Blank? ==> input.Chunks(m) <= input.Chunks(n)
    ensures input.lines[m].Parsed? ==>
      var rows := input.split(Filled(input.lines[m].rec, input.inferred));
      rows.Ok? && input.Chunks(m) + rows.value <= input.Chunks(n)
    ensures n == m + 1 ==> |input.Chunks(n)| == |input.Chunks(m)| + match input.lines[m]
      case Parsed(rec) => |input.split(Filled(rec, input.inferred)).value| case _ => 0
  {
    hide Filled;
    input.StaysUnreadable(m + 1, n);
    input.StaysUnreadable(m, n);
    input.ChunksGrow(m + 1, n);
    input.ChunksGrow(m, n);
  }

  /**
   Which chunks are run: of a file that was read to its end all of them; of any other the longest part that fills
   whole slices, of the chunks of the lines in front of the first that cannot be read or split.
   */
  lemma WhatIsSubmitted(input: Input, clock: nat -> int, size: nat) returns (n: nat)
    requires size > 0
    ensures n <= |input.lines| && input.Readable(n) && (n < |input.lines| ==> !input.Readable(n + 1))
    ensures var rows, run := Stamped(input.Chunks(n), clock), input.Submitted(clock, size);
      if input.complete && n == |input.lines| then run == rows
      else run <= rows && Whole(|run|, size) && |rows| - |run| < size
  {
    hide Stamped, Input.Chunks;
    n := input.Reach(0);
    if n < |input.lines| {
      Unreadable(input, n);
    }
    var rows := Stamped(input.Chunks(n), clock);
    assert [] + rows == rows;
    FullSlicesMean([], rows, size);
  }

  // ---------------------------------------------------------------- where reading stops

  /** Reading stopped behind line `n`, or at the end of an incomplete file: what is pending is dropped. */
  lemma StoppedAt(input: Input, clock: nat -> int, size: nat, n: nat, done: seq<TextChunkLine>, pending: seq<TextChunkLine>)
    requires size > 0 && n <= |input.lines| && input.Readable(n)
    requires if n < |input.lines| then !input.Readable(n + 1) else !input.complete
    requires done + pending == Stamped(input.Chunks(n), clock) && Whole(|done|, size) && |pending| < size
    ensures !input.AllRead() && input.Submitted(clock, size) == done
  {
    hide Stamped, Whole, Input.Chunks, Input.Readable;
    input.ReachIs(n);
    if n < |input.lines| {
      Unreadable(input, n);
    }
    FullSlicesMean(done, pending, size);
  }

  lemma ReadToEnd(input: Input, clock: nat -> int, size: nat)
    requires size > 0 && input.Readable(|input.lines|) && input.complete
    ensures input.AllRead() && input.Submitted(clock, size) == Stamped(input.Chunks(|input.lines|), clock)
  {
    hide Stamped, Input.Chunks, Input.Readable;
    input.ReachIs(|input.lines|);
  }

  /** A slice failed while the chunks of the first `n` lines were taken. */
  lemma FailedWithin(input: Input, clock: nat -> int, size: nat, n: nat, done: seq<TextChunkLine>)
    requires size > 0 && n <= |input.lines| && input.Readable(n)
    requires done <= Stamped(input.Chunks(n), clock) && Whole(|done|, size)
    ensures done <= input.Submitted(clock, size)
  {
    hide Stamped, Whole, Input.Chunks, FullSlices;
    var m := input.Reach(0);
    if m < n {
      input.StaysUnreadable(m + 1, n);
    }
    input.ChunksGrow(n, m);
    StampedPrefix(input.Chunks(n), input.Chunks(m), clock);
    var rows := Stamped(input.Chunks(m), clock);
    assert rows == done + rows[|done|..];
    FullSlicesMean(done, rows[|done|..], size);
  }
}
