/**
 From a text to the collection: the runner with the splitter it uses, so that every row that is held is a stretch of its
 text at the right offset, with the vector of just that stretch, under an id of its own.
 */
module WholePath {
  import opened Text
  import opened Utf8
  import opened ChunkIds
  import opened Embedding
  import opened MilvusWrites
  import opened BatchRuns
  import opened PlainTexts
  import opened InputFiles
  import opened Runner
  import Chunker
  import Records

  /** The chunks of a record's text. */
  function Parts(rec: TextChunkLine, how: Records.Splitting): seq<string> {
    Chunker.Chunks(rec.text, how.o, how.nd)
  }

  function Splitter(how: Records.Splitting): TextChunkLine -> Result<seq<TextChunkLine>, Unsplit> {
    (rec: TextChunkLine) => Records.SplitOf(rec, how)
  }

  // ---------------------------------------------------------------- trimmed ids stay different

  /** Skipping stops at the first visible code point, wherever the end is. */
  lemma {:induction false} SkipStops(u: string, lo: nat, n: nat)
    requires lo <= n < |u| && !IsSpace(u[n])
    ensures SkipSpaces(u, lo, |u|) == SkipSpaces(u, lo, n)
    decreases n - lo
  {
    hide IsSpace;
    if lo < n {
      SkipStops(u, lo + 1, n);
    }
  }

  lemma {:induction false} SkipSame(u: string, v: string, lo: nat, n: nat)
    requires lo <= n <= |u| && n <= |v| && forall k :: 0 <= k < n ==> u[k] == v[k]
    ensures SkipSpaces(u, lo, n) == SkipSpaces(v, lo, n)
    decreases n - lo
  {
    hide IsSpace;
    if lo < n {
      SkipSame(u, v, lo + 1, n);
    }
  }

  /** Trimming a string with a visible end, and something visible at `n`, only takes from what is before `n`. */
  lemma TrimTakesFront(u: string, n: nat)
    requires n < |u| && !IsSpace(u[n]) && !IsSpace(u[|u| - 1])
    ensures TrimSpace(u) == u[SkipSpaces(u, 0, n)..]
  {
    hide IsSpace, SkipSpaces;
    SkipStops(u, 0, n);
    assert DropSpaces(u, SkipSpaces(u, 0, |u|), |u|) == |u|;
  }

  /** Two strings that agree up to a place where both are visible, and end visibly, are trimmed alike only if they are equal. */
  lemma TrimTellsApart(u: string, v: string, n: nat)
    requires n < |u| && n < |v| && u[..n] == v[..n] && !IsSpace(u[n]) && !IsSpace(v[n])
    requires !IsSpace(u[|u| - 1]) && !IsSpace(v[|v| - 1])
    ensures TrimSpace(u) == TrimSpace(v) ==> u == v
  {
    hide IsSpace, SkipSpaces, TrimSpace;
    forall k | 0 <= k < n ensures u[k] == v[k] {
      assert u[..n][k] == v[..n][k];
    }
    TrimTakesFront(u, n);
    TrimTakesFront(v, n);
    SkipSame(u, v, 0, n);
    var k := SkipSpaces(u, 0, n);
    assert u == u[..k] + u[k..] && v == v[..k] + v[k..] && u[..k] == v[..k];
  }

  lemma NumberedEnd(p: string, i: nat)
    ensures var u := p + "#" + Itoa(i);
      |p| < |u| && u[..|p|] == p && u[|p|] == '#' && u[|p| + 1..] == Itoa(i) && !IsSpace('#') && !IsSpace(u[|u| - 1])
  {
    var u, d := p + "#" + Itoa(i), Digits(i);
    assert '0' <= d[|d| - 1] <= '9';
    assert u[|u| - 1] == d[|d| - 1];
  }

  lemma SuffixesDiffer(p: string, i: nat, j: nat)
    requires i != j
    ensures TrimSpace(p + "#" + Itoa(i)) != TrimSpace(p + "#" + Itoa(j))
  {
    hide TrimSpace, IsSpace, Itoa;
    NumberedEnd(p, i);
    NumberedEnd(p, j);
    TrimTellsApart(p + "#" + Itoa(i), p + "#" + Itoa(j), |p|);
    if Itoa(i) == Itoa(j) {
      ItoaInjective(i, j);
    }
  }

  /** The ids of the chunks of one record stay different when they are trimmed. */
  lemma TrimmedIdsDiffer(rec: TextChunkLine, n: nat, i: nat, j: nat)
    requires i < j < n
    ensures TrimID(Records.IdOf(rec, n, i)) != TrimID(Records.IdOf(rec, n, j))
  {
    hide TrimSpace, Itoa, Preimage;
    if rec.docID != "" {
      StableIdsDiffer(rec.docID, rec.pageNo, rec.chunkNo + i, rec.docID, rec.pageNo, rec.chunkNo + j);
    } else {
      SuffixesDiffer(match rec.chunkID case Plain(s) => s case Sha256Hex(p) => "sha256:" + p, i, j);
    }
  }

  // ---------------------------------------------------------------- one record

  /**
   `row` is what ought to be held for chunk `i` of `rec`, which stands at byte `off` of its text: the vector and the
   offset of the chunk, its id, and every other field from the record, trimmed, or from the run if the record has none.
   */
  ghost predicate IsChunk(row: ChunkEntity, s: Setting, rec: TextChunkLine, how: Records.Splitting, i: nat, off: int) {
    && i < |Parts(rec, how)|
    && OccursAt(Encode(rec.text), Encode(Parts(rec, how)[i]), off)
    && row.embedding == s.vec(Parts(rec, how)[i])
    && row.offset == rec.offset + off
    && row.docID == TrimSpace(rec.docID)
    && row.chunkID == TrimID(Records.IdOf(rec, |Parts(rec, how)|, i))
    && FromRecord(row, s, rec)
  }

  /** The fields of a row that are those of the record. */
  ghost predicate FromRecord(row: ChunkEntity, s: Setting, rec: TextChunkLine) {
    && row.title == TrimSpace(rec.title) && row.url == TrimSpace(rec.url)
    && row.pageNo == (if rec.pageNo < 0 then 0 else rec.pageNo)
    && row.sourceType == TrimSpace(rec.sourceType) && row.lang == TrimSpace(rec.lang)
    && row.jobID == TrimSpace(if TrimSpace(rec.jobID) == "" then s.opt.jobID else rec.jobID)
    && row.taskID == TrimSpace(if TrimSpace(rec.taskID) == "" then s.opt.taskID else rec.taskID)
    && row.extraInfo == if TrimSpace(rec.extraInfo) == "" then "{}" else TrimSpace(rec.extraInfo)
  }

  lemma FieldsFromRecord(s: Setting, rec: TextChunkLine, line: TextChunkLine)
    requires line == rec.(chunkID := line.chunkID, text := line.text, offset := line.offset, chunkNo := line.chunkNo)
    ensures FromRecord(Canonical(EntityOf(line, s.vec(line.text), s.opt.jobID, s.opt.taskID)), s, rec)
  {
    hide TrimSpace;
    TrimTwice(rec.title);
    TrimTwice(rec.url);
    TrimTwice(rec.jobID);
    TrimTwice(rec.taskID);
    TrimTwice(s.opt.jobID);
    TrimTwice(s.opt.taskID);
  }

  /** `rows` are all chunks of `rec`, in order, at increasing offsets, as early as possible, with different ids. */
  ghost predicate AreChunks(rows: seq<ChunkEntity>, s: Setting, rec: TextChunkLine, how: Records.Splitting, offs: seq<int>) {
    && |rows| == |offs| == |Parts(rec, how)|
    && Records.Earliest(Encode(rec.text), Parts(rec, how), offs)
    && (forall i :: 0 <= i < |rows| ==> IsChunk(rows[i], s, rec, how, i, offs[i]))
    && (forall i :: 0 <= i < |rows| ==> rows[i].createdTime == rec.createdMs && rows[i].updatedTime == rec.updatedMs)
    && forall i, j :: 0 <= i < j < |rows| ==> rows[i].chunkID != rows[j].chunkID
  }

  lemma StoredRow(s: Setting, rows: seq<TextChunkLine>, i: nat)
    requires i < |rows|
    ensures Stored(s, rows)[i] == Canonical(EntityOf(rows[i], s.vec(rows[i].text), s.opt.jobID, s.opt.taskID))
  {
    hide Canonical, EntityOf;
  }

  lemma RowIsChunk(s: Setting, rec: TextChunkLine, how: Records.Splitting, line: TextChunkLine, offs: seq<int>, i: nat)
    requires |offs| == |Parts(rec, how)| && i < |offs| && line == Records.LineOf(rec, Parts(rec, how), offs, i)
    requires OccursAt(Encode(rec.text), Encode(Parts(rec, how)[i]), offs[i])
    ensures IsChunk(Canonical(EntityOf(line, s.vec(line.text), s.opt.jobID, s.opt.taskID)), s, rec, how, i, offs[i])
  {
    hide Parts, TrimSpace, Encode, Records.IdOf, FromRecord;
    TrimTwice(rec.docID);
    FieldsFromRecord(s, rec, line);
  }

  lemma RowTimes(s: Setting, rec: TextChunkLine, line: TextChunkLine, parts: seq<string>, offs: seq<int>, i: nat)
    requires i < |parts| == |offs| && line == Records.LineOf(rec, parts, offs, i)
    ensures var row := Canonical(EntityOf(line, s.vec(line.text), s.opt.jobID, s.opt.taskID));
      row.createdTime == rec.createdMs && row.updatedTime == rec.updatedMs
  {
    hide TrimSpace, Records.IdOf;
  }

  /** What ought to be held for a record that can be split are its chunks. */
  lemma StoredAreChunks(s: Setting, rec: TextChunkLine, how: Records.Splitting) returns (offs: seq<int>)
    requires Records.SplitOf(rec, how).Ok?
    ensures AreChunks(Stored(s, Records.SplitOf(rec, how).value), s, rec, how, offs)
  {
    hide Stored, Canonical, EntityOf, Encode, IsChunk, Records.IdOf, Records.SplitOf, Records.SplitInto, Records.LineOf, Parts;
    offs := Records.SplitOfMeans(rec, how);
    var rows, parts := Records.SplitOf(rec, how).value, Parts(rec, how);
    assert parts == Chunker.Chunks(rec.text, how.o, how.nd) by {
      PartsAreChunks(rec, how);
    }
    var held := Stored(s, rows);
    forall i | 0 <= i < |rows| ensures IsChunk(held[i], s, rec, how, i, offs[i]) {
      StoredRow(s, rows, i);
      RowIsChunk(s, rec, how, rows[i], offs, i);
    }
    forall i | 0 <= i < |rows| ensures held[i].createdTime == rec.createdMs && held[i].updatedTime == rec.updatedMs {
      StoredRow(s, rows, i);
      RowTimes(s, rec, rows[i], parts, offs, i);
    }
    forall i, j | 0 <= i < j < |rows| ensures held[i].chunkID != held[j].chunkID {
      ChunkHasId(held[i], s, rec, how, i, offs[i]);
      ChunkHasId(held[j], s, rec, how, j, offs[j]);
      TrimmedIdsDiffer(rec, |parts|, i, j);
    }
  }

  lemma PartsAreChunks(rec: TextChunkLine, how: Records.Splitting)
    ensures Parts(rec, how) == Chunker.Chunks(rec.text, how.o, how.nd)
  {
  }

  lemma ChunkHasId(row: ChunkEntity, s: Setting, rec: TextChunkLine, how: Records.Splitting, i: nat, off: int)
    requires IsChunk(row, s, rec, how, i, off)
    ensures row.chunkID == TrimID(Records.IdOf(rec, |Parts(rec, how)|, i))
  {
    hide Parts, Encode, Records.IdOf, TrimID;
  }

  // ---------------------------------------------------------------- a plain text

  /**
   A plain text is imported: on success, if no reply said that the collection was gone, it holds what it held and behind
   it just the chunks of the text.
   */
  method ImportPlain(runner: Runner, text: string, opt: PlainOptions, now: int, how: Records.Splitting, ghost vec: string -> Vec)
    returns (st: RunStats, ok: bool, ghost rows: seq<ChunkEntity>, ghost offs: seq<int>)
    requires runner.Ready() && Honest(runner.world.service, vec)
    modifies runner.repo
    ensures ok ==>
      var rec := PlainRecord(text, opt, now, runner.EffectiveMaxChunkIDLen(), runner.world.letterOrDigit);
      && rec.Ok? && AreChunks(rows, runner.In(opt.run, vec), rec.value, how, offs)
      && st == RunStats(1, |rows|)
    ensures ok && !Missed(runner.repo.server, old(runner.repo.writes), runner.repo.writes) ==>
      runner.repo.stored == old(runner.repo.stored) + rows
    ensures ok ==> (EndsWith(runner.repo.stored, rows) <==> !Lost(runner.repo.server, old(runner.repo.writes), runner.repo.writes))
  {
    hide Honest, PlainRecord, Stored, RunOfSlices, AreChunks, Led, AcceptedRows, Missed, Lost, EndsWith, Records.SplitOf, Replied;
    rows, offs := [], [];
    st, ok := runner.RunPlain(text, opt, now, Splitter(how), vec);
    if ok {
      ghost var rec := PlainRecord(text, opt, now, runner.EffectiveMaxChunkIDLen(), runner.world.letterOrDigit).value;
      ghost var s := runner.In(opt.run, vec);
      offs := StoredAreChunks(s, rec, how);
      rows := Stored(s, Records.SplitOf(rec, how).value);
    }
  }

  // ---------------------------------------------------------------- a file

  /** Every chunk of the first `n` lines is a chunk of the record of one of them. */
  lemma {:induction false} ChunkOfLine(input: Input, n: nat, i: nat) returns (m: nat, k: nat)
    requires n <= |input.lines| && input.Readable(n) && i < |input.Chunks(n)|
    ensures m < n && input.lines[m].Parsed?
    ensures var rows := input.split(Filled(input.lines[m].rec, input.inferred));
      rows.Ok? && k < |rows.value| && input.Chunks(n)[i] == rows.value[k]
    decreases n
  {
    if input.lines[n - 1].Parsed? && i >= |input.Chunks(n - 1)| {
      m, k := n - 1, i - |input.Chunks(n - 1)|;
    } else {
      m, k := ChunkOfLine(input, n - 1, i);
    }
  }

  lemma StampedRow(input: Input, clock: nat -> int, n: nat, i: nat)
    requires n <= |input.lines| && input.Readable(n) && i < |input.Chunks(n)|
    ensures Stamped(input.Chunks(n), clock)[i] == Stamp(input.Chunks(n)[i], clock(i))
  {
    hide Stamp, Input.Chunks, Input.Readable;
  }

  /**
   Every row that is held for a file is a chunk of the text of one of its lines, with the fields of that line, the
   source type of the file if the line has none, and the time at which it was taken.
   */
  lemma RowOfFile(input: Input, how: Records.Splitting, clock: nat -> int, s: Setting, n: nat, i: nat)
    returns (m: nat, k: nat, off: int)
    requires input.split == Splitter(how) && n <= |input.lines| && input.Readable(n) && i < |input.Chunks(n)|
    ensures m < n && input.lines[m].Parsed?
    ensures var row, line := Stored(s, Stamped(input.Chunks(n), clock))[i], input.lines[m].rec;
      && IsChunk(row, s, Filled(line, input.inferred), how, k, off)
      && FromRecord(row, s, if TrimSpace(line.sourceType) == "" then line.(sourceType := input.inferred) else line)
      && row.createdTime == row.updatedTime == clock(i)
  {
    hide Stored, Stamped, Canonical, EntityOf, Encode, IsChunk, Records.IdOf, Records.SplitOf, Parts, Filled, Input.Chunks;
    hide Records.SplitInto, Records.LineOf, TrimSpace, FromRecord;
    m, k := ChunkOfLine(input, n, i);
    var rec := Filled(input.lines[m].rec, input.inferred);
    StampedRow(input, clock, n, i);
    var offs := Records.SplitOfMeans(rec, how);
    PartsAreChunks(rec, how);
    off := offs[k];
    var line := Records.SplitOf(rec, how).value[k];
    StoredRow(s, Stamped(input.Chunks(n), clock), i);
    RowIsChunk(s, rec, how, line, offs, k);
    StampKeepsChunk(s, rec, how, line, clock(i), k, off);
    ChunkIsFromRecord(Stored(s, Stamped(input.Chunks(n), clock))[i], s, rec, how, k, off);
    FilledMeans(input.lines[m].rec, input.inferred);
  }

  lemma ChunkIsFromRecord(row: ChunkEntity, s: Setting, rec: TextChunkLine, how: Records.Splitting, i: nat, off: int)
    requires IsChunk(row, s, rec, how, i, off)
    ensures FromRecord(row, s, rec)
  {
    hide FromRecord, Parts, Encode, TrimSpace;
  }

  lemma FilledMeans(rec: TextChunkLine, inferred: string)
    ensures Filled(rec, inferred) == if TrimSpace(rec.sourceType) == "" then rec.(sourceType := inferred) else rec
  {
    hide TrimSpace;
  }

  /** The time of writing has no part in it. */
  lemma StampKeepsChunk(s: Setting, rec: TextChunkLine, how: Records.Splitting, line: TextChunkLine, now: int, k: nat, off: int)
    requires IsChunk(Canonical(EntityOf(line, s.vec(line.text), s.opt.jobID, s.opt.taskID)), s, rec, how, k, off)
    ensures var later := Stamp(line, now);
      && IsChunk(Canonical(EntityOf(later, s.vec(later.text), s.opt.jobID, s.opt.taskID)), s, rec, how, k, off)
      && Canonical(EntityOf(later, s.vec(later.text), s.opt.jobID, s.opt.taskID)).createdTime == now
      && Canonical(EntityOf(later, s.vec(later.text), s.opt.jobID, s.opt.taskID)).updatedTime == now
  {
    hide Parts, Encode, TrimSpace, Records.IdOf;
  }
}
