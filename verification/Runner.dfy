/**
 The ingest runner: records are split into chunks, chunks are collected into batches, a batch is embedded and written.
 Parsing, splitting, the clock and how the requests to the services turn out are parameters.
 */
module Runner {
  import opened Text
  import opened ChunkIds
  import opened Embedding
  import opened MilvusWrites
  import opened BatchRuns
  import opened PlainTexts
  import opened InputFiles
  import opened Utf8
  import EntityDocs

  const DEFAULT_EMBED_BATCH := 32
  const DEFAULT_MAX_CHUNK_ID_LEN := 512

  datatype RunStats = RunStats(inputLines: nat, chunksWritten: nat)

  // ---------------------------------------------------------------- what happened meanwhile

  /** The collection and the writes, once and later: what the collection holds has come about by the writes in between. */
  ghost predicate Led(held: seq<ChunkEntity>, log: seq<Rpc>, heldNow: seq<ChunkEntity>, logNow: seq<Rpc>) {
    log <= logNow && heldNow == Contents(held, logNow[|log|..]) && NoneEmpty(logNow[|log|..])
  }

  lemma NothingSent(held: seq<ChunkEntity>, log: seq<Rpc>)
    ensures Led(held, log, held, log)
  {
    assert log[|log|..] == [];
  }

  lemma JustSent(held: seq<ChunkEntity>, log: seq<Rpc>, heldNow: seq<ChunkEntity>, rpcs: seq<Rpc>)
    requires heldNow == Contents(held, rpcs) && NoneEmpty(rpcs)
    ensures Led(held, log, heldNow, log + rpcs) && AcceptedRows(log + rpcs) == AcceptedRows(log) + AcceptedRows(rpcs)
  {
    assert (log + rpcs)[|log|..] == rpcs;
    ContentsConcat(held, log, rpcs);
  }

  lemma LedOn(h0: seq<ChunkEntity>, l0: seq<Rpc>, h1: seq<ChunkEntity>, l1: seq<Rpc>, h2: seq<ChunkEntity>, l2: seq<Rpc>)
    requires Led(h0, l0, h1, l1) && Led(h1, l1, h2, l2)
    ensures Led(h0, l0, h2, l2)
  {
    hide Contents;
    var a, b := l1[|l0|..], l2[|l1|..];
    assert l2[|l0|..] == a + b;
    ContentsConcat(h0, a, b);
  }

  /**
   In terms of the replies numbered `[from, upto)`: the rows are in the collection, behind what was there if no reply
   said it was gone, and not all of them if and only if one said so behind one that had accepted rows.
   */
  ghost predicate InCollection(server: Server, from: nat, upto: nat, held: seq<ChunkEntity>, heldNow: seq<ChunkEntity>,
                               rows: seq<ChunkEntity>)
  {
    && (!Missed(server, from, upto) ==> heldNow == held + rows)
    && (EndsWith(heldNow, rows) <==> !Lost(server, from, upto))
  }

  lemma AllHeld(server: Server, held: seq<ChunkEntity>, log: seq<Rpc>, heldNow: seq<ChunkEntity>, logNow: seq<Rpc>,
                rows: seq<ChunkEntity>)
    requires Replied(server, 0, logNow) && Led(held, log, heldNow, logNow) && AcceptedRows(logNow) == AcceptedRows(log) + rows
    ensures |log| <= |logNow| && InCollection(server, |log|, |logNow|, held, heldNow, rows)
  {
    hide Contents, AcceptedRows, NoneEmpty, Dropped, DroppedLate, EndsWith, Replied, Missed, Lost;
    var rpcs := logNow[|log|..];
    RepliedSuffix(server, log, logNow);
    assert log + rpcs == logNow;
    hide Led;
    ContentsConcat(held, log, rpcs);
    SameTail(AcceptedRows(log), AcceptedRows(rpcs), rows);
    AllThere(held, rpcs);
    DroppedMeans(server, |log|, rpcs);
  }

  lemma RepliedSuffix(server: Server, log: seq<Rpc>, logNow: seq<Rpc>)
    requires log <= logNow && Replied(server, 0, logNow)
    ensures Replied(server, |log|, logNow[|log|..])
  {
  }

  lemma SameTail<T>(a: seq<T>, b: seq<T>, c: seq<T>)
    requires a + b == a + c
    ensures b == c
  {
    assert (a + b)[|a|..] == b && (a + c)[|a|..] == c;
  }

  // ---------------------------------------------------------------- how far a run has come

  /** The chunks `rows` have been run, from calls at `c`: so many counted, the accepted rows behind `base`, calls now at `conn`. */
  ghost predicate Ran(s: Setting, size: nat, c: Conn, base: seq<ChunkEntity>, rows: seq<TextChunkLine>,
                      counted: nat, ok: bool, conn: Conn, accepted: seq<ChunkEntity>)
    requires s.Sane() && size > 0
  {
    var r := RunOfSlices(s, rows, size, c);
    && counted == r.counted && ok == r.ok && conn == r.conn
    && accepted == base + Stored(s, rows[..r.accepted])
  }

  lemma RanNothing(s: Setting, size: nat, c: Conn, base: seq<ChunkEntity>)
    requires s.Sane() && size > 0
    ensures Ran(s, size, c, base, [], 0, true, c, base) && Whole(0, size)
  {
    NoSlices(s, size, c);
    assert Stored(s, []) == [];
  }

  /** One more slice, behind whole ones. */
  lemma RanOn(s: Setting, size: nat, c: Conn, base: seq<ChunkEntity>, done: seq<TextChunkLine>, conn: Conn,
              accepted: seq<ChunkEntity>, batch: seq<TextChunkLine>, acceptedNow: seq<ChunkEntity>)
    requires s.Sane() && size > 0 && Whole(|done|, size) && |batch| <= size
    requires Ran(s, size, c, base, done, |done|, true, conn, accepted)
    requires acceptedNow == accepted + Stored(s, batch[..RunOfBatch(s, batch, conn).accepted])
    ensures var b := RunOfBatch(s, batch, conn);
      Ran(s, size, c, base, done + batch, |done| + Counted(b, batch), b.ok, b.conn, acceptedNow)
    ensures |batch| == size ==> Whole(|done + batch|, size)
  {
    hide Stored, RunOfBatch, RunOfSlices, Setting.Sane;
    var b := RunOfBatch(s, batch, conn);
    SlicesConcat(s, done, batch, size, c);
    OneSlice(s, batch, size, conn);
    PrefixOfSum(done, batch, b.accepted);
    assert done[..|done|] == done;
    StoredConcat(s, done, batch[..b.accepted]);
    Regroup(base, Stored(s, done), Stored(s, batch[..b.accepted]));
    WholeSum(|done|, |batch|, size);
  }

  /** A run that has failed in whole slices is the run of everything behind them as well. */
  lemma RanToFailure(s: Setting, size: nat, c: Conn, base: seq<ChunkEntity>, done: seq<TextChunkLine>, counted: nat, conn: Conn,
                     accepted: seq<ChunkEntity>, rows: seq<TextChunkLine>)
    requires s.Sane() && size > 0 && Whole(|done|, size) && done <= rows
    requires Ran(s, size, c, base, done, counted, false, conn, accepted)
    ensures Ran(s, size, c, base, rows, counted, false, conn, accepted)
  {
    hide Stored, RunOfSlices, Setting.Sane;
    var more := rows[|done|..];
    assert done + more == rows;
    SlicesConcat(s, done, more, size, c);
    var k := RunOfSlices(s, done, size, c).accepted;
    assert rows[..k] == done[..k];
  }

  lemma PrefixOfSum<T>(a: seq<T>, b: seq<T>, k: nat)
    requires k <= |b|
    ensures (a + b)[..|a| + k] == a + b[..k]
  {
  }

  class Runner {
    const repo: Repository
    const world: World
    const maxBatch: int

    constructor (repo: Repository, world: World, maxBatch: int)
      ensures this.repo == repo && this.world == world && this.maxBatch == maxBatch
    {
      this.repo, this.world, this.maxBatch := repo, world, maxBatch;
    }

    ghost predicate Ready()
      reads repo
    {
      repo.Valid() && world.embedBatch > 0
    }

    function In(opt: Options, vec: string -> Vec): Setting {
      Setting(world, repo.server, repo.insertBatch, opt, vec)
    }

    function BatchSize(): (n: nat)
      ensures n > 0 && (maxBatch > 0 ==> n == maxBatch)
    {
      if maxBatch > 0 then maxBatch else DEFAULT_EMBED_BATCH
    }

    /** What the surroundings decide is what happens: so many chunks of the batch are accepted, in order, and all or none count. */
    method WriteBatch(batch: seq<TextChunkLine>, opt: Options, ghost vec: string -> Vec) returns (n: nat, ok: bool)
      requires Ready() && Honest(world.service, vec)
      modifies repo
      ensures Ready() && Led(old(repo.stored), old(repo.log), repo.stored, repo.log)
      ensures var b := RunOfBatch(In(opt, vec), batch, old(repo.State()));
        && ok == b.ok && n == Counted(b, batch) && repo.State() == b.conn
        && AcceptedRows(repo.log) == AcceptedRows(old(repo.log)) + Stored(In(opt, vec), batch[..b.accepted])
    {
      hide Canonical, EntityOf, Canonicals, Entities, Honest, Led, AcceptedRows, Contents, NoneEmpty, EndsWith, Missed, Lost,
        WriteOutcome, Answered, Replied, Batchwise, HasKeys, EntityDocs.Acceptable, EntityDocs.AreDocs;
      n, ok := 0, true;
      ghost var s := In(opt, vec);
      NothingSent(repo.stored, repo.log);
      StoredPrefix(s, batch, 0);
      NothingStored(s, batch);
      if |batch| == 0 {
        return;
      }
      var texts: seq<string> := [];
      for i := 0 to |batch|
        invariant |texts| == i && forall k :: 0 <= k < i ==> texts[k] == batch[k].text
      {
        texts := texts + [batch[i].text];
      }
      assert texts == Texts(batch);
      var embedded := Embed(texts, world.embedBatch, world.dim, world.service, vec);
      assert embedded.Ok? <==> Embeds(s, batch);
      if embedded.Err? || |embedded.value| != |batch| {
        return 0, false;
      }
      var rows: seq<ChunkEntity> := [];
      for i := 0 to |batch|
        invariant |rows| == i
        invariant forall k :: 0 <= k < i ==> rows[k] == EntityOf(batch[k], embedded.value[k], opt.jobID, opt.taskID)
      {
        rows := rows + [EntityOf(batch[i], embedded.value[i], opt.jobID, opt.taskID)];
      }
      assert rows == Entities(s, batch);
      ghost var rpcs;
      ok, rpcs := repo.WriteChunks(rows);
      JustSent(old(repo.stored), old(repo.log), repo.stored, rpcs);
      StoredPrefix(s, batch, RunOfBatch(s, batch, old(repo.State())).accepted);
      if !ok {
        return;
      }
      if world.es.Index? {
        var docs := EntityDocs.EntityChunkDocsFromBatch(batch, ContextOf(world.es, opt));
        if docs.Err? {
          return 0, false;
        }
        DocsMeanKeys(docs.value, batch, ContextOf(world.es, opt));
        if |docs.value| > 0 && !world.es.bulk(batch) {
          return 0, false;
        }
      }
      n := |batch|;
    }

    function EffectiveMaxChunkIDLen(): (n: nat)
      ensures n > 0
    {
      if world.maxChunkIDLen <= 0 then DEFAULT_MAX_CHUNK_ID_LEN else world.maxChunkIDLen
    }

    /** The chunks of a plain text, in slices of the batch size. */
    method WriteSlices(rows: seq<TextChunkLine>, opt: Options, ghost vec: string -> Vec) returns (written: nat, ok: bool)
      requires Ready() && Honest(world.service, vec)
      modifies repo
      ensures Ready() && Led(old(repo.stored), old(repo.log), repo.stored, repo.log)
      ensures Ran(In(opt, vec), BatchSize(), old(repo.State()), AcceptedRows(old(repo.log)), rows, written, ok, repo.State(),
                  AcceptedRows(repo.log))
    {
      hide Honest, Led, AcceptedRows, Contents, NoneEmpty, Ran, RunOfBatch, Stored, Replied, Whole;
      written := 0;
      ghost var s, c, base := In(opt, vec), repo.State(), AcceptedRows(repo.log);
      NothingSent(repo.stored, repo.log);
      RanNothing(s, BatchSize(), c, base);
      while written < |rows|
        invariant written <= |rows| && Ready() && (written < |rows| ==> Whole(written, BatchSize()))
        invariant Led(old(repo.stored), old(repo.log), repo.stored, repo.log)
        invariant Ran(s, BatchSize(), c, base, rows[..written], written, true, repo.State(), AcceptedRows(repo.log))
      {
        var batch := Batch(rows, BatchSize(), written);
        ghost var held, sent, conn := repo.stored, repo.log, repo.State();
        var n, wrote := WriteBatch(batch, opt, vec);
        LedOn(old(repo.stored), old(repo.log), held, sent, repo.stored, repo.log);
        BatchExtends(rows, BatchSize(), written);
        RanOn(s, BatchSize(), c, base, rows[..written], conn, AcceptedRows(sent), batch, AcceptedRows(repo.log));
        if !wrote {
          FailedSlice(s, BatchSize(), c, base, rows, written, batch, repo.State(), AcceptedRows(repo.log));
          return written, false;
        }
        written := written + n;
      }
      assert rows[..written] == rows;
      ok := true;
    }

    method PlainLine(text: string, opt: PlainOptions, now: int) returns (r: Result<TextChunkLine, PlainError>)
      ensures r == PlainRecord(text, opt, now, EffectiveMaxChunkIDLen(), world.letterOrDigit)
    {
      hide TrimSpace, Encode, Sanitized, StableChunkID;
      if TrimSpace(text) == "" {
        return Err(EmptyText);
      }
      var docID := TrimSpace(opt.docID);
      var given := TrimSpace(opt.chunkID);
      var id;
      if given == "" {
        if docID == "" {
          return Err(NoDocID);
        }
        id := StableChunkID(docID, opt.pageNo, 0);
      } else {
        var clean := SanitizeChunkID(given, world.letterOrDigit);
        if |Encode(clean)| > EffectiveMaxChunkIDLen() {
          return Err(ChunkIDTooLong);
        }
        id := Plain(clean);
      }
      var sourceType := TrimSpace(opt.sourceType);
      if sourceType == "" {
        sourceType := "default";
      }
      var lang := TrimSpace(opt.lang);
      if lang == "" {
        lang := "und";
      }
      r := Ok(TextChunkLine(
                id, TrimSpace(text), docID, TrimSpace(opt.title), TrimSpace(opt.url), if opt.pageNo < 0 then 0 else opt.pageNo,
                if opt.offsetBase < 0 then 0 else opt.offsetBase, 0, [], sourceType, lang, 0, TrimSpace(opt.run.jobID),
                TrimSpace(opt.run.taskID), "", now, now));
    }

    /**
     One plain text.  An unusable request changes nothing; otherwise the chunks of its record are run slice by slice, and on
     success all of them are in the collection if and only if that was not dropped after it had accepted some.
     */
    method RunPlain(text: string, opt: PlainOptions, now: int, split: TextChunkLine -> Result<seq<TextChunkLine>, Unsplit>,
                    ghost vec: string -> Vec)
      returns (st: RunStats, ok: bool)
      requires Ready() && Honest(world.service, vec)
      modifies repo
      ensures Ready() && Led(old(repo.stored), old(repo.log), repo.stored, repo.log)
      ensures
        var rec := PlainRecord(text, opt, now, EffectiveMaxChunkIDLen(), world.letterOrDigit);
        if rec.Err? || split(rec.value).Err? then
          !ok && st == RunStats(0, 0) && repo.log == old(repo.log) && repo.stored == old(repo.stored) && repo.State() == old(repo.State())
        else
          var rows, s := split(rec.value).value, In(opt.run, vec);
          var r := RunOfSlices(s, rows, BatchSize(), old(repo.State()));
          && st == RunStats(1, r.counted) && (ok <==> r.ok && (opt.run.flush ==> world.flushed))
          && repo.State() == r.conn && AcceptedRows(repo.log) == AcceptedRows(old(repo.log)) + Stored(s, rows[..r.accepted])
          && (ok ==> InCollection(repo.server, old(repo.writes), repo.writes, old(repo.stored), repo.stored, Stored(s, rows)))
    {
      hide Honest, Led, AcceptedRows, Contents, Missed, Lost, EndsWith, NoneEmpty, PlainRecord, Stored, InCollection, RunOfSlices,
        Replied;
      NothingSent(repo.stored, repo.log);
      var start := PlainLine(text, opt, now);
      if start.Err? || split(start.value).Err? {
        return RunStats(0, 0), false;
      }
      var rows := split(start.value).value;
      var written, wrote := WriteSlices(rows, opt.run, vec);
      st, ok := RunStats(1, written), wrote;
      if ok {
        assert rows[..|rows|] == rows;
        AllHeld(repo.server, old(repo.stored), old(repo.log), repo.stored, repo.log, Stored(In(opt.run, vec), rows));
        if opt.run.flush {
          ok := world.flushed;
        }
      }
    }

    /** Writes what is pending, if anything. */
    method Flush(pending: seq<TextChunkLine>, written: nat, opt: Options, ghost vec: string -> Vec) returns (total: nat, ok: bool)
      requires Ready() && Honest(world.service, vec)
      modifies repo
      ensures Ready() && Led(old(repo.stored), old(repo.log), repo.stored, repo.log)
      ensures var b := RunOfBatch(In(opt, vec), pending, old(repo.State()));
        && ok == b.ok && total == written + Counted(b, pending) && repo.State() == b.conn
        && AcceptedRows(repo.log) == AcceptedRows(old(repo.log)) + Stored(In(opt, vec), pending[..b.accepted])
    {
      hide RunOfBatch, Stored, AcceptedRows, Led, Honest;
      var n;
      n, ok := WriteBatch(pending, opt, vec);
      total := written + n;
    }

    /** Takes one more chunk, and writes the pending ones if they fill a slice. */
    method AddChunk(row: TextChunkLine, pending0: seq<TextChunkLine>, written: nat, opt: Options, ghost vec: string -> Vec,
                    ghost c: Conn, ghost base: seq<ChunkEntity>, ghost done0: seq<TextChunkLine>)
      returns (pending: seq<TextChunkLine>, total: nat, ok: bool, ghost done: seq<TextChunkLine>)
      requires Ready() && Honest(world.service, vec)
      requires written == |done0| && Whole(written, BatchSize()) && |pending0| < BatchSize()
      requires Ran(In(opt, vec), BatchSize(), c, base, done0, written, true, repo.State(), AcceptedRows(repo.log))
      modifies repo
      ensures Ready() && Led(old(repo.stored), old(repo.log), repo.stored, repo.log)
      ensures Ran(In(opt, vec), BatchSize(), c, base, done, total, ok, repo.State(), AcceptedRows(repo.log))
      ensures Whole(|done|, BatchSize())
      ensures ok ==> done + pending == (done0 + pending0) + [row] && total == |done| && |pending| < BatchSize()
      ensures !ok ==> done == (done0 + pending0) + [row]
    {
      hide Honest, Led, AcceptedRows, Contents, Stored, Ran, RunOfBatch, Whole, Replied;
      NothingSent(repo.stored, repo.log);
      Regroup(done0, pending0, [row]);
      pending, total, ok, done := pending0 + [row], written, true, done0;
      if |pending| >= BatchSize() {
        ghost var sent, conn := repo.log, repo.State();
        total, ok := Flush(pending, written, opt, vec);
        RanOn(In(opt, vec), BatchSize(), c, base, done0, conn, AcceptedRows(sent), pending, AcceptedRows(repo.log));
        done := done0 + pending;
        if !ok {
          return;
        }
        pending := [];
      }
    }

    /** Stamps and takes the chunks `rows` of one record, behind the chunks `had` of those before it. */
    method AddRecord(had: seq<TextChunkLine>, rows: seq<TextChunkLine>, clock: nat -> int, pending0: seq<TextChunkLine>, written: nat,
                     opt: Options, ghost vec: string -> Vec, ghost c: Conn, ghost base: seq<ChunkEntity>, ghost done0: seq<TextChunkLine>)
      returns (pending: seq<TextChunkLine>, total: nat, ok: bool, ghost done: seq<TextChunkLine>)
      requires Ready() && Honest(world.service, vec)
      requires written == |done0| && Whole(written, BatchSize()) && |pending0| < BatchSize()
      requires Ran(In(opt, vec), BatchSize(), c, base, done0, written, true, repo.State(), AcceptedRows(repo.log))
      requires done0 + pending0 == Stamped(had, clock)
      modifies repo
      ensures Ready() && Led(old(repo.stored), old(repo.log), repo.stored, repo.log)
      ensures Ran(In(opt, vec), BatchSize(), c, base, done, total, ok, repo.State(), AcceptedRows(repo.log))
      ensures Whole(|done|, BatchSize())
      ensures ok ==> done + pending == Stamped(had + rows, clock) && total == |done| && |pending| < BatchSize()
      ensures !ok ==> done <= Stamped(had + rows, clock)
    {
      hide Honest, Stamp, Stored, Stamped, Led, AcceptedRows, Contents, Ran, Whole, Replied;
      NothingSent(repo.stored, repo.log);
      pending, total, ok, done := pending0, written, true, done0;
      assert had + rows[..0] == had;
      for i := 0 to |rows|
        invariant ok && total == |done| && Whole(total, BatchSize()) && |pending| < BatchSize() && Ready()
        invariant done + pending == Stamped(had + rows[..i], clock)
        invariant Ran(In(opt, vec), BatchSize(), c, base, done, total, true, repo.State(), AcceptedRows(repo.log))
        invariant Led(old(repo.stored), old(repo.log), repo.stored, repo.log)
      {
        ghost var held, sent := repo.stored, repo.log;
        StampedStep(had, rows, i, clock);
        pending, total, ok, done := AddChunk(Stamp(rows[i], clock(|had| + i)), pending, total, opt, vec, c, base, done);
        LedOn(old(repo.stored), old(repo.log), held, sent, repo.stored, repo.log);
        if !ok {
          StampedPrefix(had + rows[..i + 1], had + rows, clock);
          return;
        }
      }
      assert rows[..|rows|] == rows;
    }

    /**
     An NDJSON file: reading chunk by chunk and writing whenever a slice is full is running the chunks slice by slice, the
     last slice included only if the file was read to its end; so many are counted and accepted.  On success all of them
     are in the collection if and only if that was not dropped after it had accepted some.
     */
    method RunNDJSON(input: Input, clock: nat -> int, opt: Options, ghost vec: string -> Vec)
      returns (st: RunStats, ok: bool)
      requires Ready() && Honest(world.service, vec)
      modifies repo
      ensures Ready() && Led(old(repo.stored), old(repo.log), repo.stored, repo.log)
      ensures
        var rows, s := input.Submitted(clock, BatchSize()), In(opt, vec);
        var r := RunOfSlices(s, rows, BatchSize(), old(repo.State()));
        && st.chunksWritten == r.counted && (ok <==> input.AllRead() && r.ok && (opt.flush ==> world.flushed))
        && repo.State() == r.conn && AcceptedRows(repo.log) == AcceptedRows(old(repo.log)) + Stored(s, rows[..r.accepted])
        && (ok ==> InCollection(repo.server, old(repo.writes), repo.writes, old(repo.stored), repo.stored, Stored(s, rows)))
      ensures ok ==> input.Readable(|input.lines|) && input.complete
      ensures ok ==> st == RunStats(input.Lines(|input.lines|), |input.Chunks(|input.lines|)|)
    {
      hide Honest, Stamp, Stored, Stamped, Filled, Led, AcceptedRows, Contents, Ran, Whole, Replied, RunOfSlices, RunOfBatch,
        InCollection, Input.Readable, Input.Lines, Input.Chunks, Input.Submitted, Input.AllRead;
      ghost var s, size, c, base := In(opt, vec), BatchSize(), repo.State(), AcceptedRows(repo.log);
      st := RunStats(0, 0);
      var pending: seq<TextChunkLine> := [];
      ghost var done: seq<TextChunkLine> := [];
      NothingSent(repo.stored, repo.log);
      RanNothing(s, size, c, base);
      NothingRead(input, clock);
      for n := 0 to |input.lines|
        invariant input.Readable(n) && st == RunStats(input.Lines(n), |done|) && Ready()
        invariant done + pending == Stamped(input.Chunks(n), clock)
        invariant Whole(|done|, size) && |pending| < size
        invariant Ran(s, size, c, base, done, |done|, true, repo.State(), AcceptedRows(repo.log))
        invariant Led(old(repo.stored), old(repo.log), repo.stored, repo.log)
      {
        input.Step(n);
        if input.lines[n].Blank? {
          continue;
        }
        if input.lines[n].Malformed? {
          StoppedAt(input, clock, size, n, done, pending);
          RanMeans(s, size, c, base, done, |done|, true, repo.State(), AcceptedRows(repo.log));
          return st, false;
        }
        var rec := Filled(input.lines[n].rec, input.inferred);
        st := st.(inputLines := st.inputLines + 1);
        var rows := input.split(rec);
        if rows.Err? {
          StoppedAt(input, clock, size, n, done, pending);
          RanMeans(s, size, c, base, done, |done|, true, repo.State(), AcceptedRows(repo.log));
          return st, false;
        }
        ghost var held, sent := repo.stored, repo.log;
        var total, added;
        pending, total, added, done :=
          AddRecord(input.Chunks(n), rows.value, clock, pending, st.chunksWritten, opt, vec, c, base, done);
        LedOn(old(repo.stored), old(repo.log), held, sent, repo.stored, repo.log);
        st := st.(chunksWritten := total);
        if !added {
          FailedWithin(input, clock, size, n + 1, done);
          RanToFailure(s, size, c, base, done, total, repo.State(), AcceptedRows(repo.log), input.Submitted(clock, size));
          RanMeans(s, size, c, base, input.Submitted(clock, size), total, false, repo.State(), AcceptedRows(repo.log));
          return st, false;
        }
      }
      if !input.complete {
        StoppedAt(input, clock, size, |input.lines|, done, pending);
        RanMeans(s, size, c, base, done, |done|, true, repo.State(), AcceptedRows(repo.log));
        return st, false;
      }
      ReadToEnd(input, clock, size);
      ghost var held, sent, conn := repo.stored, repo.log, repo.State();
      var total, flushed := Flush(pending, st.chunksWritten, opt, vec);
      LedOn(old(repo.stored), old(repo.log), held, sent, repo.stored, repo.log);
      RanOn(s, size, c, base, done, conn, AcceptedRows(sent), pending, AcceptedRows(repo.log));
      RanMeans(s, size, c, base, input.Submitted(clock, size), total, flushed, repo.State(), AcceptedRows(repo.log));
      st := st.(chunksWritten := total);
      if !flushed {
        return st, false;
      }
      AllHeld(repo.server, old(repo.stored), old(repo.log), repo.stored, repo.log, Stored(s, input.Submitted(clock, size)));
      ok := true;
      if opt.flush {
        ok := world.flushed;
      }
    }
  }

  // ---------------------------------------------------------------- where a run stops

  lemma NothingStored(s: Setting, rows: seq<TextChunkLine>)
    ensures Stored(s, rows[..0]) == []
  {
  }

  lemma FailedSlice(s: Setting, size: nat, c: Conn, base: seq<ChunkEntity>, rows: seq<TextChunkLine>, n: nat,
                    batch: seq<TextChunkLine>, conn: Conn, accepted: seq<ChunkEntity>)
    requires s.Sane() && size > 0 && n < |rows| && batch == Batch(rows, size, n) && Whole(n, size)
    requires Ran(s, size, c, base, rows[..n] + batch, n, false, conn, accepted)
    ensures Ran(s, size, c, base, rows, n, false, conn, accepted)
  {
    BatchExtends(rows, size, n);
    if n + |batch| == |rows| {
      assert rows[..n] + batch == rows;
    } else {
      WholeSum(n, size, size);
      RanToFailure(s, size, c, base, rows[..n] + batch, n, conn, accepted, rows);
    }
  }

  lemma RanMeans(s: Setting, size: nat, c: Conn, base: seq<ChunkEntity>, rows: seq<TextChunkLine>, counted: nat, ok: bool,
                 conn: Conn, accepted: seq<ChunkEntity>)
    requires s.Sane() && size > 0 && Ran(s, size, c, base, rows, counted, ok, conn, accepted)
    ensures var r := RunOfSlices(s, rows, size, c);
      && counted == r.counted && ok == r.ok && conn == r.conn && accepted == base + Stored(s, rows[..r.accepted])
    ensures ok ==> accepted == base + Stored(s, rows)
  {
    hide RunOfSlices, Stored;
    assert rows[..|rows|] == rows;
  }

  // ---------------------------------------------------------------- stored but not counted

  function Always(vec: Vec): string -> Vec {
    (text: string) => vec
  }

  /** Everything succeeds, but perhaps the bulk request of the entity index. */
  function Indexing(bulk: bool): World {
    World(Service(EmbeddingsArray, (texts: seq<string>) => Ok(Listed(VecsOf(texts, Always([]))))), 1, 0,
          Index((batch: seq<TextChunkLine>) => bulk, (key: string) => key, (extra: string) => map[]), true, 0, (c: char) => true)
  }

  const ACCEPTING: Server := Server((n: nat) => Accepted, (n: nat) => true, true, (e: ChunkEntity) => true)

  /** A chunk with one key. */
  function Keyed(docID: string): TextChunkLine {
    TextChunkLine(Plain("c"), "", docID, "", "", 0, 0, 0, ["k"], "", "", 0, "", "", "", 0, 0)
  }

  lemma KeyedFails(bulk: bool, docID: string, opt: Options)
    requires !bulk || TrimSpace(docID) == ""
    ensures !GetsIndexed(Setting(Indexing(bulk), ACCEPTING, 512, opt, Always([])), [Keyed(docID)])
  {
    hide EntityDocs.Acceptable, HasKeys, Keyed, TrimSpace;
    if bulk {
      NamesNoDocument(docID);
    } else {
      KeyedHasKeys(docID, ContextOf(Indexing(bulk).es, opt));
    }
  }

  lemma NamesNoDocument(docID: string)
    requires TrimSpace(docID) == ""
    ensures !EntityDocs.Acceptable([Keyed(docID)])
  {
    hide TrimSpace, EntityDocs.Feeds, EntityDocs.OneDocEach;
    var batch := [Keyed(docID)];
    assert batch[0] in batch && batch[0].entityKeys != [];
  }

  lemma KeyedHasKeys(docID: string, ctx: EntityDocs.Context)
    requires ctx.lower("k") == "k"
    ensures HasKeys([Keyed(docID)], ctx)
  {
    var batch := [Keyed(docID)];
    KeyedFeeds(docID, ctx);
    hide TrimSpace, EntityDocs.Feeds, EntityDocs.Normal, Keyed;
    assert batch[0] in batch;
    assert EntityDocs.KeyOf("k", batch, Plain("c"), ctx);
  }

  lemma KeyedFeeds(docID: string, ctx: EntityDocs.Context)
    requires ctx.lower("k") == "k"
    ensures EntityDocs.Feeds(Keyed(docID), Plain("c")) && "k" in Keyed(docID).entityKeys && EntityDocs.Normal("k", ctx) == "k"
  {
    assert TrimSpace("c") == "c" && TrimSpace("k") == "k";
    assert Keyed(docID).entityKeys[0] == "k";
  }

  lemma OneIsAccepted(bulk: bool, row: TextChunkLine, opt: Options)
    requires !GetsIndexed(Setting(Indexing(bulk), ACCEPTING, 512, opt, Always([])), [row])
    ensures Honest(Indexing(bulk).service, Always([]))
    ensures var s := Setting(Indexing(bulk), ACCEPTING, 512, opt, Always([]));
      RunOfBatch(s, [row], Conn(0, 0, false)) == BatchRun(1, false, Conn(1, 1, true))
  {
    var s := Setting(Indexing(bulk), ACCEPTING, 512, opt, Always([]));
    hide EntityOf, VecsOf, GetsIndexed;
    assert Answered(Texts([row]), 1, s.world.service, 0) by {
      AnsweredStep(Texts([row]), 1, s.world.service, 0);
      AnsweredStep(Texts([row]), 1, s.world.service, 1);
    }
    AllAccepting(ACCEPTING, Conn(0, 1, true), 1, 512);
    BatchesStep(ACCEPTING, Conn(0, 1, true), 1, 512);
    NoneLeft(ACCEPTING, Conn(1, 1, true), 512);
  }

  /** One chunk that does not get into the entity index: accepted, held, and not counted. */
  method HeldOne(bulk: bool, row: TextChunkLine, opt: Options) returns (n: nat, ok: bool, held: seq<ChunkEntity>)
    requires !GetsIndexed(Setting(Indexing(bulk), ACCEPTING, 512, opt, Always([])), [row])
    ensures !ok && n == 0 && |held| == 1 && held[0].chunkID == TrimID(row.chunkID)
  {
    hide GetsIndexed, Indexing;
    var world := Indexing(bulk);
    OneIsAccepted(bulk, row, opt);
    assert world.embedBatch > 0 by {
      EmbedsOneByOne(bulk);
    }
    hide Honest, Contents, AcceptedRows, RunOfBatch, TrimSpace;
    var repo := new Repository(ACCEPTING, 512);
    var runner := new Runner(repo, world, 1);
    ghost var s := runner.In(opt, Always([]));
    n, ok := runner.WriteBatch([row], opt, Always([]));
    assert [row][..1] == [row];
    NoRpcs([]);
    assert Replied(repo.server, 0, repo.log);
    assert !Missed(ACCEPTING, 0, 1);
    AllHeld(repo.server, [], [], repo.stored, repo.log, Stored(s, [row]));
    held := repo.stored;
    assert held == Stored(s, [row]);
  }

  lemma EmbedsOneByOne(bulk: bool)
    ensures Indexing(bulk).embedBatch == 1
  {
  }

  /** One chunk with a key: held but not counted, if the bulk request fails, or if the chunk names no document, whatever succeeds. */
  method HeldButNotCounted(bulk: bool, docID: string, opt: Options) returns (n: nat, ok: bool, held: seq<ChunkEntity>)
    requires !bulk || TrimSpace(docID) == ""
    ensures !ok && n == 0 && |held| == 1 && held[0].chunkID == Plain("c")
  {
    KeyedFails(bulk, docID, opt);
    hide GetsIndexed, Indexing;
    assert TrimID(Keyed(docID).chunkID) == Plain("c") by {
      assert TrimSpace("c") == "c";
    }
    hide TrimSpace;
    n, ok, held := HeldOne(bulk, Keyed(docID), opt);
  }

  // ---------------------------------------------------------------- a negative page

  /** A request for page -1: its record is on page 0, under the id of page -1. */
  method NegativePage(runner: Runner) returns (r: Result<TextChunkLine, PlainError>)
    ensures r.Ok? && r.value.pageNo == 0
    ensures r.value.chunkID == StableChunkID("d", -1, 0) != StableChunkID("d", 0, 0)
  {
    hide *;
    var opt := PlainOptions("", "d", "", "", -1, 0, "", "", Options("", "", false));
    r := runner.PlainLine("x", opt, 1);
    NegativePageMoves(opt, runner.EffectiveMaxChunkIDLen(), runner.world.letterOrDigit);
    StableIdsDiffer("d", -1, 0, "d", 0, 0);
  }

  lemma NegativePageMoves(opt: PlainOptions, maxLen: nat, letterOrDigit: char -> bool)
    requires opt.chunkID == "" && opt.docID == "d" && opt.pageNo == -1
    ensures var r := PlainRecord("x", opt, 1, maxLen, letterOrDigit);
      r.Ok? && r.value.pageNo == 0 && r.value.chunkID == StableChunkID("d", -1, 0)
  {
    hide TrimSpace, Preimage, Sanitized, Encode;
    ShortTrims();
  }

  lemma ShortTrims()
    ensures TrimSpace("") == "" && TrimSpace("d") == "d" && TrimSpace("x") == "x"
  {
    hide TrimSpace;
    assert !IsSpace('d') && !IsSpace('x');
    NoSpacesTrim("");
    NoSpacesTrim("d");
    NoSpacesTrim("x");
  }
}
