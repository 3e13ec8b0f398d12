/**
 What a run of the ingest runner comes to, as a function of the chunks and of what its surroundings decide: slice by
 slice, how many chunks Milvus accepts, how many are counted, and where the calls to the server stand.
 */
module BatchRuns {
  import opened Text
  import opened ChunkIds
  import opened Embedding
  import opened MilvusWrites
  import EntityDocs

  datatype Options = Options(jobID: string, taskID: string, flush: bool)

  /** The entity index, if there is one: how its bulk request for a batch turns out, and how keys and extra information are read. */
  datatype Index = NoIndex | Index(bulk: seq<TextChunkLine> -> bool, lower: string -> string, parse: string -> map<string, string>)

  /** What the runner's surroundings do: the embedding service, the entity index, the final flush; and its configuration. */
  datatype World = World(service: Service, embedBatch: nat, dim: int, es: Index, flushed: bool,
                         maxChunkIDLen: int, letterOrDigit: char -> bool)

  /** Everything that decides a run; `vec` gives the vectors of an honest embedding service. */
  datatype Setting = Setting(world: World, server: Server, insertBatch: nat, opt: Options, vec: string -> Vec)
  {
    predicate Sane() {
      world.embedBatch > 0 && insertBatch > 0
    }
  }

  function EntityOf(row: TextChunkLine, vec: Vec, jobID: string, taskID: string): ChunkEntity {
    ChunkEntity(row.chunkID, TrimSpace(row.docID), TrimSpace(row.title), TrimSpace(row.url), vec, row.offset,
                if row.pageNo < 0 then 0 else row.pageNo, row.sourceType, row.lang, OrDefault(row.jobID, jobID),
                OrDefault(row.taskID, taskID), row.extraInfo, row.createdMs, row.updatedMs)
  }

  /** The rows of a batch as they are written: the fields of the chunks, each with the vector of its own text. */
  function Entities(s: Setting, batch: seq<TextChunkLine>): (r: seq<ChunkEntity>)
    ensures |r| == |batch|
    ensures forall i :: 0 <= i < |r| ==> r[i] == EntityOf(batch[i], s.vec(batch[i].text), s.opt.jobID, s.opt.taskID)
  {
    seq(|batch|, i requires 0 <= i < |batch| => EntityOf(batch[i], s.vec(batch[i].text), s.opt.jobID, s.opt.taskID))
  }

  /** The rows that ought to be in the collection for these chunks. */
  function Stored(s: Setting, rows: seq<TextChunkLine>): (r: seq<ChunkEntity>)
    ensures |r| == |rows|
  {
    Canonicals(Entities(s, rows))
  }

  lemma StoredConcat(s: Setting, a: seq<TextChunkLine>, b: seq<TextChunkLine>)
    ensures Stored(s, a + b) == Stored(s, a) + Stored(s, b)
  {
    hide EntityOf, Canonical;
    assert Entities(s, a + b) == Entities(s, a) + Entities(s, b);
    CanonicalsConcat(Entities(s, a), Entities(s, b));
  }

  lemma StoredPrefix(s: Setting, rows: seq<TextChunkLine>, k: nat)
    requires k <= |rows|
    ensures Canonicals(Entities(s, rows)[..k]) == Stored(s, rows[..k])
  {
    hide EntityOf, Canonical, Canonicals;
    assert Entities(s, rows)[..k] == Entities(s, rows[..k]);
  }

  function Texts(batch: seq<TextChunkLine>): (r: seq<string>)
    ensures |r| == |batch| && forall i :: 0 <= i < |r| ==> r[i] == batch[i].text
  {
    seq(|batch|, i requires 0 <= i < |batch| => batch[i].text)
  }

  /** All embedding requests of the batch are answered, with vectors of the expected dimension. */
  ghost predicate Embeds(s: Setting, batch: seq<TextChunkLine>)
    requires s.Sane()
  {
    && Answered(Texts(batch), s.world.embedBatch, s.world.service, 0)
    && forall i :: 0 <= i < |batch| ==> s.world.dim <= 0 || |s.vec(batch[i].text)| == s.world.dim
  }

  function ContextOf(es: Index, opt: Options): EntityDocs.Context
    requires es.Index?
  {
    EntityDocs.Context(es.lower, es.parse, opt.jobID, opt.taskID)
  }

  /** Some chunk of the batch has a usable key. */
  ghost predicate HasKeys(batch: seq<TextChunkLine>, ctx: EntityDocs.Context) {
    exists c, k :: EntityDocs.KeyOf(k, batch, c, ctx)
  }

  /** Without an index nothing can fail; with one, the batch must be acceptable, and its documents, if any, must get through. */
  ghost predicate GetsIndexed(s: Setting, batch: seq<TextChunkLine>) {
    s.world.es.Index? ==>
      EntityDocs.Acceptable(batch) && (HasKeys(batch, ContextOf(s.world.es, s.opt)) ==> s.world.es.bulk(batch))
  }

  lemma DocsMeanKeys(docs: seq<EntityDocs.Doc>, batch: seq<TextChunkLine>, ctx: EntityDocs.Context)
    requires EntityDocs.AreDocs(docs, batch, ctx)
    ensures docs != [] <==> HasKeys(batch, ctx)
  {
    hide EntityDocs.Feeds, EntityDocs.FromFirst, EntityDocs.IsMin, EntityDocs.IsMax, EntityDocs.KeyOf, TrimSpace;
    if docs != [] {
      var d := docs[0];
      assert d in docs && EntityDocs.IsDoc(d, batch, ctx);
      assert d.entityKeys[0] in EntityDocs.AccOf(d).keys;
      assert EntityDocs.KeyOf(d.entityKeys[0], batch, d.chunkID, ctx);
    }
  }

  // ---------------------------------------------------------------- one batch

  datatype BatchRun = BatchRun(accepted: nat, ok: bool, conn: Conn)

  /** A batch is embedded, written, and indexed; it counts only if all of that succeeds. */
  ghost function RunOfBatch(s: Setting, batch: seq<TextChunkLine>, c: Conn): (b: BatchRun)
    requires s.Sane()
    ensures b.accepted <= |batch| && (b.ok ==> b.accepted == |batch|)
  {
    if batch == [] then BatchRun(0, true, c)
    else if !Embeds(s, batch) then BatchRun(0, false, c)
    else
      var o := WriteOutcome(s.server, c, Entities(s, batch), s.insertBatch);
      BatchRun(o.done, o.done == |batch| && GetsIndexed(s, batch), o.conn)
  }

  function Counted(b: BatchRun, batch: seq<TextChunkLine>): nat {
    if b.ok then |batch| else 0
  }

  /**
   A batch is miscounted if and only if it is embedded, its first rows are accepted, and then a later insert fails or
   the entity index does.
   */
  lemma MiscountedBatch(s: Setting, batch: seq<TextChunkLine>, c: Conn)
    requires s.Sane() && batch != []
    ensures var b, o := RunOfBatch(s, batch, c), WriteOutcome(s.server, c, Entities(s, batch), s.insertBatch);
      Counted(b, batch) != b.accepted <==> Embeds(s, batch) && o.done > 0 && (o.done < |batch| || !GetsIndexed(s, batch))
  {
    hide Embeds, Entities, WriteOutcome;
  }

  /** With an entity index, a batch whose document ids conflict or are missing never counts, however much of it is accepted. */
  lemma ConflictNeverCounts(s: Setting, batch: seq<TextChunkLine>, c: Conn)
    requires s.Sane() && s.world.es.Index? && !EntityDocs.Acceptable(batch)
    ensures var b, o := RunOfBatch(s, batch, c), WriteOutcome(s.server, c, Entities(s, batch), s.insertBatch);
      && Counted(b, batch) == 0 && !b.ok
      && (Embeds(s, batch) ==> b.accepted == o.done)
      && (Embeds(s, batch) && o.done > 0 ==> Counted(b, batch) != b.accepted)
  {
    hide Embeds, Entities, WriteOutcome;
    EmptyIsAcceptable();
    hide EntityDocs.Acceptable;
  }

  /** A batch without entity keys gets past the entity index, whatever its bulk request would do. */
  lemma IndexNotAsked(s: Setting, batch: seq<TextChunkLine>)
    requires forall row :: row in batch ==> row.entityKeys == []
    ensures GetsIndexed(s, batch)
  {
  }

  lemma EmptyIsAcceptable()
    ensures EntityDocs.Acceptable([])
  {
  }

  // ---------------------------------------------------------------- slice by slice

  datatype SlicesRun = SlicesRun(counted: nat, accepted: nat, ok: bool, conn: Conn)

  /** The chunks in slices of `size`, up to the first slice that fails. */
  ghost function RunOfSlices(s: Setting, rows: seq<TextChunkLine>, size: nat, c: Conn): (r: SlicesRun)
    requires s.Sane() && size > 0
    ensures r.counted <= r.accepted <= |rows| && (r.ok ==> r.counted == |rows|)
    decreases |rows|
  {
    if rows == [] then SlicesRun(0, 0, true, c)
    else
      var batch := Batch(rows, size, 0);
      var b := RunOfBatch(s, batch, c);
      if !b.ok then SlicesRun(0, b.accepted, false, b.conn)
      else After(|batch|, RunOfSlices(s, rows[|batch|..], size, b.conn))
  }

  /** A run behind `n` chunks that were accepted and counted. */
  function After(n: nat, r: SlicesRun): SlicesRun {
    SlicesRun(n + r.counted, n + r.accepted, r.ok, r.conn)
  }

  /** What the first failing slice comes to. */
  ghost function Failing(s: Setting, rows: seq<TextChunkLine>, size: nat, c: Conn): (b: BatchRun)
    requires s.Sane() && size > 0 && !RunOfSlices(s, rows, size, c).ok
    ensures !b.ok
    decreases |rows|
  {
    var batch := Batch(rows, size, 0);
    var b := RunOfBatch(s, batch, c);
    if !b.ok then b else Failing(s, rows[|batch|..], size, b.conn)
  }

  /** The chunks counted are the chunks accepted, if and only if no slice fails or the one that fails had none accepted. */
  lemma {:induction false} CountedIsAccepted(s: Setting, rows: seq<TextChunkLine>, size: nat, c: Conn)
    requires s.Sane() && size > 0
    ensures var r := RunOfSlices(s, rows, size, c);
      && (r.counted == r.accepted <==> r.ok || Failing(s, rows, size, c).accepted == 0)
      && (!r.ok ==> r.accepted == r.counted + Failing(s, rows, size, c).accepted && r.conn == Failing(s, rows, size, c).conn)
    decreases |rows|
  {
    hide RunOfBatch;
    if rows != [] {
      var batch := Batch(rows, size, 0);
      var b := RunOfBatch(s, batch, c);
      if b.ok {
        CountedIsAccepted(s, rows[|batch|..], size, b.conn);
      }
    }
  }

  /** The slice that fails is the one behind the chunks counted, and it is run where running these leaves the calls. */
  lemma {:induction false} FailingIsNext(s: Setting, rows: seq<TextChunkLine>, size: nat, c: Conn)
    requires s.Sane() && size > 0 && !RunOfSlices(s, rows, size, c).ok
    ensures var n := RunOfSlices(s, rows, size, c).counted;
      && n < |rows| && RunOfSlices(s, rows[..n], size, c).ok
      && Failing(s, rows, size, c) == RunOfBatch(s, Batch(rows, size, n), RunOfSlices(s, rows[..n], size, c).conn)
    decreases |rows|
  {
    hide RunOfBatch;
    var batch := Batch(rows, size, 0);
    var b := RunOfBatch(s, batch, c);
    if b.ok {
      var rest := rows[|batch|..];
      FailingIsNext(s, rest, size, b.conn);
      var n := RunOfSlices(s, rest, size, b.conn).counted;
      assert Batch(rest, size, n) == Batch(rows, size, |batch| + n);
      var head := rows[..|batch| + n];
      assert Batch(head, size, 0) == batch && head[|batch|..] == rest[..n];
    } else {
      assert rows[..0] == [];
    }
  }

  /**
   For a whole run: the chunks counted are not the chunks accepted if and only if the slice behind the counted ones, where
   running these leaves the calls, is embedded, its first rows are accepted, and then a later insert of it or its entity
   index fails.
   */
  lemma MiscountedRun(s: Setting, rows: seq<TextChunkLine>, size: nat, c: Conn)
    requires s.Sane() && size > 0
    ensures var r := RunOfSlices(s, rows, size, c);
      var slice, at := Batch(rows, size, r.counted), RunOfSlices(s, rows[..r.counted], size, c).conn;
      var o := WriteOutcome(s.server, at, Entities(s, slice), s.insertBatch);
      r.counted != r.accepted
      <==> slice != [] && Embeds(s, slice) && o.done > 0 && (o.done < |slice| || !GetsIndexed(s, slice))
  {
    hide RunOfBatch, RunOfSlices, Failing, WriteOutcome, Embeds, Entities, GetsIndexed;
    CountedIsAccepted(s, rows, size, c);
    var r := RunOfSlices(s, rows, size, c);
    if !r.ok {
      FailingIsNext(s, rows, size, c);
      MiscountedBatch(s, Batch(rows, size, r.counted), RunOfSlices(s, rows[..r.counted], size, c).conn);
    }
  }

  /** If every service does its part, everything is counted and accepted, and nothing is lost. */
  lemma {:induction false} ReliableRun(s: Setting, rows: seq<TextChunkLine>, size: nat, c: Conn)
    requires s.Sane() && size > 0
    requires (forall n :: s.server.reply(n).Accepted?) && (forall n :: s.server.ensured(n)) && s.server.partitionReady
    requires (forall e :: s.server.storable(e)) && (forall batch :: Embeds(s, batch)) && forall batch :: GetsIndexed(s, batch)
    ensures var r := RunOfSlices(s, rows, size, c);
      r.ok && r.counted == r.accepted == |rows| && !Missed(s.server, c.writes, r.conn.writes)
    decreases |rows|
  {
    hide Embeds, Entities, BatchesOutcome;
    if rows != [] {
      var batch := Batch(rows, size, 0);
      var made := if c.ready then c else Conn(c.writes, c.ensures_ + 1, true);
      AllAccepting(s.server, made, |batch|, s.insertBatch);
      var b := RunOfBatch(s, batch, c);
      assert b.ok;
      ReliableRun(s, rows[|batch|..], size, b.conn);
    }
  }

  // ---------------------------------------------------------------- whole slices

  /** What is left of `n` when whole slices are taken off. */
  function Rest(n: nat, size: nat): (r: nat)
    requires size > 0
    ensures r <= n && r < size
  {
    if n < size then n else Rest(n - size, size)
  }

  ghost predicate Whole(n: nat, size: nat)
    requires size > 0
  {
    Rest(n, size) == 0
  }

  lemma WholeStep(n: nat, size: nat)
    requires size > 0 && Whole(n, size) && n > 0
    ensures n >= size && Whole(n - size, size)
  {
  }

  lemma {:induction false} WholeSum(m: nat, n: nat, size: nat)
    requires size > 0 && Whole(m, size)
    ensures Rest(m + n, size) == Rest(n, size)
  {
    if m > 0 {
      WholeSum(m - size, n, size);
    }
  }

  lemma {:induction false} WholeWithoutRest(n: nat, size: nat)
    requires size > 0
    ensures Whole(n - Rest(n, size), size)
  {
    if n >= size {
      WholeWithoutRest(n - size, size);
    }
  }

  /** Running on behind whole slices is running them, and then the rest if they succeed. */
  lemma {:induction false} SlicesConcat(s: Setting, a: seq<TextChunkLine>, b: seq<TextChunkLine>, size: nat, c: Conn)
    requires s.Sane() && size > 0 && Whole(|a|, size)
    ensures var r := RunOfSlices(s, a, size, c);
      RunOfSlices(s, a + b, size, c) == if r.ok then After(|a|, RunOfSlices(s, b, size, r.conn)) else r
    decreases |a|
  {
    hide RunOfBatch, Whole;
    if a == [] {
      assert a + b == b;
    } else {
      WholeStep(|a|, size);
      var batch := Batch(a, size, 0);
      assert |batch| == size && Batch(a + b, size, 0) == batch;
      var run := RunOfBatch(s, batch, c);
      if run.ok {
        SlicesConcat(s, a[size..], b, size, run.conn);
        assert (a + b)[size..] == a[size..] + b;
      }
    }
  }

  /** One slice, full or not. */
  lemma OneSlice(s: Setting, batch: seq<TextChunkLine>, size: nat, c: Conn)
    requires s.Sane() && size > 0 && |batch| <= size
    ensures var b := RunOfBatch(s, batch, c);
      RunOfSlices(s, batch, size, c) == SlicesRun(Counted(b, batch), b.accepted, b.ok, b.conn)
  {
    if batch != [] {
      assert Batch(batch, size, 0) == batch && batch[|batch|..] == [];
    }
  }

  lemma NoSlices(s: Setting, size: nat, c: Conn)
    requires s.Sane() && size > 0
    ensures RunOfSlices(s, [], size, c) == SlicesRun(0, 0, true, c)
  {
  }

  /** The chunks that fill whole slices. */
  function FullSlices(rows: seq<TextChunkLine>, size: nat): (r: seq<TextChunkLine>)
    requires size > 0
    ensures r <= rows
  {
    rows[..|rows| - Rest(|rows|, size)]
  }

  lemma FullSlicesMean(a: seq<TextChunkLine>, b: seq<TextChunkLine>, size: nat)
    requires size > 0 && Whole(|a|, size)
    ensures |b| < size ==> FullSlices(a + b, size) == a
    ensures a <= FullSlices(a + b, size) && Whole(|FullSlices(a + b, size)|, size)
  {
    WholeSum(|a|, |b|, size);
    WholeWithoutRest(|a + b|, size);
  }
}
