/**
 Writing rows to Milvus: the collection is made ready once, rows are sent in batches as columns, and a batch is
 tried a second time if the collection turned out to be missing.
 */
module MilvusWrites {
  import opened Text
  import opened ChunkIds
  import opened Embedding

  datatype ChunkEntity = ChunkEntity(
    chunkID: ChunkId, docID: string, title: string, url: string, embedding: Vec, offset: int, pageNo: int,
    sourceType: string, lang: string, jobID: string, taskID: string, extraInfo: string,
    createdTime: int, updatedTime: int)

  datatype Columns = Columns(
    ids: seq<ChunkId>, docs: seq<string>, titles: seq<string>, urls: seq<string>, vecs: seq<Vec>,
    offsets: seq<int>, pageNos: seq<int>, src: seq<string>, langs: seq<string>, jobs: seq<string>,
    tasks: seq<string>, extras: seq<string>, created: seq<int>, updated: seq<int>)
  {
    ghost predicate Full(n: nat) {
      && |ids| == |docs| == |titles| == |urls| == |vecs| == |offsets| == |pageNos| == n
      && |src| == |langs| == |jobs| == |tasks| == |extras| == |created| == |updated| == n
    }

    /** The row that the columns hold at position `i`. */
    function Row(i: nat): ChunkEntity
      requires Full(|ids|) && i < |ids|
    {
      ChunkEntity(ids[i], docs[i], titles[i], urls[i], vecs[i], offsets[i], pageNos[i], src[i], langs[i], jobs[i],
                  tasks[i], extras[i], created[i], updated[i])
    }
  }

  /** A row as it is stored: text trimmed, and an object for missing extra information. */
  function Canonical(e: ChunkEntity): ChunkEntity {
    var extra := TrimSpace(e.extraInfo);
    ChunkEntity(TrimID(e.chunkID), TrimSpace(e.docID), TrimSpace(e.title), TrimSpace(e.url), e.embedding,
                e.offset, e.pageNo, TrimSpace(e.sourceType), TrimSpace(e.lang), TrimSpace(e.jobID), TrimSpace(e.taskID),
                if extra == "" then "{}" else extra, e.createdTime, e.updatedTime)
  }

  function Canonicals(rows: seq<ChunkEntity>): (r: seq<ChunkEntity>)
    ensures |r| == |rows| && forall i :: 0 <= i < |r| ==> r[i] == Canonical(rows[i])
  {
    seq(|rows|, i requires 0 <= i < |rows| => Canonical(rows[i]))
  }

  lemma CanonicalsConcat(a: seq<ChunkEntity>, b: seq<ChunkEntity>)
    ensures Canonicals(a + b) == Canonicals(a) + Canonicals(b)
  {
    hide Canonical;
  }

  /** The columns hold the rows, in order, every row with its own vector. */
  method ChunkColumns(rows: seq<ChunkEntity>) returns (c: Columns)
    ensures c.Full(|rows|) && forall i :: 0 <= i < |rows| ==> c.Row(i) == Canonical(rows[i])
  {
    hide TrimSpace;
    c := Columns([], [], [], [], [], [], [], [], [], [], [], [], [], []);
    for i := 0 to |rows|
      invariant c.Full(i) && forall k :: 0 <= k < i ==> c.Row(k) == Canonical(rows[k])
    {
      var r := rows[i];
      var extra := TrimSpace(r.extraInfo);
      if extra == "" {
        extra := "{}";
      }
      ghost var was := c;
      c := Columns(
        c.ids + [TrimID(r.chunkID)], c.docs + [TrimSpace(r.docID)], c.titles + [TrimSpace(r.title)], c.urls + [TrimSpace(r.url)],
        c.vecs + [r.embedding], c.offsets + [r.offset], c.pageNos + [r.pageNo], c.src + [TrimSpace(r.sourceType)],
        c.langs + [TrimSpace(r.lang)], c.jobs + [TrimSpace(r.jobID)], c.tasks + [TrimSpace(r.taskID)], c.extras + [extra],
        c.created + [r.createdTime], c.updated + [r.updatedTime]);
      assert c.Row(i) == Canonical(r);
      forall k | 0 <= k < i ensures c.Row(k) == Canonical(rows[k]) {
        assert c.Row(k) == was.Row(k);
      }
    }
  }

  function RowsOf(c: Columns, n: nat): (r: seq<ChunkEntity>)
    requires c.Full(|c.ids|) && n <= |c.ids|
    ensures |r| == n && forall i :: 0 <= i < n ==> r[i] == c.Row(i)
  {
    if n == 0 then [] else RowsOf(c, n - 1) + [c.Row(n - 1)]
  }

  // ---------------------------------------------------------------- the repository

  /** What the server says to a write; `NotFound` means that the collection, and all that was in it, is gone. */
  datatype Reply = Accepted | NotFound | Refused

  datatype Server = Server(reply: nat -> Reply, ensured: nat -> bool, partitionReady: bool, storable: ChunkEntity -> bool)

  /** A write that was sent: the rows of the batch that starts at row `start`. */
  datatype Rpc = Rpc(start: nat, rows: seq<ChunkEntity>, reply: Reply)

  /** What the collection holds after some writes: a collection that was gone has been created again, empty. */
  ghost function Contents(before: seq<ChunkEntity>, rpcs: seq<Rpc>): seq<ChunkEntity> {
    if rpcs == [] then before
    else
      var c := Contents(before, rpcs[..|rpcs| - 1]);
      var last := rpcs[|rpcs| - 1];
      match last.reply
      case Accepted => c + last.rows
      case NotFound => []
      case Refused => c
  }

  /** The rows that were accepted, in order. */
  ghost function AcceptedRows(rpcs: seq<Rpc>): seq<ChunkEntity> {
    if rpcs == [] then []
    else AcceptedRows(rpcs[..|rpcs| - 1]) + if rpcs[|rpcs| - 1].reply.Accepted? then rpcs[|rpcs| - 1].rows else []
  }

  ghost predicate NoneEmpty(rpcs: seq<Rpc>) {
    forall k :: 0 <= k < |rpcs| ==> rpcs[k].rows != []
  }

  /** The collection was gone at some point. */
  ghost predicate Dropped(rpcs: seq<Rpc>) {
    exists k :: 0 <= k < |rpcs| && rpcs[k].reply.NotFound?
  }

  /** The collection was gone after it had accepted rows. */
  ghost predicate DroppedLate(rpcs: seq<Rpc>) {
    exists i, k :: 0 <= i < k < |rpcs| && rpcs[i].reply.Accepted? && rpcs[k].reply.NotFound?
  }

  lemma NoRpcs(before: seq<ChunkEntity>)
    ensures Contents(before, []) == before && AcceptedRows([]) == []
  {
  }

  lemma RpcStep(before: seq<ChunkEntity>, rpcs: seq<Rpc>, rpc: Rpc)
    ensures var more, c := rpcs + [rpc], Contents(before, rpcs);
      && Contents(before, more) == (match rpc.reply case Accepted => c + rpc.rows case NotFound => [] case Refused => c)
      && AcceptedRows(more) == AcceptedRows(rpcs) + if rpc.reply.Accepted? then rpc.rows else []
  {
    assert (rpcs + [rpc])[..|rpcs|] == rpcs;
  }

  lemma {:induction false} ContentsConcat(before: seq<ChunkEntity>, a: seq<Rpc>, b: seq<Rpc>)
    ensures Contents(before, a + b) == Contents(Contents(before, a), b)
    ensures AcceptedRows(a + b) == AcceptedRows(a) + AcceptedRows(b)
  {
    hide Contents, AcceptedRows;
    NoRpcs(Contents(before, a));
    if b == [] {
      assert a + b == a;
    } else {
      var init, last := b[..|b| - 1], b[|b| - 1];
      ContentsConcat(before, a, init);
      RpcStep(before, a + init, last);
      RpcStep(Contents(before, a), init, last);
      assert init + [last] == b && (a + init) + [last] == a + b;
    }
  }

  ghost predicate SomeAccepted(rpcs: seq<Rpc>) {
    exists k :: 0 <= k < |rpcs| && rpcs[k].reply.Accepted?
  }

  /** How the last reply bears on what was accepted and dropped. */
  lemma LastReply(rpcs: seq<Rpc>)
    requires rpcs != []
    ensures var init, last := rpcs[..|rpcs| - 1], rpcs[|rpcs| - 1].reply;
      && (Dropped(rpcs) <==> Dropped(init) || last.NotFound?)
      && (DroppedLate(rpcs) <==> DroppedLate(init) || (last.NotFound? && SomeAccepted(init)))
      && (SomeAccepted(rpcs) <==> SomeAccepted(init) || last.Accepted?)
  {
    var n := |rpcs| - 1;
    var init := rpcs[..n];
    assert forall k :: 0 <= k < n ==> init[k] == rpcs[k];
  }

  lemma NothingDropped()
    ensures !Dropped([]) && !DroppedLate([]) && !SomeAccepted([])
  {
  }

  lemma {:induction false} ContentsMean(before: seq<ChunkEntity>, rpcs: seq<Rpc>)
    requires NoneEmpty(rpcs)
    ensures !Dropped(rpcs) ==> Contents(before, rpcs) == before + AcceptedRows(rpcs)
    ensures Dropped(rpcs) && !DroppedLate(rpcs) ==> Contents(before, rpcs) == AcceptedRows(rpcs)
    ensures DroppedLate(rpcs) ==> |Contents(before, rpcs)| < |AcceptedRows(rpcs)|
    ensures AcceptedRows(rpcs) != [] <==> SomeAccepted(rpcs)
  {
    hide Contents, AcceptedRows, Dropped, DroppedLate, SomeAccepted;
    if rpcs == [] {
      NoRpcs(before);
      NothingDropped();
    } else {
      var init, last := rpcs[..|rpcs| - 1], rpcs[|rpcs| - 1];
      ContentsMean(before, init);
      LastReply(rpcs);
      assert init + [last] == rpcs && last.rows != [];
      RpcStep(before, init, last);
    }
  }

  ghost predicate EndsWith(s: seq<ChunkEntity>, rows: seq<ChunkEntity>) {
    exists head :: s == head + rows
  }

  /** The accepted rows are all in the collection, behind what was there, if and only if it was not dropped after accepting. */
  lemma AllThere(before: seq<ChunkEntity>, rpcs: seq<Rpc>)
    requires NoneEmpty(rpcs)
    ensures EndsWith(Contents(before, rpcs), AcceptedRows(rpcs)) <==> !DroppedLate(rpcs)
    ensures !Dropped(rpcs) ==> Contents(before, rpcs) == before + AcceptedRows(rpcs)
  {
    ContentsMean(before, rpcs);
    if !DroppedLate(rpcs) {
      assert Contents(before, rpcs) == (if Dropped(rpcs) then [] else before) + AcceptedRows(rpcs);
    }
  }

  /** How many writes were sent for the batch at `start`. */
  ghost function Tries(rpcs: seq<Rpc>, start: nat): nat {
    if rpcs == [] then 0
    else Tries(rpcs[..|rpcs| - 1], start) + if rpcs[|rpcs| - 1].start == start then 1 else 0
  }

  lemma TriesStep(rpcs: seq<Rpc>, rpc: Rpc, start: nat)
    ensures Tries(rpcs + [rpc], start) == Tries(rpcs, start) + if rpc.start == start then 1 else 0
  {
    assert (rpcs + [rpc])[..|rpcs|] == rpcs;
  }

  lemma ColumnsHold(c: Columns, batch: seq<ChunkEntity>)
    requires c.Full(|batch|) && forall i :: 0 <= i < |batch| ==> c.Row(i) == Canonical(batch[i])
    ensures c.Full(|c.ids|) && RowsOf(c, |c.ids|) == Canonicals(batch)
  {
    hide Canonical;
  }

  // ---------------------------------------------------------------- what the server decides

  /** How far the calls to the server have come: writes, attempts to make the collection ready, and the ready flag. */
  datatype Conn = Conn(writes: nat, ensures_: nat, ready: bool)

  /** How many rows were accepted, and where that leaves the calls. */
  datatype Outcome = Outcome(done: nat, conn: Conn)

  /** One batch: a second write only if the collection was gone and could be created again. */
  function BatchOutcome(server: Server, c: Conn): (bool, Conn) {
    match server.reply(c.writes)
    case Accepted => (true, c.(writes := c.writes + 1))
    case Refused => (false, c.(writes := c.writes + 1))
    case NotFound =>
      if !server.ensured(c.ensures_) then (false, Conn(c.writes + 1, c.ensures_ + 1, false))
      else (server.reply(c.writes + 1).Accepted?, Conn(c.writes + 2, c.ensures_ + 1, true))
  }

  /** `left` rows in batches of `size`, up to the first batch that fails. */
  function BatchesOutcome(server: Server, c: Conn, left: nat, size: nat): (o: Outcome)
    requires size > 0
    ensures o.done <= left && c.writes <= o.conn.writes
    decreases left
  {
    if left == 0 then Outcome(0, c)
    else
      var m := if left < size then left else size;
      var (ok, next) := BatchOutcome(server, c);
      if !ok then Outcome(0, next)
      else
        var o := BatchesOutcome(server, next, left - m, size);
        Outcome(m + o.done, o.conn)
  }

  ghost predicate AllStorable(server: Server, rows: seq<ChunkEntity>) {
    forall i :: 0 <= i < |rows| ==> server.storable(rows[i])
  }

  ghost function WriteOutcome(server: Server, c: Conn, rows: seq<ChunkEntity>, size: nat): (o: Outcome)
    requires size > 0
    ensures o.done <= |rows| && c.writes <= o.conn.writes
  {
    if rows == [] then Outcome(0, c)
    else if !c.ready && !server.ensured(c.ensures_) then Outcome(0, c.(ensures_ := c.ensures_ + 1))
    else
      var made := if c.ready then c else Conn(c.writes, c.ensures_ + 1, true);
      if !server.partitionReady || !AllStorable(server, rows) then Outcome(0, made)
      else BatchesOutcome(server, made, |rows|, size)
  }

  /** Some reply in `[from, upto)` says that the collection was gone. */
  ghost predicate Missed(server: Server, from: nat, upto: nat) {
    exists k :: from <= k < upto && server.reply(k).NotFound?
  }

  /** Some reply in `[from, upto)` says so behind one that accepted rows. */
  ghost predicate Lost(server: Server, from: nat, upto: nat) {
    exists i, k :: from <= i < k < upto && server.reply(i).Accepted? && server.reply(k).NotFound?
  }

  /** The writes from number `from` on were answered by the server. */
  ghost predicate Replied(server: Server, from: nat, rpcs: seq<Rpc>) {
    forall k :: 0 <= k < |rpcs| ==> rpcs[k].reply == server.reply(from + k)
  }

  lemma DroppedMeans(server: Server, from: nat, rpcs: seq<Rpc>)
    requires Replied(server, from, rpcs)
    ensures Dropped(rpcs) <==> Missed(server, from, from + |rpcs|)
    ensures DroppedLate(rpcs) <==> Lost(server, from, from + |rpcs|)
  {
    if k :| from <= k < from + |rpcs| && server.reply(k).NotFound? {
      assert rpcs[k - from].reply.NotFound?;
    }
    if i, k :| from <= i < k < from + |rpcs| && server.reply(i).Accepted? && server.reply(k).NotFound? {
      assert rpcs[i - from].reply.Accepted? && rpcs[k - from].reply.NotFound?;
    }
  }

  class Repository {
    const server: Server
    const insertBatch: nat
    var lazyWriteEnsured: bool
    var ensures_: nat
    var writes: nat
    /** The rows in the collection. */
    var stored: seq<ChunkEntity>
    /** Every write that was sent, with its reply. */
    ghost var log: seq<Rpc>

    ghost predicate Valid()
      reads this
    {
      insertBatch > 0 && |log| == writes && Replied(server, 0, log)
    }

    function State(): Conn
      reads this
    {
      Conn(writes, ensures_, lazyWriteEnsured)
    }

    constructor (server: Server, insertBatch: int)
      ensures Valid() && this.server == server && this.insertBatch == (if insertBatch <= 0 then 512 else insertBatch)
      ensures State() == Conn(0, 0, false) && stored == [] && log == []
    {
      this.server := server;
      this.insertBatch := if insertBatch <= 0 then 512 else insertBatch;
      lazyWriteEnsured := false;
      ensures_, writes := 0, 0;
      stored, log := [], [];
    }

    /** Once the collection was made ready, a writer does not do it again until the flag is cleared. */
    method RunEnsureCollection(skipIfReady: bool) returns (ok: bool)
      modifies `lazyWriteEnsured, `ensures_
      ensures skipIfReady && old(lazyWriteEnsured) ==> ok && ensures_ == old(ensures_)
      ensures !(skipIfReady && old(lazyWriteEnsured)) ==> ok == server.ensured(old(ensures_)) && ensures_ == old(ensures_) + 1
      ensures lazyWriteEnsured == ok
    {
      if skipIfReady && lazyWriteEnsured {
        return true;
      }
      ok := server.ensured(ensures_);
      ensures_ := ensures_ + 1;
      lazyWriteEnsured := ok;
    }

    method InvalidateWriteCache()
      modifies `lazyWriteEnsured
      ensures !lazyWriteEnsured
    {
      lazyWriteEnsured := false;
    }

    /** One write: the server takes the rows of the columns, or refuses them, or has lost the collection. */
    method Send(c: Columns, ghost start: nat) returns (reply: Reply)
      requires Valid() && c.Full(|c.ids|)
      modifies `writes, `stored, `log
      ensures Valid() && writes == old(writes) + 1 && reply == server.reply(old(writes))
      ensures log == old(log) + [Rpc(start, RowsOf(c, |c.ids|), reply)]
      ensures stored == match reply case Accepted => old(stored) + RowsOf(c, |c.ids|) case NotFound => [] case Refused => old(stored)
    {
      reply := server.reply(writes);
      writes := writes + 1;
      log := log + [Rpc(start, RowsOf(c, |c.ids|), reply)];
      match reply {
        case Accepted =>
          stored := stored + RowsOf(c, |c.ids|);
        case NotFound =>
          stored := [];
        case Refused =>
      }
    }

    /** At most two writes, the second only when the collection was gone; the rows are accepted once, or not at all. */
    method WriteBatch(batch: seq<ChunkEntity>, ghost start: nat) returns (ok: bool, ghost rpcs: seq<Rpc>)
      requires Valid()
      modifies this
      ensures Valid() && log == old(log) + rpcs
      ensures stored == Contents(old(stored), rpcs) && AcceptedRows(rpcs) == if ok then Canonicals(batch) else []
      ensures (ok, State()) == BatchOutcome(server, old(State()))
      ensures 1 <= |rpcs| <= 2 && writes == old(writes) + |rpcs| && Replied(server, old(writes), rpcs)
      ensures forall k :: 0 <= k < |rpcs| ==> rpcs[k].start == start && rpcs[k].rows == Canonicals(batch)
      ensures |rpcs| == 2 ==> rpcs[0].reply.NotFound?
    {
      hide Canonical, Contents, AcceptedRows, RowsOf, Columns.Full, Columns.Row;
      var cols := ChunkColumns(batch);
      ColumnsHold(cols, batch);
      ghost var rows := Canonicals(batch);
      rpcs := [];
      ok := false;
      NoRpcs(stored);
      assert log + [] == log;
      var attempt := 0;
      while attempt < 2
        invariant 0 <= attempt <= 1 && |rpcs| == attempt && !ok && Valid()
        invariant stored == Contents(old(stored), rpcs) && AcceptedRows(rpcs) == [] && log == old(log) + rpcs
        invariant writes == old(writes) + attempt && Replied(server, old(writes), rpcs)
        invariant attempt == 0 ==> State() == old(State())
        invariant attempt == 1 ==> server.reply(old(writes)).NotFound? && server.ensured(old(ensures_))
        invariant attempt == 1 ==> State() == Conn(old(writes) + 1, old(ensures_) + 1, true)
        invariant forall k :: 0 <= k < attempt ==> rpcs[k].start == start && rpcs[k].rows == rows
        decreases 2 - attempt
      {
        var reply := Send(cols, start);
        RpcStep(old(stored), rpcs, Rpc(start, rows, reply));
        rpcs := rpcs + [Rpc(start, rows, reply)];
        if reply == Accepted {
          ok := true;
          break;
        }
        if attempt == 0 && reply == NotFound {
          InvalidateWriteCache();
          var again := RunEnsureCollection(true);
          if !again {
            return;
          }
          attempt := attempt + 1;
          continue;
        }
        return;
      }
    }

    method ValidateChunkEntities(rows: seq<ChunkEntity>) returns (ok: bool)
      ensures ok <==> AllStorable(server, rows)
    {
      for i := 0 to |rows|
        invariant forall k :: 0 <= k < i ==> server.storable(rows[k])
      {
        if !server.storable(rows[i]) {
          return false;
        }
      }
      ok := true;
    }

    /** The batches in order, up to the first one that fails. */
    method WriteBatches(rows: seq<ChunkEntity>) returns (ok: bool, ghost rpcs: seq<Rpc>)
      requires Valid() && lazyWriteEnsured
      modifies this
      ensures Valid() && log == old(log) + rpcs && writes == old(writes) + |rpcs|
      ensures var o := BatchesOutcome(server, old(State()), |rows|, insertBatch);
        && State() == o.conn && (ok <==> o.done == |rows|)
        && Written(server, old(writes), old(stored), stored, rows, insertBatch, o.done, rpcs)
      ensures ok ==> lazyWriteEnsured
      ensures rows != [] ==> rpcs != []
    {
      hide Canonicals, Canonical, Contents, AcceptedRows, BatchOutcome, BatchesOutcome, Replied, Written;
      rpcs, ok := [], true;
      NothingWritten(server, writes, stored, rows, insertBatch);
      assert log + [] == log;
      var start := 0;
      while start < |rows|
        invariant start <= |rows| && lazyWriteEnsured && ok && Valid() && log == old(log) + rpcs && writes == old(writes) + |rpcs|
        invariant Written(server, old(writes), old(stored), stored, rows, insertBatch, start, rpcs)
        invariant forall s :: s >= start ==> Tries(rpcs, s) == 0
        invariant start > 0 ==> rpcs != []
        invariant var o := BatchesOutcome(server, State(), |rows| - start, insertBatch);
          BatchesOutcome(server, old(State()), |rows|, insertBatch) == Outcome(start + o.done, o.conn)
      {
        var batch := Batch(rows, insertBatch, start);
        ghost var c, held := State(), stored;
        ghost var tried;
        ok, tried := WriteBatch(batch, start);
        BatchesStep(server, c, |rows| - start, insertBatch);
        Regroup(old(log), rpcs, tried);
        WrittenOn(server, old(writes), old(stored), held, stored, rows, insertBatch, start, rpcs, tried, ok);
        rpcs := rpcs + tried;
        if !ok {
          return;
        }
        start := start + |batch|;
      }
      NoneLeft(server, State(), insertBatch);
    }

    /**
     What the server decides is what happens: as many rows are accepted, in order and each once, all of them on success.
     On success they are all in the collection if and only if no reply said it was gone after one that had accepted rows.
     */
    method WriteChunks(rows: seq<ChunkEntity>) returns (ok: bool, ghost rpcs: seq<Rpc>)
      requires Valid()
      modifies this
      ensures Valid() && log == old(log) + rpcs
      ensures stored == Contents(old(stored), rpcs) && NoneEmpty(rpcs)
      ensures var o := WriteOutcome(server, old(State()), rows, insertBatch);
        && State() == o.conn && (ok <==> o.done == |rows|)
        && AcceptedRows(rpcs) == Canonicals(rows[..o.done])
      ensures writes == old(writes) + |rpcs| && Replied(server, old(writes), rpcs)
      ensures ok && !Missed(server, old(writes), writes) ==> stored == old(stored) + Canonicals(rows)
      ensures ok ==> (EndsWith(stored, Canonicals(rows)) <==> !Lost(server, old(writes), writes))
      ensures ok && rows != [] ==> lazyWriteEnsured && AllStorable(server, rows)
      ensures writes > old(writes) <==>
        && rows != [] && server.partitionReady && (forall i :: 0 <= i < |rows| ==> server.storable(rows[i]))
        && (old(lazyWriteEnsured) || server.ensured(old(ensures_)))
      ensures Batchwise(rpcs, rows, insertBatch)
    {
      hide Canonicals, Canonical, Contents, AcceptedRows, EndsWith, BatchesOutcome, Replied, Missed, Lost, Written,
        Batchwise, NoneEmpty, AllStorable;
      rpcs := [];
      ok := true;
      StorableMeans(server, rows);
      NothingWritten(server, writes, stored, rows, insertBatch);
      WrittenMeans(server, writes, stored, stored, rows, insertBatch, 0, rpcs);
      assert log + [] == log;
      if |rows| == 0 {
        return;
      }
      var ready := RunEnsureCollection(true);
      if !ready || !server.partitionReady {
        return false, rpcs;
      }
      var storable := ValidateChunkEntities(rows);
      if !storable {
        return false, rpcs;
      }
      ghost var made := State();
      ok, rpcs := WriteBatches(rows);
      WrittenMeans(server, old(writes), old(stored), stored, rows, insertBatch,
                   BatchesOutcome(server, made, |rows|, insertBatch).done, rpcs);
    }
  }

  lemma StorableMeans(server: Server, rows: seq<ChunkEntity>)
    ensures AllStorable(server, rows) <==> forall i :: 0 <= i < |rows| ==> server.storable(rows[i])
  {
  }

  /** Each write is of the whole batch it starts, and there are at most two of each batch. */
  ghost predicate Batchwise(rpcs: seq<Rpc>, rows: seq<ChunkEntity>, size: nat) {
    && (forall k :: 0 <= k < |rpcs| ==>
          rpcs[k].start < |rows| && rpcs[k].rows == Canonicals(Batch(rows, size, rpcs[k].start)))
    && forall start :: Tries(rpcs, start) <= 2
  }

  /** The batches before row `start` were accepted, by these writes. */
  ghost predicate Written(server: Server, from: nat, before: seq<ChunkEntity>, held: seq<ChunkEntity>, rows: seq<ChunkEntity>,
                          size: nat, start: nat, rpcs: seq<Rpc>)
  {
    && start <= |rows| && held == Contents(before, rpcs) && AcceptedRows(rpcs) == Canonicals(rows[..start])
    && NoneEmpty(rpcs) && Replied(server, from, rpcs) && Batchwise(rpcs, rows, size)
  }

  lemma NothingWritten(server: Server, from: nat, before: seq<ChunkEntity>, rows: seq<ChunkEntity>, size: nat)
    ensures Written(server, from, before, before, rows, size, 0, []) && forall s :: Tries([], s) == 0
  {
  }

  lemma WrittenOn(server: Server, from: nat, before: seq<ChunkEntity>, held: seq<ChunkEntity>, now: seq<ChunkEntity>,
                  rows: seq<ChunkEntity>, size: nat, start: nat, rpcs: seq<Rpc>, tried: seq<Rpc>, ok: bool)
    requires size > 0 && start < |rows| && Written(server, from, before, held, rows, size, start, rpcs)
    requires forall s :: s >= start ==> Tries(rpcs, s) == 0
    requires var batch := Batch(rows, size, start);
      && now == Contents(held, tried) && AcceptedRows(tried) == (if ok then Canonicals(batch) else [])
      && 1 <= |tried| <= 2 && Replied(server, from + |rpcs|, tried)
      && forall k :: 0 <= k < |tried| ==> tried[k].start == start && tried[k].rows == Canonicals(batch)
    ensures var next := if ok then start + |Batch(rows, size, start)| else start;
      && Written(server, from, before, now, rows, size, next, rpcs + tried)
      && forall s :: s > start ==> Tries(rpcs + tried, s) == 0
  {
    hide Canonicals, Tries, Canonical, Contents, AcceptedRows, Replied;
    var batch := Batch(rows, size, start);
    forall s ensures Tries(rpcs + tried, s) == Tries(rpcs, s) + if s == start then |tried| else 0 {
      TriesOfBatch(rpcs, tried, start, s);
    }
    ContentsConcat(before, rpcs, tried);
    CanonicalsLength(batch);
    RepliedConcat(server, from, rpcs, tried);
    BatchExtends(rows, size, start);
    CanonicalsConcat(rows[..start], batch);
  }

  /** What the writes come to, in terms of the replies. */
  lemma WrittenMeans(server: Server, from: nat, before: seq<ChunkEntity>, held: seq<ChunkEntity>, rows: seq<ChunkEntity>,
                     size: nat, start: nat, rpcs: seq<Rpc>)
    requires Written(server, from, before, held, rows, size, start, rpcs)
    ensures held == Contents(before, rpcs) && AcceptedRows(rpcs) == Canonicals(rows[..start])
    ensures NoneEmpty(rpcs) && Replied(server, from, rpcs) && Batchwise(rpcs, rows, size)
    ensures start == |rows| ==> rows[..start] == rows
    ensures start == |rows| && !Missed(server, from, from + |rpcs|) ==> held == before + Canonicals(rows)
    ensures start == |rows| ==> (EndsWith(held, Canonicals(rows)) <==> !Lost(server, from, from + |rpcs|))
  {
    hide Canonicals, Canonical, Contents, AcceptedRows, Dropped, DroppedLate, EndsWith, Missed, Lost, Replied, Batchwise;
    AllThere(before, rpcs);
    DroppedMeans(server, from, rpcs);
    assert start == |rows| ==> rows[..start] == rows;
  }

  lemma BatchesStep(server: Server, c: Conn, left: nat, size: nat)
    requires size > 0 && left > 0
    ensures var (ok, next), m := BatchOutcome(server, c), if left < size then left else size;
      && (!ok ==> BatchesOutcome(server, c, left, size) == Outcome(0, next))
      && (ok ==> var o := BatchesOutcome(server, next, left - m, size);
            BatchesOutcome(server, c, left, size) == Outcome(m + o.done, o.conn))
      && (ok && c.ready ==> next.ready)
  {
  }

  /** A server that accepts every write gets every row. */
  lemma {:induction false} AllAccepting(server: Server, c: Conn, left: nat, size: nat)
    requires size > 0 && forall n :: server.reply(n).Accepted?
    ensures BatchesOutcome(server, c, left, size).done == left
    decreases left
  {
    if left > 0 {
      BatchesStep(server, c, left, size);
      AllAccepting(server, BatchOutcome(server, c).1, if left < size then 0 else left - size, size);
    }
  }

  lemma NoneLeft(server: Server, c: Conn, size: nat)
    requires size > 0
    ensures BatchesOutcome(server, c, 0, size) == Outcome(0, c)
  {
  }

  lemma RepliedConcat(server: Server, from: nat, a: seq<Rpc>, b: seq<Rpc>)
    requires Replied(server, from, a) && Replied(server, from + |a|, b)
    ensures Replied(server, from, a + b)
  {
  }

  lemma CanonicalsLength(rows: seq<ChunkEntity>)
    ensures |Canonicals(rows)| == |rows|
  {
  }

  /** Three writes, the second of which finds the collection gone: what the last one wrote is all that is left. */
  lemma OnlyLast(before: seq<ChunkEntity>, a: Rpc, b: Rpc, c: Rpc)
    requires a.reply.Accepted? && b.reply.NotFound? && c.reply.Accepted?
    ensures Contents(before, [a, b, c]) == c.rows && AcceptedRows([a, b, c]) == a.rows + c.rows
  {
    hide Contents, AcceptedRows;
    assert Contents(before, [a, b]) == [] && AcceptedRows([a, b]) == a.rows by {
      NoRpcs(before);
      assert [] + [a] == [a] && [a] + [b] == [a, b];
      RpcStep(before, [], a);
      RpcStep(before, [a], b);
    }
    assert [a, b] + [c] == [a, b, c];
    RpcStep(before, [a, b], c);
  }

  const DROPPED_ONCE: Server :=
    Server((n: nat) => if n == 1 then NotFound else Accepted, (n: nat) => true, true, (e: ChunkEntity) => true)

  lemma DroppedOnce(a: ChunkEntity, b: ChunkEntity)
    ensures WriteOutcome(DROPPED_ONCE, Conn(0, 0, false), [a, b], 1) == Outcome(2, Conn(3, 2, true))
    ensures Lost(DROPPED_ONCE, 0, 3)
  {
    var s := DROPPED_ONCE;
    assert s.reply(0).Accepted? && s.reply(1).NotFound? && s.reply(2).Accepted?;
    assert BatchOutcome(s, Conn(0, 1, true)) == (true, Conn(1, 1, true));
    assert BatchOutcome(s, Conn(1, 1, true)) == (true, Conn(3, 2, true));
    assert BatchesOutcome(s, Conn(3, 2, true), 0, 1) == Outcome(0, Conn(3, 2, true));
    assert BatchesOutcome(s, Conn(1, 1, true), 1, 1) == Outcome(1, Conn(3, 2, true));
  }

  /** Dropped between two batches: the rows are written with success, and the first one is lost. */
  method DroppedBetween(a: ChunkEntity, b: ChunkEntity) returns (ok: bool, held: seq<ChunkEntity>)
    ensures ok && held == [Canonical(b)]
  {
    hide Canonical, Contents, AcceptedRows, WriteOutcome, EndsWith, Lost, Missed;
    var repo := new Repository(DROPPED_ONCE, 1);
    DroppedOnce(a, b);
    ghost var rpcs;
    ok, rpcs := repo.WriteChunks([a, b]);
    assert [a, b][..2] == [a, b];
    assert rpcs[0].reply.Accepted? && rpcs[1].reply.NotFound? && rpcs[2].reply.Accepted?;
    assert rpcs == [rpcs[0], rpcs[1], rpcs[2]];
    OnlyLast([], rpcs[0], rpcs[1], rpcs[2]);
    held := repo.stored;
    assert rpcs[0].rows + rpcs[2].rows == Canonicals([a, b]) && |rpcs[0].rows| == |rpcs[2].rows| == 1;
    assert rpcs[2].rows[0] == Canonicals([a, b])[1];
  }

  /** A batch adds its own tries, and none for other batches. */
  lemma TriesOfBatch(rpcs: seq<Rpc>, tried: seq<Rpc>, start: nat, s: nat)
    requires 1 <= |tried| <= 2 && forall k :: 0 <= k < |tried| ==> tried[k].start == start
    ensures Tries(rpcs + tried, s) == Tries(rpcs, s) + if s == start then |tried| else 0
  {
    hide Tries;
    TriesStep(rpcs, tried[0], s);
    if |tried| == 1 {
      assert tried == [tried[0]];
    } else {
      assert tried == [tried[0]] + [tried[1]];
      TriesStep(rpcs + [tried[0]], tried[1], s);
      Regroup(rpcs, [tried[0]], [tried[1]]);
    }
  }

  lemma Regroup<T>(a: seq<T>, b: seq<T>, c: seq<T>)
    ensures (a + b) + c == a + (b + c)
  {
  }
}
