/**
 The entity documents of a batch: one for every chunk id with a usable key, aggregated over the rows of the chunk.
 Lower-casing and the decoding of extra information are parameters.
 */
module EntityDocs {
  import opened Text
  import opened SortedStrings
  import opened ChunkIds

  datatype Doc = Doc(
    chunkID: ChunkId, entityKeys: seq<string>, docID: string, sourceType: string, lang: string, jobID: string,
    taskID: string, extra: map<string, string>, createdMs: int, updatedMs: int, offset: int, pageNo: int)

  /** What is gathered for one chunk id. */
  datatype Acc = Acc(
    keys: set<string>, docID: string, sourceType: string, lang: string, jobID: string,
    taskID: string, extra: map<string, string>, createdMs: int, updatedMs: int, offset: int, pageNo: int)

  datatype DocError = NoDocID(chunkID: ChunkId) | DocConflict(chunkID: ChunkId)

  datatype Context = Context(lower: string -> string, parse: string -> map<string, string>, jobID: string, taskID: string)

  function Normal(key: string, ctx: Context): string {
    ctx.lower(TrimSpace(key))
  }

  // ---------------------------------------------------------------- what the documents of a batch are

  /** The row has keys for chunk `c`. */
  predicate Feeds(row: TextChunkLine, c: ChunkId) {
    row.entityKeys != [] && TrimID(row.chunkID) == c && c != Plain("")
  }

  ghost predicate HasDocIDs(rows: seq<TextChunkLine>) {
    forall row :: row in rows && row.entityKeys != [] ==> TrimSpace(row.docID) != ""
  }

  ghost predicate OneDocEach(rows: seq<TextChunkLine>) {
    forall r, s, c :: r in rows && s in rows && Feeds(r, c) && Feeds(s, c) ==> TrimSpace(r.docID) == TrimSpace(s.docID)
  }

  /** Every row with keys names its document, and the rows of a chunk agree on it. */
  ghost predicate Acceptable(rows: seq<TextChunkLine>) {
    HasDocIDs(rows) && OneDocEach(rows)
  }

  ghost predicate KeyOf(k: string, rows: seq<TextChunkLine>, c: ChunkId, ctx: Context) {
    k != "" && exists row, e :: row in rows && Feeds(row, c) && e in row.entityKeys && Normal(e, ctx) == k
  }

  ghost predicate IsMin(x: int, rows: seq<TextChunkLine>, c: ChunkId, f: TextChunkLine -> int) {
    && (forall row :: row in rows && Feeds(row, c) ==> x <= f(row))
    && exists row :: row in rows && Feeds(row, c) && f(row) == x
  }

  ghost predicate IsMax(x: int, rows: seq<TextChunkLine>, c: ChunkId, f: TextChunkLine -> int) {
    && (forall row :: row in rows && Feeds(row, c) ==> f(row) <= x)
    && exists row :: row in rows && Feeds(row, c) && f(row) == x
  }

  const OFFSET := (row: TextChunkLine) => row.offset
  const PAGE := (row: TextChunkLine) => row.pageNo
  const UPDATED := (row: TextChunkLine) => row.updatedMs

  /** The creation times of the rows of a chunk, in order. */
  function Times(rows: seq<TextChunkLine>, c: ChunkId): seq<int> {
    if rows == [] then []
    else
      var row := rows[|rows| - 1];
      Times(rows[..|rows| - 1], c) + if Feeds(row, c) then [row.createdMs] else []
  }

  /** One more creation time: smaller wins, and zero counts as not set. */
  function Earlier(a: int, x: int): int {
    if x < a || a == 0 then x else a
  }

  function Earliest(ts: seq<int>): int
    requires ts != []
  {
    if |ts| == 1 then ts[0] else Earlier(Earliest(ts[..|ts| - 1]), ts[|ts| - 1])
  }

  /** The extra information of the rows of a chunk, later rows winning. */
  function Extra(rows: seq<TextChunkLine>, c: ChunkId, ctx: Context): map<string, string> {
    if rows == [] then map[]
    else
      var row := rows[|rows| - 1];
      if Feeds(row, c) then Extra(rows[..|rows| - 1], c, ctx) + ctx.parse(row.extraInfo)
      else Extra(rows[..|rows| - 1], c, ctx)
  }

  /** The fields taken from the first row of a chunk. */
  ghost predicate FromFirst(a: Acc, rows: seq<TextChunkLine>, c: ChunkId, ctx: Context) {
    exists i :: (
      && 0 <= i < |rows| && Feeds(rows[i], c) && (forall j :: 0 <= j < i ==> !Feeds(rows[j], c))
      && a.sourceType == rows[i].sourceType && a.lang == rows[i].lang
      && a.jobID == OrDefault(rows[i].jobID, ctx.jobID) && a.taskID == OrDefault(rows[i].taskID, ctx.taskID))
  }

  /** `a` is what the rows have for chunk `c`. */
  ghost predicate Gathered(a: Acc, rows: seq<TextChunkLine>, c: ChunkId, ctx: Context) {
    && (forall k :: k in a.keys <==> KeyOf(k, rows, c, ctx))
    && (forall row :: row in rows && Feeds(row, c) ==> TrimSpace(row.docID) == a.docID)
    && IsMin(a.offset, rows, c, OFFSET) && IsMin(a.pageNo, rows, c, PAGE) && IsMax(a.updatedMs, rows, c, UPDATED)
    && Times(rows, c) != [] && a.createdMs == Earliest(Times(rows, c))
    && a.extra == Extra(rows, c, ctx) && FromFirst(a, rows, c, ctx)
  }

  ghost predicate Fed(rows: seq<TextChunkLine>, c: ChunkId) {
    exists row :: row in rows && Feeds(row, c)
  }

  /** The document of a chunk: what was gathered, with the keys sorted. */
  ghost predicate IsDoc(d: Doc, rows: seq<TextChunkLine>, ctx: Context) {
    && StrictlySorted(d.entityKeys) && d.entityKeys != []
    && Gathered(AccOf(d), rows, d.chunkID, ctx)
  }

  function AccOf(d: Doc): Acc {
    Acc((set k | k in d.entityKeys), d.docID, d.sourceType, d.lang, d.jobID, d.taskID, d.extra, d.createdMs, d.updatedMs,
        d.offset, d.pageNo)
  }

  /** One document for each chunk id with a usable key, in any order. */
  ghost predicate AreDocs(docs: seq<Doc>, rows: seq<TextChunkLine>, ctx: Context) {
    && (forall d :: d in docs ==> IsDoc(d, rows, ctx))
    && (forall i, j :: 0 <= i < j < |docs| ==> docs[i].chunkID != docs[j].chunkID)
    && forall c, k :: KeyOf(k, rows, c, ctx) ==> exists d :: d in docs && d.chunkID == c
  }

  /** Rows of a chunk: they have keys, and their trimmed id is that of the chunk, which is not blank. */
  lemma FeedsMeans(row: TextChunkLine, c: ChunkId)
    ensures Feeds(row, c) <==> |row.entityKeys| > 0 && TrimID(row.chunkID) == c && c != Plain("")
  {
    hide TrimID;
  }

  /** A document in terms of the rows of its chunk: keys, document, offset, page and update time. */
  lemma DocMeans(d: Doc, rows: seq<TextChunkLine>, ctx: Context)
    requires IsDoc(d, rows, ctx)
    ensures forall k :: k in d.entityKeys <==>
      k != "" && exists r, e :: r in rows && Feeds(r, d.chunkID) && e in r.entityKeys && ctx.lower(TrimSpace(e)) == k
    ensures forall r :: r in rows && Feeds(r, d.chunkID) ==>
      d.docID == TrimSpace(r.docID) && d.offset <= r.offset && d.pageNo <= r.pageNo && r.updatedMs <= d.updatedMs
    ensures exists r :: r in rows && Feeds(r, d.chunkID) && d.offset == r.offset
    ensures exists r :: r in rows && Feeds(r, d.chunkID) && d.pageNo == r.pageNo
    ensures exists r :: r in rows && Feeds(r, d.chunkID) && d.updatedMs == r.updatedMs
  {
    hide Feeds, TrimSpace, FromFirst, Times, Extra;
    var a := AccOf(d);
    forall k ensures k in d.entityKeys <==>
      k != "" && exists r, e :: r in rows && Feeds(r, d.chunkID) && e in r.entityKeys && ctx.lower(TrimSpace(e)) == k
    {
      assert k in d.entityKeys <==> k in a.keys;
      KeyOfMeans(k, rows, d.chunkID, ctx);
    }
    hide KeyOf;
    var lo :| lo in rows && Feeds(lo, d.chunkID) && OFFSET(lo) == a.offset;
    var first :| first in rows && Feeds(first, d.chunkID) && PAGE(first) == a.pageNo;
    var last :| last in rows && Feeds(last, d.chunkID) && UPDATED(last) == a.updatedMs;
    forall r | r in rows && Feeds(r, d.chunkID)
      ensures d.docID == TrimSpace(r.docID) && d.offset <= r.offset && d.pageNo <= r.pageNo && r.updatedMs <= d.updatedMs
    {
      assert a.offset <= OFFSET(r) && a.pageNo <= PAGE(r) && UPDATED(r) <= a.updatedMs;
    }
  }

  lemma KeyOfMeans(k: string, rows: seq<TextChunkLine>, c: ChunkId, ctx: Context)
    ensures KeyOf(k, rows, c, ctx) <==>
      k != "" && exists r, e :: r in rows && Feeds(r, c) && e in r.entityKeys && ctx.lower(TrimSpace(e)) == k
  {
    hide Feeds, TrimSpace;
    if r, e :| k != "" && r in rows && Feeds(r, c) && e in r.entityKeys && ctx.lower(TrimSpace(e)) == k {
      assert Normal(e, ctx) == k;
    }
  }

  /** And the rest: source type, language, job and task come from the first row of the chunk. */
  lemma DocOfFirst(d: Doc, rows: seq<TextChunkLine>, ctx: Context) returns (i: nat)
    requires IsDoc(d, rows, ctx)
    ensures i < |rows| && Feeds(rows[i], d.chunkID) && forall j :: 0 <= j < i ==> !Feeds(rows[j], d.chunkID)
    ensures d.sourceType == rows[i].sourceType && d.lang == rows[i].lang
    ensures d.jobID == TrimSpace(if TrimSpace(rows[i].jobID) == "" then ctx.jobID else rows[i].jobID)
    ensures d.taskID == TrimSpace(if TrimSpace(rows[i].taskID) == "" then ctx.taskID else rows[i].taskID)
  {
    hide Feeds, TrimSpace, Times, Extra, KeyOf, IsMin, IsMax;
    var a, c := AccOf(d), d.chunkID;
    assert FromFirst(a, rows, c, ctx);
    i :| (
      && 0 <= i < |rows| && Feeds(rows[i], c) && (forall j :: 0 <= j < i ==> !Feeds(rows[j], c))
      && a.sourceType == rows[i].sourceType && a.lang == rows[i].lang
      && a.jobID == OrDefault(rows[i].jobID, ctx.jobID) && a.taskID == OrDefault(rows[i].taskID, ctx.taskID));
  }

  /** The extra information: of each name the value in the last row of the chunk that has it. */
  lemma {:induction false} ExtraMeans(rows: seq<TextChunkLine>, c: ChunkId, ctx: Context, x: string) returns (i: int)
    ensures x in Extra(rows, c, ctx) <==> i >= 0
    ensures i >= 0 ==>
      && i < |rows| && Feeds(rows[i], c) && x in ctx.parse(rows[i].extraInfo)
      && Extra(rows, c, ctx)[x] == ctx.parse(rows[i].extraInfo)[x]
    ensures forall j :: i < j < |rows| && j >= 0 ==> !(Feeds(rows[j], c) && x in ctx.parse(rows[j].extraInfo))
    ensures i >= -1
  {
    hide Feeds;
    if rows == [] {
      i := -1;
    } else {
      var n := |rows| - 1;
      i := ExtraMeans(rows[..n], c, ctx, x);
      if Feeds(rows[n], c) && x in ctx.parse(rows[n].extraInfo) {
        i := n;
      }
    }
  }

  // ---------------------------------------------------------------- one row

  /** The usable keys of a row. */
  function KeysOf(row: TextChunkLine, ctx: Context): (r: set<string>)
    ensures forall k :: k in r <==> k != "" && exists e :: e in row.entityKeys && Normal(e, ctx) == k
  {
    set e | e in row.entityKeys && Normal(e, ctx) != "" :: Normal(e, ctx)
  }

  function First(row: TextChunkLine, ctx: Context): Acc {
    Acc(KeysOf(row, ctx), TrimSpace(row.docID), row.sourceType, row.lang, OrDefault(row.jobID, ctx.jobID),
        OrDefault(row.taskID, ctx.taskID), ctx.parse(row.extraInfo), row.createdMs, row.updatedMs, row.offset, row.pageNo)
  }

  function More(a: Acc, row: TextChunkLine, ctx: Context): Acc {
    a.(keys := a.keys + KeysOf(row, ctx),
       extra := a.extra + ctx.parse(row.extraInfo),
       updatedMs := if row.updatedMs > a.updatedMs then row.updatedMs else a.updatedMs,
       createdMs := Earlier(a.createdMs, row.createdMs),
       offset := if row.offset < a.offset then row.offset else a.offset,
       pageNo := if row.pageNo < a.pageNo then row.pageNo else a.pageNo)
  }

  lemma KeyOfStep(k: string, rows: seq<TextChunkLine>, row: TextChunkLine, c: ChunkId, ctx: Context)
    ensures KeyOf(k, rows + [row], c, ctx)
       <==> KeyOf(k, rows, c, ctx) || (Feeds(row, c) && k in KeysOf(row, ctx))
  {
    hide Feeds, Normal;
    if KeyOf(k, rows, c, ctx) {
      var r, e :| r in rows && Feeds(r, c) && e in r.entityKeys && Normal(e, ctx) == k;
      assert r in rows + [row];
    }
    if Feeds(row, c) && k in KeysOf(row, ctx) {
      assert row in rows + [row];
    }
    if KeyOf(k, rows + [row], c, ctx) {
      var r, e :| r in rows + [row] && Feeds(r, c) && e in r.entityKeys && Normal(e, ctx) == k;
      assert r in rows || r == row;
    }
  }

  lemma OtherRow(rows: seq<TextChunkLine>, row: TextChunkLine, c: ChunkId, ctx: Context)
    requires !Feeds(row, c)
    ensures Times(rows + [row], c) == Times(rows, c) && Extra(rows + [row], c, ctx) == Extra(rows, c, ctx)
    ensures forall f: TextChunkLine -> int, x :: (IsMin(x, rows + [row], c, f) <==> IsMin(x, rows, c, f))
    ensures forall f: TextChunkLine -> int, x :: (IsMax(x, rows + [row], c, f) <==> IsMax(x, rows, c, f))
  {
    hide Feeds;
    assert (rows + [row])[..|rows|] == rows;
    assert forall r :: r in rows + [row] && Feeds(r, c) <==> r in rows && Feeds(r, c);
  }

  lemma FromFirstStays(a: Acc, rows: seq<TextChunkLine>, row: TextChunkLine, c: ChunkId, ctx: Context)
    requires FromFirst(a, rows, c, ctx)
    ensures FromFirst(a, rows + [row], c, ctx)
  {
    hide Feeds, OrDefault;
    var i :| (
      && 0 <= i < |rows| && Feeds(rows[i], c) && (forall j :: 0 <= j < i ==> !Feeds(rows[j], c))
      && a.sourceType == rows[i].sourceType && a.lang == rows[i].lang
      && a.jobID == OrDefault(rows[i].jobID, ctx.jobID) && a.taskID == OrDefault(rows[i].taskID, ctx.taskID));
    assert (rows + [row])[i] == rows[i] && forall j :: 0 <= j < i ==> (rows + [row])[j] == rows[j];
  }

  /** A row of another chunk changes nothing. */
  lemma GatheredStays(a: Acc, rows: seq<TextChunkLine>, row: TextChunkLine, c: ChunkId, ctx: Context)
    requires Gathered(a, rows, c, ctx) && !Feeds(row, c)
    ensures Gathered(a, rows + [row], c, ctx)
  {
    hide Feeds, IsMin, IsMax, KeyOf, FromFirst, Times, Extra, Earliest;
    OtherRow(rows, row, c, ctx);
    FromFirstStays(a, rows, row, c, ctx);
    forall k ensures KeyOf(k, rows + [row], c, ctx) <==> KeyOf(k, rows, c, ctx) {
      KeyOfStep(k, rows, row, c, ctx);
    }
  }

  lemma NoRowsYet(rows: seq<TextChunkLine>, c: ChunkId, ctx: Context)
    requires !Fed(rows, c)
    ensures Times(rows, c) == [] && Extra(rows, c, ctx) == map[]
  {
    hide Feeds;
    if rows != [] {
      var n := |rows| - 1;
      assert rows[n] in rows && forall r :: r in rows[..n] ==> r in rows;
      NoRowsYet(rows[..n], c, ctx);
    }
  }

  lemma OnlyRow(rows: seq<TextChunkLine>, row: TextChunkLine, c: ChunkId, f: TextChunkLine -> int)
    requires !Fed(rows, c) && Feeds(row, c)
    ensures IsMin(f(row), rows + [row], c, f) && IsMax(f(row), rows + [row], c, f)
  {
    hide Feeds;
    assert row in rows + [row];
  }

  lemma OnlyRowFields(rows: seq<TextChunkLine>, row: TextChunkLine, c: ChunkId, ctx: Context)
    requires !Fed(rows, c) && Feeds(row, c)
    ensures FromFirst(First(row, ctx), rows + [row], c, ctx)
    ensures forall r :: r in rows + [row] && Feeds(r, c) ==> TrimSpace(r.docID) == First(row, ctx).docID
  {
    hide Feeds, OrDefault, TrimSpace, KeysOf;
    var all := rows + [row];
    assert all[|rows|] == row && forall j :: 0 <= j < |rows| ==> all[j] in rows;
  }

  lemma OnlyRowKeys(rows: seq<TextChunkLine>, row: TextChunkLine, c: ChunkId, ctx: Context)
    requires !Fed(rows, c) && Feeds(row, c)
    ensures forall k :: k in First(row, ctx).keys <==> KeyOf(k, rows + [row], c, ctx)
  {
    hide KeyOf, Feeds, KeysOf, TrimSpace, OrDefault;
    forall k ensures k in First(row, ctx).keys <==> KeyOf(k, rows + [row], c, ctx) {
      KeyOfStep(k, rows, row, c, ctx);
      NoKeyYet(k, rows, c, ctx);
    }
  }

  lemma GatheredFirst(rows: seq<TextChunkLine>, row: TextChunkLine, c: ChunkId, ctx: Context)
    requires !Fed(rows, c) && Feeds(row, c)
    ensures Gathered(First(row, ctx), rows + [row], c, ctx)
  {
    hide Feeds, KeyOf, IsMin, IsMax, FromFirst, Times, Extra, TrimSpace, KeysOf, Fed;
    NoRowsYet(rows, c, ctx);
    TimesStep(rows, row, c, ctx);
    assert [] + [row.createdMs] == [row.createdMs];
    assert map[] + ctx.parse(row.extraInfo) == ctx.parse(row.extraInfo);
    OnlyRow(rows, row, c, OFFSET);
    OnlyRow(rows, row, c, PAGE);
    OnlyRow(rows, row, c, UPDATED);
    OnlyRowFields(rows, row, c, ctx);
    OnlyRowKeys(rows, row, c, ctx);
  }

  lemma NoKeyYet(k: string, rows: seq<TextChunkLine>, c: ChunkId, ctx: Context)
    requires !Fed(rows, c)
    ensures !KeyOf(k, rows, c, ctx)
  {
    hide Feeds, Normal;
  }

  lemma MinStep(x: int, rows: seq<TextChunkLine>, row: TextChunkLine, c: ChunkId, f: TextChunkLine -> int)
    requires IsMin(x, rows, c, f) && Feeds(row, c)
    ensures IsMin(if f(row) < x then f(row) else x, rows + [row], c, f)
  {
    hide Feeds;
    var r :| r in rows && Feeds(r, c) && f(r) == x;
    assert r in rows + [row] && row in rows + [row];
  }

  lemma MaxStep(x: int, rows: seq<TextChunkLine>, row: TextChunkLine, c: ChunkId, f: TextChunkLine -> int)
    requires IsMax(x, rows, c, f) && Feeds(row, c)
    ensures IsMax(if f(row) > x then f(row) else x, rows + [row], c, f)
  {
    hide Feeds;
    var r :| r in rows && Feeds(r, c) && f(r) == x;
    assert r in rows + [row] && row in rows + [row];
  }

  lemma TimesStep(rows: seq<TextChunkLine>, row: TextChunkLine, c: ChunkId, ctx: Context)
    requires Feeds(row, c)
    ensures Times(rows + [row], c) == Times(rows, c) + [row.createdMs]
    ensures Extra(rows + [row], c, ctx) == Extra(rows, c, ctx) + ctx.parse(row.extraInfo)
    ensures Times(rows, c) != [] ==> Earliest(Times(rows + [row], c)) == Earlier(Earliest(Times(rows, c)), row.createdMs)
  {
    hide Feeds;
    assert (rows + [row])[..|rows|] == rows;
    assert (Times(rows, c) + [row.createdMs])[..|Times(rows, c)|] == Times(rows, c);
  }

  lemma MoreKeys(a: Acc, rows: seq<TextChunkLine>, row: TextChunkLine, c: ChunkId, ctx: Context)
    requires Feeds(row, c) && forall k :: k in a.keys <==> KeyOf(k, rows, c, ctx)
    ensures forall k :: k in More(a, row, ctx).keys <==> KeyOf(k, rows + [row], c, ctx)
  {
    hide KeyOf, Feeds, KeysOf;
    forall k ensures k in More(a, row, ctx).keys <==> KeyOf(k, rows + [row], c, ctx) {
      KeyOfStep(k, rows, row, c, ctx);
    }
  }

  lemma GatheredMore(a: Acc, rows: seq<TextChunkLine>, row: TextChunkLine, c: ChunkId, ctx: Context)
    requires Gathered(a, rows, c, ctx) && Feeds(row, c) && TrimSpace(row.docID) == a.docID
    ensures Gathered(More(a, row, ctx), rows + [row], c, ctx)
  {
    hide Feeds, IsMin, IsMax, KeyOf, FromFirst, Times, Extra, Earliest, TrimSpace, KeysOf;
    TimesStep(rows, row, c, ctx);
    MinStep(a.offset, rows, row, c, OFFSET);
    MinStep(a.pageNo, rows, row, c, PAGE);
    MaxStep(a.updatedMs, rows, row, c, UPDATED);
    FromFirstStays(a, rows, row, c, ctx);
    FirstFieldsStay(a, rows + [row], row, c, ctx);
    MoreKeys(a, rows, row, c, ctx);
  }

  lemma FirstFieldsStay(a: Acc, rows: seq<TextChunkLine>, row: TextChunkLine, c: ChunkId, ctx: Context)
    requires FromFirst(a, rows, c, ctx)
    ensures FromFirst(More(a, row, ctx), rows, c, ctx)
  {
    hide Feeds, OrDefault;
  }

  // ---------------------------------------------------------------- the method of the source

  ghost predicate AllGathered(byChunk: map<ChunkId, Acc>, rows: seq<TextChunkLine>, ctx: Context) {
    && (forall c :: c in byChunk <==> Fed(rows, c))
    && forall c :: c in byChunk ==> Gathered(byChunk[c], rows, c, ctx)
  }

  lemma FedStep(rows: seq<TextChunkLine>, row: TextChunkLine, c: ChunkId)
    ensures Fed(rows + [row], c) <==> Fed(rows, c) || Feeds(row, c)
  {
    hide Feeds;
    assert row in rows + [row] && forall r :: r in rows ==> r in rows + [row];
  }

  lemma AcceptableStep(rows: seq<TextChunkLine>, row: TextChunkLine)
    requires Acceptable(rows) && (row.entityKeys != [] ==> TrimSpace(row.docID) != "")
    requires forall r, c :: r in rows && Feeds(r, c) && Feeds(row, c) ==> TrimSpace(r.docID) == TrimSpace(row.docID)
    ensures Acceptable(rows + [row])
  {
    hide TrimSpace, Feeds;
  }

  lemma SkipRow(byChunk: map<ChunkId, Acc>, rows: seq<TextChunkLine>, row: TextChunkLine, ctx: Context)
    requires AllGathered(byChunk, rows, ctx) && Acceptable(rows) && (row.entityKeys != [] ==> TrimSpace(row.docID) != "")
    requires row.entityKeys == [] || TrimID(row.chunkID) == Plain("")
    ensures AllGathered(byChunk, rows + [row], ctx) && Acceptable(rows + [row])
  {
    hide TrimSpace, Gathered, HasDocIDs, OneDocEach;
    AcceptableStep(rows, row);
    forall c ensures (c in byChunk <==> Fed(rows + [row], c)) && (c in byChunk ==> Gathered(byChunk[c], rows + [row], c, ctx)) {
      FedStep(rows, row, c);
      if c in byChunk {
        GatheredStays(byChunk[c], rows, row, c, ctx);
      }
    }
  }

  lemma TakeRow(byChunk: map<ChunkId, Acc>, rows: seq<TextChunkLine>, row: TextChunkLine, ctx: Context)
    requires AllGathered(byChunk, rows, ctx) && Acceptable(rows) && TrimSpace(row.docID) != ""
    requires Feeds(row, TrimID(row.chunkID))
    requires var c := TrimID(row.chunkID); c in byChunk ==> byChunk[c].docID == TrimSpace(row.docID)
    ensures var c := TrimID(row.chunkID);
      AllGathered(byChunk[c := if c in byChunk then More(byChunk[c], row, ctx) else First(row, ctx)], rows + [row], ctx)
    ensures Acceptable(rows + [row])
  {
    var c := TrimID(row.chunkID);
    forall r, d | r in rows && Feeds(r, d) && Feeds(row, d) ensures TrimSpace(r.docID) == TrimSpace(row.docID) {
      assert d == c && Fed(rows, c);
    }
    hide TrimSpace, Gathered, HasDocIDs, OneDocEach, First, More, TrimID;
    AcceptableStep(rows, row);
    var next := byChunk[c := if c in byChunk then More(byChunk[c], row, ctx) else First(row, ctx)];
    forall d ensures (d in next <==> Fed(rows + [row], d)) && (d in next ==> Gathered(next[d], rows + [row], d, ctx)) {
      FedStep(rows, row, d);
      if d == c {
        if c in byChunk {
          GatheredMore(byChunk[c], rows, row, c, ctx);
        } else {
          GatheredFirst(rows, row, c, ctx);
        }
      } else if d in byChunk {
        GatheredStays(byChunk[d], rows, row, d, ctx);
      }
    }
  }

  method Aggregate(batch: seq<TextChunkLine>, ctx: Context) returns (r: Result<map<ChunkId, Acc>, DocError>)
    ensures r.Ok? <==> Acceptable(batch)
    ensures r.Ok? ==> AllGathered(r.value, batch, ctx)
  {
    hide TrimSpace, Gathered, Feeds, Acceptable, AllGathered, First, More, TrimID;
    var byChunk: map<ChunkId, Acc> := map[];
    NothingGathered(ctx);
    for n := 0 to |batch|
      invariant AllGathered(byChunk, batch[..n], ctx) && Acceptable(batch[..n])
    {
      var row := batch[n];
      PrefixStep(batch, n);
      if |row.entityKeys| == 0 {
        SkipRow(byChunk, batch[..n], row, ctx);
        continue;
      }
      var docID := TrimSpace(row.docID);
      if docID == "" {
        MissingDoc(batch, n);
        return Err(NoDocID(row.chunkID));
      }
      var cid := TrimID(row.chunkID);
      if cid == Plain("") {
        SkipRow(byChunk, batch[..n], row, ctx);
        continue;
      }
      FeedsItself(row);
      if cid !in byChunk {
        TakeRow(byChunk, batch[..n], row, ctx);
        byChunk := byChunk[cid := First(row, ctx)];
      } else {
        if byChunk[cid].docID != docID {
          ConflictingDoc(byChunk, batch, n, ctx);
          return Err(DocConflict(cid));
        }
        TakeRow(byChunk, batch[..n], row, ctx);
        byChunk := byChunk[cid := More(byChunk[cid], row, ctx)];
      }
    }
    assert batch[..|batch|] == batch;
    r := Ok(byChunk);
  }

  lemma FeedsItself(row: TextChunkLine)
    ensures row.entityKeys != [] && TrimID(row.chunkID) != Plain("") ==> Feeds(row, TrimID(row.chunkID))
  {
  }

  lemma NothingGathered(ctx: Context)
    ensures AllGathered(map[], [], ctx) && Acceptable([])
  {
  }

  lemma MissingDoc(batch: seq<TextChunkLine>, n: nat)
    requires n < |batch| && batch[n].entityKeys != [] && TrimSpace(batch[n].docID) == ""
    ensures !Acceptable(batch)
  {
    assert batch[n] in batch;
  }

  lemma ConflictingDoc(byChunk: map<ChunkId, Acc>, batch: seq<TextChunkLine>, n: nat, ctx: Context)
    requires n < |batch| && AllGathered(byChunk, batch[..n], ctx)
    requires Feeds(batch[n], TrimID(batch[n].chunkID))
    requires var c := TrimID(batch[n].chunkID); c in byChunk && byChunk[c].docID != TrimSpace(batch[n].docID)
    ensures !Acceptable(batch)
  {
    var c := TrimID(batch[n].chunkID);
    hide TrimSpace, TrimID, Feeds;
    assert Fed(batch[..n], c) && Gathered(byChunk[c], batch[..n], c, ctx);
    var r :| r in batch[..n] && Feeds(r, c);
    assert r in batch && batch[n] in batch;
  }

  /** The keys of a set in sorted order, as the source gets them: collected in any order, then sorted. */
  method SortedKeys(keys: set<string>) returns (r: seq<string>)
    ensures StrictlySorted(r) && forall k :: k in r <==> k in keys
  {
    var rest, list := keys, [];
    while rest != {}
      invariant rest <= keys && NoRepeats(list) && forall k :: k in list <==> k in keys && k !in rest
      decreases rest
    {
      var k :| k in rest;
      rest, list := rest - {k}, list + [k];
    }
    r := Sort(list);
    SortSorts(list);
  }

  /** Succeeds exactly when the batch is acceptable, and then returns its documents. */
  method EntityChunkDocsFromBatch(batch: seq<TextChunkLine>, ctx: Context) returns (r: Result<seq<Doc>, DocError>)
    ensures r.Ok? <==> Acceptable(batch)
    ensures r.Ok? ==> AreDocs(r.value, batch, ctx)
  {
    hide Gathered, Acceptable, KeyOf, StrictlySorted, AllGathered;
    var gathered := Aggregate(batch, ctx);
    if gathered.Err? {
      return Err(gathered.error);
    }
    var byChunk := gathered.value;
    GatheredEach(byChunk, batch, ctx);
    var rest, out: seq<Doc> := byChunk.Keys, [];
    while rest != {}
      invariant rest <= byChunk.Keys
      invariant forall d :: d in out ==> IsDoc(d, batch, ctx) && d.chunkID in byChunk && d.chunkID !in rest
      invariant forall i, j :: 0 <= i < j < |out| ==> out[i].chunkID != out[j].chunkID
      invariant forall c :: c in byChunk && c !in rest && byChunk[c].keys != {} ==> exists d :: d in out && d.chunkID == c
      decreases rest
    {
      var c :| c in rest;
      rest := rest - {c};
      var a := byChunk[c];
      var keys := SortedKeys(a.keys);
      ghost var was := out;
      if |keys| == 0 {
        assert a.keys == {} by {
          forall k ensures k !in a.keys {
            assert k !in keys;
          }
        }
        continue;
      }
      var d := Doc(c, keys, a.docID, a.sourceType, a.lang, a.jobID, a.taskID, a.extra, a.createdMs, a.updatedMs, a.offset, a.pageNo);
      assert (set k | k in keys) == a.keys;
      assert AccOf(d) == a;
      out := out + [d];
      assert d in out && forall e :: e in was ==> e in out;
    }
    KeysAreFed(byChunk, batch, ctx);
    r := Ok(out);
  }

  lemma GatheredEach(byChunk: map<ChunkId, Acc>, batch: seq<TextChunkLine>, ctx: Context)
    requires AllGathered(byChunk, batch, ctx)
    ensures forall c :: c in byChunk ==> Gathered(byChunk[c], batch, c, ctx)
  {
    hide Gathered;
  }

  lemma KeysAreFed(byChunk: map<ChunkId, Acc>, batch: seq<TextChunkLine>, ctx: Context)
    requires AllGathered(byChunk, batch, ctx)
    ensures forall c, k :: KeyOf(k, batch, c, ctx) ==> c in byChunk && byChunk[c].keys != {}
  {
    hide Feeds, Normal, FromFirst, IsMin, IsMax, Earliest, Times, Extra, TrimSpace;
    forall c, k | KeyOf(k, batch, c, ctx) ensures c in byChunk && byChunk[c].keys != {} {
      assert Fed(batch, c);
      assert k in byChunk[c].keys;
    }
  }

  // ---------------------------------------------------------------- reordering a batch

  ghost predicate Reordered(a: seq<TextChunkLine>, b: seq<TextChunkLine>) {
    multiset(a) == multiset(b)
  }

  lemma SameRows(a: seq<TextChunkLine>, b: seq<TextChunkLine>)
    requires Reordered(a, b)
    ensures forall row :: row in a <==> row in b
  {
    forall row ensures row in a <==> row in b {
      assert row in multiset(a) <==> row in multiset(b);
    }
  }

  /** A missing or conflicting document id is an error in every order. */
  lemma AcceptableInAnyOrder(a: seq<TextChunkLine>, b: seq<TextChunkLine>)
    requires Reordered(a, b)
    ensures Acceptable(a) <==> Acceptable(b)
  {
    SameRows(a, b);
    hide TrimSpace, Feeds, Reordered;
  }

  lemma SameExtremes(a: seq<TextChunkLine>, b: seq<TextChunkLine>, c: ChunkId)
    requires Reordered(a, b)
    ensures forall x, y, f: TextChunkLine -> int :: IsMin(x, a, c, f) && IsMin(y, b, c, f) ==> x == y
    ensures forall x, y, f: TextChunkLine -> int :: IsMax(x, a, c, f) && IsMax(y, b, c, f) ==> x == y
  {
    SameRows(a, b);
    hide Feeds, Reordered;
  }

  lemma SameKeys(a: seq<TextChunkLine>, b: seq<TextChunkLine>, c: ChunkId, ctx: Context)
    requires Reordered(a, b)
    ensures forall k :: KeyOf(k, a, c, ctx) <==> KeyOf(k, b, c, ctx)
  {
    SameRows(a, b);
    hide Feeds, Reordered, Normal;
  }

  lemma SameDocument(a: seq<TextChunkLine>, b: seq<TextChunkLine>, d: Acc, e: Acc, c: ChunkId, ctx: Context)
    requires Reordered(a, b) && Gathered(d, a, c, ctx) && Gathered(e, b, c, ctx)
    ensures d.docID == e.docID
  {
    SameRows(a, b);
    hide Feeds, Reordered, TrimSpace, FromFirst, Times, Extra, Earliest, KeyOf, IsMax;
    var r :| r in a && Feeds(r, c);
  }

  /** In every order a chunk gets the same keys, document, smallest offset and page, and latest update. */
  lemma SameDocInAnyOrder(a: seq<TextChunkLine>, b: seq<TextChunkLine>, d: Doc, e: Doc, ctx: Context)
    requires Reordered(a, b) && IsDoc(d, a, ctx) && IsDoc(e, b, ctx) && d.chunkID == e.chunkID
    ensures d.entityKeys == e.entityKeys && d.docID == e.docID
    ensures d.offset == e.offset && d.pageNo == e.pageNo && d.updatedMs == e.updatedMs
  {
    hide TrimSpace, Feeds, Reordered, FromFirst, Times, Extra, Earliest, StrictlySorted, KeyOf, IsMin, IsMax;
    SameExtremes(a, b, d.chunkID);
    SameKeys(a, b, d.chunkID, ctx);
    SameDocument(a, b, AccOf(d), AccOf(e), d.chunkID, ctx);
    forall k ensures k in d.entityKeys <==> k in e.entityKeys {
      assert k in AccOf(d).keys <==> k in AccOf(e).keys;
    }
    SortedIsUnique(d.entityKeys, e.entityKeys);
  }

  /** And the same chunks get a document. */
  lemma SameChunksInAnyOrder(a: seq<TextChunkLine>, b: seq<TextChunkLine>, ds: seq<Doc>, es: seq<Doc>, ctx: Context, c: ChunkId)
    requires Reordered(a, b) && AreDocs(ds, a, ctx) && AreDocs(es, b, ctx)
    ensures (exists d :: d in ds && d.chunkID == c) ==> exists e :: e in es && e.chunkID == c
  {
    SameRows(a, b);
    hide TrimSpace, Feeds, Reordered, FromFirst, Times, Extra, Earliest, StrictlySorted, Normal, IsMin, IsMax;
    if d :| d in ds && d.chunkID == c {
      var k := d.entityKeys[0];
      assert k in AccOf(d).keys;
      assert KeyOf(k, b, c, ctx);
    }
  }

  // ---------------------------------------------------------------- the creation time

  ghost predicate IsLeast(x: int, ts: seq<int>) {
    x in ts && forall t :: t in ts ==> x <= t
  }

  /** Zero is not the smallest of several different times. */
  ghost predicate Steady(ts: seq<int>) {
    !IsLeast(0, ts) || forall t :: t in ts ==> t == 0
  }

  /** The result is one of the times, and the least one if these are steady or one is negative. */
  lemma {:induction false} EarliestMeans(ts: seq<int>)
    requires ts != []
    ensures Earliest(ts) in ts
    ensures Steady(ts) ==> IsLeast(Earliest(ts), ts)
    ensures (exists t :: t in ts && t < 0) ==> IsLeast(Earliest(ts), ts)
  {
    if |ts| > 1 {
      var n := |ts| - 1;
      var front := ts[..n];
      assert ts == front + [ts[n]];
      EarliestMeans(front);
      assert forall t :: t in ts <==> t in front || t == ts[n];
    }
  }

  /** The creation time is the earliest one, in every order, exactly when zero is not the smallest of different times. */
  lemma EarliestInAnyOrder(ts: seq<int>)
    requires ts != []
    ensures Steady(ts) <==> forall us :: us != [] && multiset(us) == multiset(ts) ==> Earliest(us) == Earliest(ts)
  {
    if Steady(ts) {
      forall us | us != [] && multiset(us) == multiset(ts) ensures Earliest(us) == Earliest(ts) {
        SteadyReordered(ts, us);
      }
    } else {
      var x :| x in ts && x != 0;
      assert 0 in ts;
      var us := MoveLast(ts, 0);
      var vs := MoveLast(ts, x);
      ZeroLast(us);
      PositiveLast(vs);
    }
  }

  lemma SteadyReordered(ts: seq<int>, us: seq<int>)
    requires ts != [] && us != [] && multiset(us) == multiset(ts) && Steady(ts)
    ensures Earliest(us) == Earliest(ts)
  {
    assert forall t :: t in ts <==> t in multiset(ts);
    assert forall t :: t in us <==> t in multiset(us);
    EarliestMeans(ts);
    EarliestMeans(us);
  }

  lemma MoveLast(ts: seq<int>, x: int) returns (us: seq<int>)
    requires x in ts
    ensures multiset(us) == multiset(ts) && us != [] && us[|us| - 1] == x && forall t :: t in us <==> t in ts
  {
    var i :| 0 <= i < |ts| && ts[i] == x;
    assert ts == ts[..i] + [x] + ts[i + 1..];
    us := ts[..i] + ts[i + 1..] + [x];
    assert forall t :: t in ts <==> t in multiset(ts);
    assert forall t :: t in us <==> t in multiset(us);
  }

  lemma ZeroLast(us: seq<int>)
    requires us != [] && us[|us| - 1] == 0 && forall t :: t in us ==> t >= 0
    ensures Earliest(us) == 0
  {
    if |us| > 1 {
      var front := us[..|us| - 1];
      EarliestMeans(front);
      assert us == front + [us[|us| - 1]];
      assert Earliest(front) in us;
    }
  }

  lemma PositiveLast(us: seq<int>)
    requires us != [] && us[|us| - 1] > 0 && forall t :: t in us ==> t >= 0
    ensures Earliest(us) > 0
  {
    if |us| > 1 {
      var front := us[..|us| - 1];
      EarliestMeans(front);
      assert us == front + [us[|us| - 1]];
      assert Earliest(front) in us;
    }
  }

  lemma {:induction false} TimesMembers(rows: seq<TextChunkLine>, c: ChunkId, t: int)
    ensures t in Times(rows, c) <==> exists row :: row in rows && Feeds(row, c) && row.createdMs == t
  {
    hide Feeds;
    if rows != [] {
      var n := |rows| - 1;
      TimesMembers(rows[..n], c, t);
      assert rows == rows[..n] + [rows[n]];
    }
  }

  /** With positive times, the creation time of a document is the earliest of its rows, so the same in every order. */
  lemma CreatedIsEarliest(d: Doc, rows: seq<TextChunkLine>, ctx: Context)
    requires IsDoc(d, rows, ctx) && forall row :: row in rows && Feeds(row, d.chunkID) ==> row.createdMs > 0
    ensures IsMin(d.createdMs, rows, d.chunkID, (row: TextChunkLine) => row.createdMs)
  {
    hide Feeds, FromFirst, KeyOf, Extra, TrimSpace;
    var ts := Times(rows, d.chunkID);
    forall t | t in ts ensures t > 0 {
      TimesMembers(rows, d.chunkID, t);
    }
    EarliestMeans(ts);
    TimesMembers(rows, d.chunkID, d.createdMs);
    forall row | row in rows && Feeds(row, d.chunkID) ensures d.createdMs <= row.createdMs {
      TimesMembers(rows, d.chunkID, row.createdMs);
    }
  }

  // ---------------------------------------------------------------- the creation time of a reordered batch

  lemma {:induction false} TimesConcat(a: seq<TextChunkLine>, b: seq<TextChunkLine>, c: ChunkId)
    ensures Times(a + b, c) == Times(a, c) + Times(b, c)
  {
    hide Feeds;
    if b == [] {
      assert a + b == a;
    } else {
      var init := b[..|b| - 1];
      TimesConcat(a, init, c);
      assert (a + b)[..|a + b| - 1] == a + init;
    }
  }

  function Time(row: TextChunkLine, c: ChunkId): seq<int> {
    if Feeds(row, c) then [row.createdMs] else []
  }

  lemma TimesOfOne(row: TextChunkLine, c: ChunkId)
    ensures Times([row], c) == Time(row, c)
  {
    hide Feeds;
    assert [row][..0] == [];
  }

  function Without(rows: seq<TextChunkLine>, i: nat): (r: seq<TextChunkLine>)
    requires i < |rows|
    ensures |r| == |rows| - 1
  {
    rows[..i] + rows[i + 1..]
  }

  lemma TimesWithout(rows: seq<TextChunkLine>, i: nat, c: ChunkId)
    requires i < |rows|
    ensures multiset(rows) == multiset(Without(rows, i)) + multiset{rows[i]}
    ensures multiset(Times(rows, c)) == multiset(Times(Without(rows, i), c)) + multiset(Time(rows[i], c))
  {
    hide Times, Time, Feeds;
    var l, r := rows[..i], rows[i + 1..];
    assert rows == l + [rows[i]] + r;
    TimesOfOne(rows[i], c);
    TimesConcat(l, r, c);
    TimesConcat(l, [rows[i]], c);
    TimesConcat(l + [rows[i]], r, c);
  }

  lemma CancelBag<T>(x: multiset<T>, y: multiset<T>, z: multiset<T>)
    requires x + z == y + z
    ensures x == y
  {
    assert (x + z) - z == x && (y + z) - z == y;
  }

  /** Reordered batches have reordered times. */
  lemma {:induction false} TimesReordered(a: seq<TextChunkLine>, b: seq<TextChunkLine>, c: ChunkId)
    requires Reordered(a, b)
    ensures multiset(Times(a, c)) == multiset(Times(b, c))
    decreases |a|
  {
    hide Times, Time;
    assert |a| == |multiset(a)| == |b|;
    if a == [] {
      assert b == [];
    } else {
      assert a[0] in multiset(b);
      var j :| 0 <= j < |b| && b[j] == a[0];
      TimesWithout(a, 0, c);
      TimesWithout(b, j, c);
      CancelBag(multiset(Without(a, 0)), multiset(Without(b, j)), multiset{a[0]});
      TimesReordered(Without(a, 0), Without(b, j), c);
    }
  }

  /** And every order of the times is that of some order of the batch. */
  lemma {:induction false} TimesLift(rows: seq<TextChunkLine>, c: ChunkId, us: seq<int>) returns (b: seq<TextChunkLine>)
    requires multiset(us) == multiset(Times(rows, c))
    ensures Reordered(rows, b) && Times(b, c) == us
    decreases |us|
  {
    hide Times, Feeds;
    if us == [] {
      b := rows;
      assert |multiset(Times(rows, c))| == 0;
    } else {
      var n := |us| - 1;
      assert us == us[..n] + [us[n]];
      assert us[n] in multiset(Times(rows, c));
      TimesMembers(rows, c, us[n]);
      var row :| row in rows && Feeds(row, c) && row.createdMs == us[n];
      var i :| 0 <= i < |rows| && rows[i] == row;
      TimesWithout(rows, i, c);
      assert multiset(Time(row, c)) == multiset{us[n]};
      CancelBag(multiset(us[..n]), multiset(Times(Without(rows, i), c)), multiset{us[n]});
      var front := TimesLift(Without(rows, i), c, us[..n]);
      b := front + [row];
      TimesOfOne(row, c);
      TimesConcat(front, [row], c);
    }
  }

  lemma {:induction false} FirstFeeding(rows: seq<TextChunkLine>, c: ChunkId) returns (i: nat)
    requires Fed(rows, c)
    ensures i < |rows| && Feeds(rows[i], c) && forall j :: 0 <= j < i ==> !Feeds(rows[j], c)
  {
    hide Feeds;
    var n := |rows| - 1;
    assert rows == rows[..n] + [rows[n]];
    if Fed(rows[..n], c) {
      i := FirstFeeding(rows[..n], c);
      assert forall j :: 0 <= j < n ==> rows[..n][j] == rows[j];
    } else {
      i := n;
      forall j | 0 <= j < i ensures !Feeds(rows[j], c) {
        assert rows[j] in rows[..n];
      }
    }
  }

  lemma ExtremesReordered(a: seq<TextChunkLine>, b: seq<TextChunkLine>, c: ChunkId)
    requires Reordered(a, b)
    ensures forall x, f: TextChunkLine -> int :: IsMin(x, a, c, f) ==> IsMin(x, b, c, f)
    ensures forall x, f: TextChunkLine -> int :: IsMax(x, a, c, f) ==> IsMax(x, b, c, f)
    ensures Fed(a, c) <==> Fed(b, c)
    ensures forall row :: row in b && Feeds(row, c) ==> row in a
  {
    SameRows(a, b);
    hide Feeds, Reordered;
  }

  /** What a reordered batch has for the chunk. */
  lemma GatheredReordered(g: Acc, a: seq<TextChunkLine>, b: seq<TextChunkLine>, c: ChunkId, ctx: Context) returns (h: Acc)
    requires Gathered(g, a, c, ctx) && Reordered(a, b)
    ensures Gathered(h, b, c, ctx) && h.keys == g.keys
  {
    hide Feeds, TrimSpace, Times, Extra, Earliest, KeyOf, Reordered, OrDefault, IsMin, IsMax;
    ExtremesReordered(a, b, c);
    TimesReordered(a, b, c);
    assert |Times(b, c)| == |multiset(Times(b, c))| == |multiset(Times(a, c))| == |Times(a, c)|;
    SameKeys(a, b, c, ctx);
    var i := FirstFeeding(b, c);
    h := g.(createdMs := Earliest(Times(b, c)), extra := Extra(b, c, ctx), sourceType := b[i].sourceType, lang := b[i].lang,
            jobID := OrDefault(b[i].jobID, ctx.jobID), taskID := OrDefault(b[i].taskID, ctx.taskID));
    assert FromFirst(h, b, c, ctx);
  }

  lemma DocReordered(d: Doc, a: seq<TextChunkLine>, b: seq<TextChunkLine>, ctx: Context) returns (e: Doc)
    requires IsDoc(d, a, ctx) && Reordered(a, b)
    ensures IsDoc(e, b, ctx) && e.chunkID == d.chunkID
  {
    var h := GatheredReordered(AccOf(d), a, b, d.chunkID, ctx);
    hide Gathered, StrictlySorted, Reordered;
    e := Doc(d.chunkID, d.entityKeys, h.docID, h.sourceType, h.lang, h.jobID, h.taskID, h.extra, h.createdMs, h.updatedMs,
             h.offset, h.pageNo);
    assert AccOf(e) == h;
  }

  /** The document of a chunk has one creation time in all orders of the batch if and only if its times are steady. */
  lemma CreatedInAnyOrder(d: Doc, a: seq<TextChunkLine>, ctx: Context)
    requires IsDoc(d, a, ctx)
    ensures Steady(Times(a, d.chunkID)) <==> (
      forall b, e :: Reordered(a, b) && IsDoc(e, b, ctx) && e.chunkID == d.chunkID ==> e.createdMs == d.createdMs)
  {
    var c := d.chunkID;
    var ts := Times(a, c);
    CreatedOf(d, a, ctx);
    hide IsDoc, Times, Reordered, Steady, Earliest;
    EarliestInAnyOrder(ts);
    if Steady(ts) {
      forall b, e | Reordered(a, b) && IsDoc(e, b, ctx) && e.chunkID == c ensures e.createdMs == d.createdMs {
        CreatedOf(e, b, ctx);
        TimesReordered(a, b, c);
      }
    } else {
      var us :| us != [] && multiset(us) == multiset(ts) && Earliest(us) != Earliest(ts);
      var b := TimesLift(a, c, us);
      var e := DocReordered(d, a, b, ctx);
      CreatedOf(e, b, ctx);
      assert e.createdMs != d.createdMs;
    }
  }

  lemma CreatedOf(d: Doc, rows: seq<TextChunkLine>, ctx: Context)
    requires IsDoc(d, rows, ctx)
    ensures Times(rows, d.chunkID) != [] && d.createdMs == Earliest(Times(rows, d.chunkID))
  {
  }

  function Row(createdMs: int): TextChunkLine {
    TextChunkLine(Plain("c"), "", "d", "", "", 0, 0, 0, ["k"], "", "", 0, "", "", "", createdMs, 0)
  }

  ghost predicate HasCreated(docs: seq<Doc>, c: ChunkId, createdMs: int) {
    exists d :: d in docs && d.chunkID == c && d.createdMs == createdMs
  }

  /** Two orders of one batch, two creation times. */
  method CreatedDiffers() returns (docs: seq<Doc>, swapped: seq<Doc>)
    ensures HasCreated(docs, Plain("c"), 0) && HasCreated(swapped, Plain("c"), 5)
  {
    hide *;
    docs := DocsOfTwo(5, 0);
    swapped := DocsOfTwo(0, 5);
    assert Earlier(5, 0) == 0 && Earlier(0, 5) == 5 by {
      EarlierExample();
    }
  }

  lemma EarlierExample()
    ensures Earlier(5, 0) == 0 && Earlier(0, 5) == 5
  {
  }

  method DocsOfTwo(x: int, y: int) returns (docs: seq<Doc>)
    ensures HasCreated(docs, Plain("c"), Earlier(x, y))
  {
    var ctx := Context((s: string) => s, (s: string) => map[], "", "");
    assert Normal("k", ctx) == "k" by {
      assert TrimSpace("k") == "k";
    }
    TwoRowsFeed(x, y, ctx);
    hide *;
    var r := EntityChunkDocsFromBatch([Row(x), Row(y)], ctx);
    docs := r.value;
    CreatedOfTwo(docs, x, y, ctx);
  }

  lemma CreatedOfTwo(docs: seq<Doc>, x: int, y: int, ctx: Context)
    requires AreDocs(docs, [Row(x), Row(y)], ctx) && KeyOf("k", [Row(x), Row(y)], Plain("c"), ctx)
    ensures HasCreated(docs, Plain("c"), Earlier(x, y))
  {
    hide IsDoc, KeyOf, Times, Earlier, Row;
    var d :| d in docs && d.chunkID == Plain("c");
    CreatedOf(d, [Row(x), Row(y)], ctx);
    TimesOfTwo(x, y);
    assert [x, y][..1] == [x];
  }

  lemma TimesOfTwo(x: int, y: int)
    ensures Times([Row(x), Row(y)], Plain("c")) == [x, y]
  {
    assert Feeds(Row(x), Plain("c")) && Feeds(Row(y), Plain("c"));
    hide Feeds, Times;
    assert [Row(x), Row(y)] == [Row(x)] + [Row(y)];
    TimesOfOne(Row(x), Plain("c"));
    TimesOfOne(Row(y), Plain("c"));
    TimesConcat([Row(x)], [Row(y)], Plain("c"));
  }

  lemma TwoRowsFeed(x: int, y: int, ctx: Context)
    requires Normal("k", ctx) == "k"
    ensures Acceptable([Row(x), Row(y)]) && KeyOf("k", [Row(x), Row(y)], Plain("c"), ctx)
  {
    var rows := [Row(x), Row(y)];
    RowFeeds(x);
    RowFeeds(y);
    hide Feeds, TrimSpace, Normal, Row;
    assert rows[0] in rows;
    assert forall row :: row in rows ==> TrimSpace(row.docID) == "d";
  }

  lemma RowFeeds(x: int)
    ensures Feeds(Row(x), Plain("c")) && "k" in Row(x).entityKeys && TrimSpace(Row(x).docID) == "d"
  {
    assert Row(x).entityKeys[0] == "k" && TrimSpace("c") == "c" && TrimSpace("d") == "d";
  }
}
