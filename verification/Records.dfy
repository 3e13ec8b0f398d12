/**
 `SplitRecord`: one record becomes one record per chunk, placed by a leftmost byte search that starts
 one byte after the previous chunk.
 */
module Records {
  import opened Text
  import opened Utf8
  import opened ChunkIds
  import opened Decimal
  import opened Merging
  import opened MergeLaws
  import opened RecursiveSplit
  import opened SplitLaws
  import opened Chunker

  datatype SplitError = BadOptions(cause: ChunkError) | NotAligned(part: nat)

  /** Byte offsets, one for each part, strictly increasing, at which the parts stand in the text. */
  ghost predicate Placement(full: seq<byte>, parts: seq<string>, offs: seq<int>) {
    && |offs| == |parts|
    && (forall k :: 0 <= k < |offs| ==> OccursAt(full, Encode(parts[k]), offs[k]))
    && forall k, l :: 0 <= k < l < |offs| ==> offs[k] < offs[l]
  }

  ghost predicate Placeable(full: seq<byte>, parts: seq<string>) {
    exists offs :: Placement(full, parts, offs)
  }

  /** No other placement puts any part earlier. */
  ghost predicate Earliest(full: seq<byte>, parts: seq<string>, offs: seq<int>) {
    && Placement(full, parts, offs)
    && forall other, k :: Placement(full, parts, other) && 0 <= k < |offs| ==> offs[k] <= other[k]
  }

  /** The id of chunk `i` of `n`. */
  function IdOf(rec: TextChunkLine, n: nat, i: nat): ChunkId {
    if n == 1 then rec.chunkID
    else if rec.docID != "" then StableChunkID(rec.docID, rec.pageNo, rec.chunkNo + i)
    else PlainSuffix(rec.chunkID, i)
  }

  /** `%s#%d`; a hashed id keeps its hexadecimal form, here written as its preimage behind a marker. */
  function PlainSuffix(id: ChunkId, i: nat): ChunkId {
    match id
    case Plain(s) => Plain(s + "#" + Itoa(i))
    case Sha256Hex(p) => Plain("sha256:" + p + "#" + Itoa(i))
  }

  /** The output record of chunk `i`: everything but id, text, offset and chunk number is the input's. */
  function LineOf(rec: TextChunkLine, parts: seq<string>, offs: seq<int>, i: nat): TextChunkLine
    requires i < |parts| == |offs|
  {
    rec.(chunkID := IdOf(rec, |parts|, i), text := parts[i], offset := rec.offset + offs[i], chunkNo := rec.chunkNo + i)
  }

  ghost predicate LinesOf(rec: TextChunkLine, parts: seq<string>, offs: seq<int>, out: seq<TextChunkLine>)
    requires |parts| == |offs|
  {
    |out| == |parts| && forall i :: 0 <= i < |out| ==> out[i] == LineOf(rec, parts, offs, i)
  }

  /**
   What the records of one split are, field by field: a single chunk keeps the id of its record; several get the
   hash of document, page and their own number; several without a document get the id of the record, "#" and
   their index.  Text, offset and number are those of the chunk, everything else is the record's.
   */
  ghost predicate SplitInto(rec: TextChunkLine, parts: seq<string>, offs: seq<int>, out: seq<TextChunkLine>) {
    && |out| == |parts| == |offs|
    && (forall i :: 0 <= i < |out| ==>
          out[i] == rec.(chunkID := out[i].chunkID, text := parts[i], offset := rec.offset + offs[i], chunkNo := rec.chunkNo + i))
    && (|out| == 1 ==> out[0].chunkID == rec.chunkID)
    && (|out| > 1 && rec.docID != "" ==> forall i :: 0 <= i < |out| ==>
          out[i].chunkID == Sha256Hex(rec.docID + [NUL] + Itoa(rec.pageNo) + [NUL] + Itoa(out[i].chunkNo)))
    && (|out| > 1 && rec.docID == "" ==> forall i :: 0 <= i < |out| ==>
          match rec.chunkID
          case Plain(s) => out[i].chunkID == Plain(s + "#" + Itoa(i))
          case Sha256Hex(p) => out[i].chunkID == Plain("sha256:" + p + "#" + Itoa(i)))
  }

  lemma LinesAreSplitInto(rec: TextChunkLine, parts: seq<string>, offs: seq<int>, out: seq<TextChunkLine>)
    requires |parts| == |offs| && LinesOf(rec, parts, offs, out)
    ensures SplitInto(rec, parts, offs, out)
  {
    hide Itoa;
  }

  /** The first `i` parts are placed as early as possible. */
  ghost predicate Placed(full: seq<byte>, parts: seq<string>, offs: seq<int>, i: nat)
    requires i <= |parts|
  {
    Earliest(full, parts[..i], offs)
  }

  lemma PlacementPrefix(full: seq<byte>, parts: seq<string>, offs: seq<int>, i: nat)
    requires i <= |parts| && Placement(full, parts, offs)
    ensures Placement(full, parts[..i], offs[..i])
  {
  }

  /** Greedy step: the leftmost occurrence behind the previous part extends an earliest placement to an earliest one. */
  lemma GreedyStep(full: seq<byte>, parts: seq<string>, offs: seq<int>, i: nat, min: nat, at: int)
    requires i < |parts| && Placed(full, parts, offs, i)
    requires min == if i == 0 then 0 else offs[i - 1] + 1
    requires at >= min && OccursAt(full, Encode(parts[i]), at)
    requires forall j :: min <= j < at ==> !OccursAt(full, Encode(parts[i]), j)
    ensures Placed(full, parts, offs + [at], i + 1)
  {
    hide Encode;
    var more := offs + [at];
    assert parts[..i + 1][..i] == parts[..i];
    forall k, l | 0 <= k < l < |more| ensures more[k] < more[l] {
    }
    assert Placement(full, parts[..i + 1], more) by {
      forall k | 0 <= k < |more| ensures OccursAt(full, Encode(parts[..i + 1][k]), more[k]) {
        if k < i {
          assert parts[..i + 1][k] == parts[..i][k];
        }
      }
    }
    forall other, k | Placement(full, parts[..i + 1], other) && 0 <= k < |more| ensures more[k] <= other[k] {
      PlacementPrefix(full, parts[..i + 1], other, i);
      assert OccursAt(full, Encode(parts[..i + 1][i]), other[i]);
      if k < i {
        assert offs[k] <= other[..i][k];
      } else if i > 0 {
        assert offs[i - 1] <= other[..i][i - 1];
        assert other[i - 1] < other[i];
      }
    }
  }

  /** Any placement puts part `i` behind the earliest place of the part before it. */
  lemma NoEarlier(full: seq<byte>, parts: seq<string>, offs: seq<int>, i: nat, min: nat, other: seq<int>)
    requires i < |parts| && Placed(full, parts, offs, i)
    requires min == if i == 0 then 0 else offs[i - 1] + 1
    requires Placement(full, parts[..i + 1], other)
    ensures OccursAt(full, Encode(parts[i]), other[i]) && other[i] >= min
  {
    hide Encode;
    assert parts[..i + 1][..i] == parts[..i];
    PlacementPrefix(full, parts[..i + 1], other, i);
    assert OccursAt(full, Encode(parts[..i + 1][i]), other[i]);
    if i > 0 {
      assert offs[i - 1] <= other[..i][i - 1];
      assert other[i - 1] < other[i];
    }
  }

  /** Greedy search is complete: if it finds nothing behind an earliest placement, there is no placement at all. */
  lemma GreedyStuck(full: seq<byte>, parts: seq<string>, offs: seq<int>, i: nat, min: nat)
    requires i < |parts| && Placed(full, parts, offs, i)
    requires min == if i == 0 then 0 else offs[i - 1] + 1
    requires forall j :: min <= j ==> !OccursAt(full, Encode(parts[i]), j)
    ensures !Placeable(full, parts[..i + 1]) && !Placeable(full, parts)
  {
    hide Encode, OccursAt;
    if Placeable(full, parts[..i + 1]) {
      var other :| Placement(full, parts[..i + 1], other);
      NoEarlier(full, parts, offs, i, min, other);
    }
    if Placeable(full, parts) {
      var all :| Placement(full, parts, all);
      PlacementPrefix(full, parts, all, i + 1);
    }
  }

  lemma NothingPlaced(full: seq<byte>, parts: seq<string>)
    ensures Placed(full, parts, [], 0)
  {
  }

  lemma AllPlaced(full: seq<byte>, parts: seq<string>, offs: seq<int>)
    requires Placed(full, parts, offs, |parts|)
    ensures Earliest(full, parts, offs) && Placeable(full, parts)
  {
    assert parts[..|parts|] == parts;
  }

  lemma EncodeNonEmpty(s: string)
    ensures s != "" ==> Encode(s) != []
  {
  }

  lemma ChunkNonEmpty(text: string, o: Options, nd: char -> bool, i: nat)
    requires i < |Chunks(text, o, nd)|
    ensures Chunks(text, o, nd)[i] != ""
  {
    ChunkIsBody(text, o, nd, i);
  }

  /**
   Succeeds exactly when the chunks can be placed in the text at strictly increasing byte offsets, and then
   returns the earliest such placement; the error names the first chunk that cannot be placed.
   */
  method SplitRecord(rec: TextChunkLine, o: Options, nd: char -> bool)
    returns (r: Result<seq<TextChunkLine>, SplitError>, ghost offs: seq<int>)
    ensures !Accepted(o) ==> r == Err(BadOptions(OverlapNotBelowSize(EffectiveOverlap(o), EffectiveSize(o))))
    ensures Accepted(o) ==> (r.Ok? <==> Placeable(Encode(rec.text), Chunks(rec.text, o, nd)))
    ensures r.Ok? ==> Earliest(Encode(rec.text), Chunks(rec.text, o, nd), offs)
    ensures r.Ok? ==> LinesOf(rec, Chunks(rec.text, o, nd), offs, r.value)
    ensures r.Ok? ==> SplitInto(rec, Chunks(rec.text, o, nd), offs, r.value)
    ensures Accepted(o) && r.Err? ==>
      var parts := Chunks(rec.text, o, nd);
      && r.error.NotAligned? && r.error.part < |parts|
      && Placeable(Encode(rec.text), parts[..r.error.part])
      && !Placeable(Encode(rec.text), parts[..r.error.part + 1])
  {
    hide Placed, Chunks, Placeable, Encode, IdOf, SplitInto;
    offs := [];
    var chunked := ChunkTextRecursively(rec.text, o, nd);
    if chunked.Err? {
      return Err(BadOptions(chunked.error)), [];
    }
    var parts := chunked.value;
    var out: seq<TextChunkLine> := [];
    var full := Encode(rec.text);
    var prevStart := -1;
    NothingPlaced(full, parts);
    for i := 0 to |parts|
      invariant |offs| == |out| == i && Placed(full, parts, offs, i)
      invariant i > 0 ==> prevStart >= 0 && prevStart == offs[i - 1]
      invariant forall k :: 0 <= k < i ==>
        out[k] == rec.(chunkID := IdOf(rec, |parts|, k), text := parts[k], offset := rec.offset + offs[k], chunkNo := rec.chunkNo + k)
    {
      var t := Encode(parts[i]);
      ChunkNonEmpty(rec.text, o, nd, i);
      EncodeNonEmpty(parts[i]);
      if |t| == 0 {
        // An empty chunk would be reported here; no chunk is empty.
        assert false;
      }
      var minB := 0;
      if i > 0 {
        minB := prevStart + 1;
      }
      if minB > |full| - |t| {
        PlacedPrefix(full, parts, offs, i);
        GreedyStuck(full, parts, offs, i, minB);
        return Err(NotAligned(i)), [];
      }
      var absByte := Index(full, t, minB);
      if absByte < 0 {
        PlacedPrefix(full, parts, offs, i);
        GreedyStuck(full, parts, offs, i, minB);
        return Err(NotAligned(i)), [];
      }
      GreedyStep(full, parts, offs, i, minB, absByte);
      prevStart := absByte;
      offs := offs + [absByte];
      out := out + [rec.(chunkID := IdOf(rec, |parts|, i), text := parts[i], offset := rec.offset + absByte, chunkNo := rec.chunkNo + i)];
    }
    AllPlaced(full, parts, offs);
    LinesAreSplitInto(rec, parts, offs, out);
    r := Ok(out);
  }

  lemma PlacedPrefix(full: seq<byte>, parts: seq<string>, offs: seq<int>, i: nat)
    requires i <= |parts| && Placed(full, parts, offs, i)
    ensures Placeable(full, parts[..i])
  {
  }

  // ---------------------------------------------------------------- as a function of the record

  /** How records are split. */
  datatype Splitting = Splitting(o: Options, nd: char -> bool)

  /** Where the search places the first `i` parts. */
  function Leftmost(full: seq<byte>, parts: seq<string>, i: nat): (r: Result<seq<int>, Unsplit>)
    requires i <= |parts|
    ensures r.Ok? ==> |r.value| == i && forall k :: 0 <= k < i ==> r.value[k] >= 0
  {
    if i == 0 then Ok([])
    else
      var before := Leftmost(full, parts, i - 1);
      if before.Err? then before
      else
        var at := Index(full, Encode(parts[i - 1]), if i == 1 then 0 else before.value[i - 2] + 1);
        if at < 0 then Err(Unsplit) else Ok(before.value + [at])
  }

  lemma NoneLeftmost(full: seq<byte>, parts: seq<string>)
    ensures Leftmost(full, parts, 0) == Ok([])
  {
  }

  lemma LeftmostStep(full: seq<byte>, parts: seq<string>, i: nat)
    requires 0 < i <= |parts|
    ensures var before, r := Leftmost(full, parts, i - 1), Leftmost(full, parts, i);
      && (before.Err? ==> r.Err?)
      && (before.Ok? ==>
            var at := Index(full, Encode(parts[i - 1]), if i == 1 then 0 else before.value[i - 2] + 1);
            r == if at < 0 then Err(Unsplit) else Ok(before.value + [at]))
  {
    hide Encode;
  }

  /** The search places the parts as early as possible, and fails only if they cannot be placed. */
  lemma {:induction false} LeftmostIsPlaced(full: seq<byte>, parts: seq<string>, i: nat)
    requires i <= |parts|
    ensures var r := Leftmost(full, parts, i); if r.Ok? then Placed(full, parts, r.value, i) else !Placeable(full, parts)
  {
    hide Placed, Placeable, Encode, Leftmost, OccursAt;
    if i == 0 {
      NothingPlaced(full, parts);
      NoneLeftmost(full, parts);
    } else {
      LeftmostStep(full, parts, i);
      LeftmostIsPlaced(full, parts, i - 1);
      var before := Leftmost(full, parts, i - 1);
      if before.Ok? {
        var min := if i == 1 then 0 else before.value[i - 2] + 1;
        var at := Index(full, Encode(parts[i - 1]), min);
        if at >= 0 {
          GreedyStep(full, parts, before.value, i - 1, min, at);
        } else {
          GreedyStuck(full, parts, before.value, i - 1, min);
        }
      }
    }
  }

  lemma EarliestIsUnique(full: seq<byte>, parts: seq<string>, a: seq<int>, b: seq<int>)
    requires Earliest(full, parts, a) && Earliest(full, parts, b)
    ensures a == b
  {
    hide Encode;
    forall k | 0 <= k < |a| ensures a[k] == b[k] {
      assert a[k] <= b[k] && b[k] <= a[k];
    }
  }

  function LinesAt(rec: TextChunkLine, parts: seq<string>, offs: seq<int>): (r: seq<TextChunkLine>)
    requires |parts| == |offs|
    ensures |r| == |parts| && forall i :: 0 <= i < |r| ==> r[i] == LineOf(rec, parts, offs, i)
  {
    seq(|parts|, i requires 0 <= i < |parts| => LineOf(rec, parts, offs, i))
  }

  /** The records that a record is split into, if it can be split. */
  function SplitOf(rec: TextChunkLine, how: Splitting): Result<seq<TextChunkLine>, Unsplit> {
    var parts := Chunks(rec.text, how.o, how.nd);
    var offs := Leftmost(Encode(rec.text), parts, |parts|);
    if !Accepted(how.o) || offs.Err? then Err(Unsplit) else Ok(LinesAt(rec, parts, offs.value))
  }

  /** What splitting as a function gives. */
  lemma SplitOfMeans(rec: TextChunkLine, how: Splitting) returns (offs: seq<int>)
    ensures var r, full, parts := SplitOf(rec, how), Encode(rec.text), Chunks(rec.text, how.o, how.nd);
      && (r.Ok? <==> Accepted(how.o) && Placeable(full, parts))
      && (r.Ok? ==> Earliest(full, parts, offs) && LinesOf(rec, parts, offs, r.value) && SplitInto(rec, parts, offs, r.value))
  {
    hide Encode, Chunks, Placeable, Placed, Earliest, LineOf, Leftmost, SplitInto;
    var full, parts := Encode(rec.text), Chunks(rec.text, how.o, how.nd);
    LeftmostIsPlaced(full, parts, |parts|);
    offs := [];
    if Leftmost(full, parts, |parts|).Ok? {
      offs := Leftmost(full, parts, |parts|).value;
      AllPlaced(full, parts, offs);
      LinesAreSplitInto(rec, parts, offs, LinesAt(rec, parts, offs));
    }
  }

  /** `SplitRecord` computes it. */
  method SplitAgrees(rec: TextChunkLine, how: Splitting) returns (r: Result<seq<TextChunkLine>, SplitError>)
    ensures r.Ok? <==> SplitOf(rec, how).Ok?
    ensures r.Ok? ==> r.value == SplitOf(rec, how).value
  {
    hide Encode, Chunks, Placeable, Earliest, SplitOf, LineOf, SplitInto;
    ghost var offs;
    r, offs := SplitRecord(rec, how.o, how.nd);
    ghost var leftmost := SplitOfMeans(rec, how);
    if r.Ok? {
      EarliestIsUnique(Encode(rec.text), Chunks(rec.text, how.o, how.nd), offs, leftmost);
    }
  }

  // ---------------------------------------------------------------- when it succeeds

  /** The bodies of the windows advance. */
  ghost predicate BodiesAdvance(text: string, o: Options, nd: char -> bool) {
    var w := Windows(text, o, nd);
    forall k, l :: 0 <= k < l < |w| ==> Body(text, w[k]).lo < Body(text, w[l]).lo
  }

  /** `offs` are the byte offsets at which the bodies start. */
  ghost predicate StartsOfBodies(text: string, o: Options, nd: char -> bool, offs: seq<int>) {
    var w := Windows(text, o, nd);
    && |offs| == |w|
    && forall k :: 0 <= k < |w| ==> Body(text, w[k]).lo <= |text| && offs[k] == ByteOffset(text, Body(text, w[k]).lo)
  }

  lemma StartsExist(text: string, o: Options, nd: char -> bool, n: nat) returns (offs: seq<int>)
    requires PLACEHOLDER !in text && n <= |Windows(text, o, nd)|
    ensures |offs| == n && forall k :: 0 <= k < n ==>
      var b := Body(text, Windows(text, o, nd)[k]); b.lo <= |text| && offs[k] == ByteOffset(text, b.lo)
  {
    RestoredText(text, nd);
    hide Windows, TrimSpan, ByteOffset;
    offs := [];
    for i := 0 to n
      invariant |offs| == i && forall k :: 0 <= k < i ==>
        var b := Body(text, Windows(text, o, nd)[k]); b.lo <= |text| && offs[k] == ByteOffset(text, b.lo)
    {
      offs := offs + [ByteOffset(text, Body(text, Windows(text, o, nd)[i]).lo)];
    }
  }

  lemma BodyOccurs(text: string, o: Options, nd: char -> bool, k: nat)
    requires PLACEHOLDER !in text && k < |Windows(text, o, nd)|
    ensures var b := Body(text, Windows(text, o, nd)[k]);
      b.lo < |text| && OccursAt(Encode(text), Encode(Chunks(text, o, nd)[k]), ByteOffset(text, b.lo))
  {
    RestoredText(text, nd);
    hide Windows, Encode, TrimSpan, ByteOffset, TrimSpace;
    ChunkIsBody(text, o, nd, k);
    TextToBytes(text, Chunks(text, o, nd)[k], Body(text, Windows(text, o, nd)[k]).lo);
  }

  /** If the bodies advance, the chunks can be placed at the starts of their bodies; so `SplitRecord` succeeds. */
  lemma AdvancingIsPlaceable(text: string, o: Options, nd: char -> bool) returns (offs: seq<int>)
    requires PLACEHOLDER !in text && BodiesAdvance(text, o, nd)
    ensures StartsOfBodies(text, o, nd, offs)
    ensures Placement(Encode(text), Chunks(text, o, nd), offs) && Placeable(Encode(text), Chunks(text, o, nd))
  {
    hide Windows, Encode, TrimSpan, ByteOffset, TrimSpace, Unprotect;
    var w := Windows(text, o, nd);
    offs := StartsExist(text, o, nd, |w|);
    var parts := Chunks(text, o, nd);
    hide Chunks;
    ChunksAndWindows(text, o, nd);
    forall k | 0 <= k < |offs| ensures OccursAt(Encode(text), Encode(parts[k]), offs[k]) {
      BodyOccurs(text, o, nd, k);
    }
    forall k, l | 0 <= k < l < |offs| ensures offs[k] < offs[l] {
      OffsetsIncrease(text, Body(text, w[k]).lo, Body(text, w[l]).lo);
    }
    assert Placement(Encode(text), parts, offs);
  }

  lemma ChunksAndWindows(text: string, o: Options, nd: char -> bool)
    ensures |Chunks(text, o, nd)| == |Windows(text, o, nd)|
  {
  }

  /** The search never places a chunk later than its body, when the bodies advance. */
  lemma NeverLaterThanBody(text: string, o: Options, nd: char -> bool, offs: seq<int>, k: nat)
    requires PLACEHOLDER !in text && BodiesAdvance(text, o, nd)
    requires Earliest(Encode(text), Chunks(text, o, nd), offs) && k < |offs|
    ensures k < |Windows(text, o, nd)|
    ensures var b := Body(text, Windows(text, o, nd)[k]); b.lo <= |text| && offs[k] <= ByteOffset(text, b.lo)
  {
    hide Windows, Encode, TrimSpan, ByteOffset, Chunks;
    var starts := AdvancingIsPlaceable(text, o, nd);
    ChunksAndWindows(text, o, nd);
  }

  /** Without overlap the bodies always advance, whether or not separators are kept. */
  lemma NoOverlapAdvances(text: string, o: Options, nd: char -> bool)
    requires Accepted(o) && EffectiveOverlap(o) == 0
    ensures BodiesAdvance(text, o, nd)
  {
    hide Windows, TrimSpan;
    var w := Windows(text, o, nd);
    forall k, l | 0 <= k < l < |w| ensures Body(text, w[k]).lo < Body(text, w[l]).lo {
      NoOverlapBodiesAdvance(text, o, nd, k, l);
      ChunkIsBody(text, o, nd, k);
    }
  }

  /** So without overlap every accepted text free of the placeholder can be placed: `SplitRecord` succeeds on it. */
  lemma NoOverlapSucceeds(text: string, o: Options, nd: char -> bool)
    requires Accepted(o) && EffectiveOverlap(o) == 0 && PLACEHOLDER !in text
    ensures Placeable(Encode(text), Chunks(text, o, nd))
  {
    hide BodiesAdvance, Placeable, Chunks, Encode;
    NoOverlapAdvances(text, o, nd);
    var offs := AdvancingIsPlaceable(text, o, nd);
  }

  /** A visible code point of the restored text in `[lo, hi)`. */
  ghost predicate VisibleBetween(text: string, lo: int, hi: int) {
    exists p :: 0 <= p < |text| && lo <= p < hi && !IsSpace(text[p])
  }

  /** One body starts before another if and only if something visible stands between the starts of their windows. */
  lemma AdvancesIfVisible(text: string, o: Options, nd: char -> bool, k: nat, l: nat)
    requires k < |Windows(text, o, nd)| && l < |Windows(text, o, nd)|
    ensures var w := Windows(text, o, nd);
      Body(text, w[k]).lo < Body(text, w[l]).lo <==> VisibleBetween(Unprotect(text), w[k].lo, w[l].lo)
  {
    hide Windows, TrimSpan, IsSpace, Unprotect;
    var u, v, w := Unprotect(text), Windows(text, o, nd)[k], Windows(text, o, nd)[l];
    ChunkIsBody(text, o, nd, k);
    ChunkIsBody(text, o, nd, l);
    TrimSpanEnds(u, v);
    TrimSpanEnds(u, w);
    var b := Body(text, v).lo;
    assert v.lo <= b < |u| && !IsSpace(u[b]);
  }

  /** Whatever the overlap: the bodies advance if and only if something visible stands between any two window starts. */
  lemma BodiesAdvanceIfVisible(text: string, o: Options, nd: char -> bool)
    ensures BodiesAdvance(text, o, nd) <==> (
      var w := Windows(text, o, nd);
      forall k, l :: 0 <= k < l < |w| ==> VisibleBetween(Unprotect(text), w[k].lo, w[l].lo))
  {
    hide Windows, Body, VisibleBetween, Unprotect;
    var w := Windows(text, o, nd);
    forall k, l | 0 <= k < l < |w|
      ensures Body(text, w[k]).lo < Body(text, w[l]).lo <==> VisibleBetween(Unprotect(text), w[k].lo, w[l].lo)
    {
      AdvancesIfVisible(text, o, nd, k, l);
    }
  }

  /** With kept separators and no white space every accepted text can be placed, for any overlap. */
  lemma NoSpacesSucceed(text: string, o: Options, nd: char -> bool)
    requires Accepted(o) && o.keepSeparator && PLACEHOLDER !in text && forall c :: c in text ==> !IsSpace(c)
    ensures BodiesAdvance(text, o, nd) && Placeable(Encode(text), Chunks(text, o, nd))
  {
    hide Windows, Body, IsSpace, Encode, Chunks, Placeable, TrimSpan;
    RestoredText(text, nd);
    var w := Windows(text, o, nd);
    forall k, l | 0 <= k < l < |w| ensures VisibleBetween(Unprotect(text), w[k].lo, w[l].lo) {
      WindowsInOrder(text, o, nd, k, l);
      ChunkIsBody(text, o, nd, k);
      assert text[w[k].lo] in text;
    }
    BodiesAdvanceIfVisible(text, o, nd);
    var offs := AdvancingIsPlaceable(text, o, nd);
  }

  /** The offsets found are places of the text: a code point starts there and the chunk is spelled from there. */
  lemma PlacedAtCodePoints(text: string, o: Options, nd: char -> bool, offs: seq<int>, k: nat) returns (j: nat)
    requires Placement(Encode(text), Chunks(text, o, nd), offs) && k < |offs|
    ensures j < |text| && offs[k] == ByteOffset(text, j) && OccursAt(text, Chunks(text, o, nd)[k], j)
  {
    hide Chunks, Encode, ByteOffset;
    ChunkNonEmpty(text, o, nd, k);
    assert OccursAt(Encode(text), Encode(Chunks(text, o, nd)[k]), offs[k]);
    j := BytesToText(text, Chunks(text, o, nd)[k], offs[k]);
  }

  /** The records of one split have pairwise different ids and consecutive chunk numbers. */
  lemma DistinctIds(rec: TextChunkLine, parts: seq<string>, offs: seq<int>, out: seq<TextChunkLine>, i: nat, j: nat)
    requires |parts| == |offs| && LinesOf(rec, parts, offs, out) && i < j < |out|
    ensures out[i].chunkID != out[j].chunkID && out[j].chunkNo == out[i].chunkNo + (j - i)
  {
    if rec.docID != "" {
      if out[i].chunkID == out[j].chunkID {
        PreimageInjective(rec.docID, rec.pageNo, rec.chunkNo + i, rec.docID, rec.pageNo, rec.chunkNo + j);
      }
    } else {
      var head := match rec.chunkID case Plain(s) => s + "#" case Sha256Hex(p) => "sha256:" + p + "#";
      assert out[i].chunkID == Plain(head + Itoa(i)) && out[j].chunkID == Plain(head + Itoa(j));
      if head + Itoa(i) == head + Itoa(j) {
        assert (head + Itoa(i))[|head|..] == Itoa(i) && (head + Itoa(j))[|head|..] == Itoa(j);
        ItoaInjective(i, j);
      }
    }
  }

  ghost predicate ShareId(a: TextChunkLine, m: nat, b: TextChunkLine, n: nat) {
    exists i, j :: 0 <= i < m && 0 <= j < n && IdOf(a, m, i) == IdOf(b, n, j)
  }

  /** Two records, each split into several chunks, share an id exactly if document and page agree and their ranges of numbers meet. */
  lemma SharedIds(a: TextChunkLine, m: nat, b: TextChunkLine, n: nat)
    requires m > 1 && n > 1 && a.docID != "" && b.docID != ""
    ensures ShareId(a, m, b, n) <==> (
      a.docID == b.docID && a.pageNo == b.pageNo && a.chunkNo < b.chunkNo + n && b.chunkNo < a.chunkNo + m)
  {
    hide StableChunkID, PlainSuffix;
    if ShareId(a, m, b, n) {
      var i, j :| 0 <= i < m && 0 <= j < n && IdOf(a, m, i) == IdOf(b, n, j);
      StableIdsDiffer(a.docID, a.pageNo, a.chunkNo + i, b.docID, b.pageNo, b.chunkNo + j);
    }
    if a.docID == b.docID && a.pageNo == b.pageNo && a.chunkNo < b.chunkNo + n && b.chunkNo < a.chunkNo + m {
      var first := if a.chunkNo < b.chunkNo then b.chunkNo else a.chunkNo;
      assert IdOf(a, m, first - a.chunkNo) == IdOf(b, n, first - b.chunkNo);
    }
  }

  // ---------------------------------------------------------------- when it fails

  const EXAMPLE: string := "x ab"
  const EXAMPLE_OPTIONS: Options := Options(2, 1, [""], true)

  lemma ExampleSpaces()
    ensures !IsSpace('x') && IsSpace(' ') && !IsSpace('a') && !IsSpace('b')
  {
  }

  /** Two code points at a time, one kept: "x ", " a", "ab". */
  lemma ExampleGroups()
    ensures AllGroups(RuneSpans(4), 0, Limits(2, 1)) == [Group(0, 2), Group(1, 3), Group(2, 4)]
  {
    var sp, lim := RuneSpans(4), Limits(2, 1);
    var gs := [Group(0, 2), Group(1, 3), Group(2, 4)];
    assert Follows(sp, 0, lim, gs[0], gs[1]);
    assert Follows(sp, 0, lim, gs[1], gs[2]);
    PlanIsUnique(sp, 0, lim, 0, 1, gs);
  }

  lemma ExampleMerge()
    ensures Tiles(EXAMPLE, RuneSpans(4), "")
    ensures MergeCuts(EXAMPLE, RuneSpans(4), "", Config(2, 1, true), 0, 4)
         == [Cut(Span(0, 2), true), Cut(Span(1, 3), true), Cut(Span(2, 4), true)]
  {
    hide Blank, AllGroups, IsSpace;
    var sp := RuneSpans(4);
    RuneTiles(EXAMPLE);
    ExampleSpaces();
    ExampleGroups();
    var gs := AllGroups(sp, 0, Limits(2, 1));
    VisibleNotBlank(EXAMPLE, Span(0, 2), 0);
    VisibleNotBlank(EXAMPLE, Span(1, 3), 2);
    VisibleNotBlank(EXAMPLE, Span(2, 4), 2);
    ExampleKept(EXAMPLE, sp, gs);
    assert sp[0..4] == sp;
  }

  lemma ExampleCuts()
    ensures Cuts(EXAMPLE, [""], Config(2, 1, true)) == [Cut(Span(0, 2), true), Cut(Span(1, 3), true), Cut(Span(2, 4), true)]
  {
    hide *;
    ExampleMerge();
    ExamplePieces();
    ExampleLengths();
    ExampleWalk(RuneSpans(4), Config(2, 1, true));
    CutsAreWalk(EXAMPLE, [""], Config(2, 1, true));
  }

  lemma ExamplePieces()
    ensures Separator(EXAMPLE, [""]) == "" && Remaining(EXAMPLE, [""]) == []
    ensures PieceSpans(EXAMPLE, "", true) == RuneSpans(4) && Glue("", true) == ""
  {
  }

  lemma ExampleLengths()
    ensures |RuneSpans(4)| == 4 && forall i :: 0 <= i < 4 ==> RuneSpans(4)[i].Len() == 1
  {
  }

  /** All pieces are short, so they are all merged at the end. */
  lemma ExampleWalk(sp: seq<Span>, cfg: Config)
    requires Tiles(EXAMPLE, sp, "") && |sp| == 4 && forall i :: 0 <= i < 4 ==> sp[i].Len() < cfg.size
    ensures Walk(EXAMPLE, sp, "", [], cfg, 0, 0) == MergeCuts(EXAMPLE, sp, "", cfg, 0, 4)
  {
    hide MergeCuts, Tiles, AllFit, LongCuts;
    assert Walk(EXAMPLE, sp, "", [], cfg, 0, 4) == MergeCuts(EXAMPLE, sp, "", cfg, 0, 4);
    assert Walk(EXAMPLE, sp, "", [], cfg, 0, 2) == Walk(EXAMPLE, sp, "", [], cfg, 0, 4);
    assert Walk(EXAMPLE, sp, "", [], cfg, 0, 0) == Walk(EXAMPLE, sp, "", [], cfg, 0, 2);
  }

  lemma ExampleKept(t: string, sp: seq<Span>, gs: seq<Group>)
    requires |gs| == 3 && GroupsFit(t, sp, gs)
    requires forall k :: 0 <= k < 3 ==> !Blank(t, GroupSpan(sp, gs[k]))
    ensures Kept(t, sp, gs) == [GroupSpan(sp, gs[0]), GroupSpan(sp, gs[1]), GroupSpan(sp, gs[2])]
  {
    hide Blank;
    assert gs[..2][..1] == [gs[0]] && gs[..1][..0] == [];
    assert Kept(t, sp, gs[..1]) == [GroupSpan(sp, gs[0])];
    assert gs[..2][..1] == gs[..1];
    assert Kept(t, sp, gs[..2]) == [GroupSpan(sp, gs[0]), GroupSpan(sp, gs[1])];
  }

  lemma ExampleProtect(nd: char -> bool)
    ensures Protect(EXAMPLE, nd) == EXAMPLE && Unprotect(EXAMPLE) == EXAMPLE
  {
    var t := EXAMPLE;
    UnprotectProtect(t, nd);
    forall k | 0 <= k < |t| ensures Protect(t, nd)[k] == t[k] {
      ProtectFromOnlyDots(t, 0, nd, k);
    }
  }

  lemma ExampleVisible()
    ensures var cuts := [Cut(Span(0, 2), true), Cut(Span(1, 3), true), Cut(Span(2, 4), true)];
      AllFit(EXAMPLE, cuts) && VisibleFirst(EXAMPLE, cuts, 3) == [Span(0, 2), Span(1, 3), Span(2, 4)]
  {
    var t := EXAMPLE;
    var cuts := [Cut(Span(0, 2), true), Cut(Span(1, 3), true), Cut(Span(2, 4), true)];
    ExampleSpaces();
    VisibleNotBlank(t, Span(0, 2), 0);
    VisibleNotBlank(t, Span(1, 3), 2);
    VisibleNotBlank(t, Span(2, 4), 2);
    hide Blank, IsSpace;
    assert VisibleFirst(t, cuts, 1) == [Span(0, 2)];
    assert VisibleFirst(t, cuts, 2) == [Span(0, 2), Span(1, 3)];
  }

  lemma ExampleWindows(nd: char -> bool)
    ensures Unprotect(EXAMPLE) == EXAMPLE
    ensures Windows(EXAMPLE, EXAMPLE_OPTIONS, nd) == [Span(0, 2), Span(1, 3), Span(2, 4)]
  {
    hide Cuts, Blank, IsSpace, VisibleFirst, Protect, Unprotect;
    ExampleProtect(nd);
    ExampleCuts();
    ExampleVisible();
  }

  lemma ExampleBodies(nd: char -> bool)
    ensures Unprotect(EXAMPLE) == EXAMPLE && |Windows(EXAMPLE, EXAMPLE_OPTIONS, nd)| == 3
    ensures Body(EXAMPLE, Windows(EXAMPLE, EXAMPLE_OPTIONS, nd)[1]) == Span(2, 3)
    ensures Body(EXAMPLE, Windows(EXAMPLE, EXAMPLE_OPTIONS, nd)[2]) == Span(2, 4)
  {
    var w := Windows(EXAMPLE, EXAMPLE_OPTIONS, nd);
    ExampleWindows(nd);
    ExampleSpaces();
    hide Windows, IsSpace;
    TrimSpanEnds(EXAMPLE, w[1]);
    TrimSpanEnds(EXAMPLE, w[2]);
  }

  /** The second and the third chunk, "a" and "ab", stand at one place only. */
  lemma ExampleOffset(nd: char -> bool, k: nat, b: int)
    requires 1 <= k <= 2 && |Chunks(EXAMPLE, EXAMPLE_OPTIONS, nd)| == 3
    requires OccursAt(Encode(EXAMPLE), Encode(Chunks(EXAMPLE, EXAMPLE_OPTIONS, nd)[k]), b)
    ensures b == ByteOffset(EXAMPLE, 2)
  {
    var t, o := EXAMPLE, EXAMPLE_OPTIONS;
    ExampleBodies(nd);
    hide Windows, Encode, TrimSpan, Chunks, ByteOffset;
    ChunkIsBody(t, o, nd, k);
    var c := Chunks(t, o, nd)[k];
    assert c == t[2..k + 2];
    var j := BytesToText(t, c, b);
    assert t[j..j + k][0] == t[j] && c[0] == 'a';
  }

  /** With overlap the bodies need not advance, and then the search can fail although every chunk stands in the text. */
  lemma OverlapCanMisalign(nd: char -> bool)
    ensures Accepted(EXAMPLE_OPTIONS) && PLACEHOLDER !in EXAMPLE
    ensures !BodiesAdvance(EXAMPLE, EXAMPLE_OPTIONS, nd)
    ensures !Placeable(Encode(EXAMPLE), Chunks(EXAMPLE, EXAMPLE_OPTIONS, nd))
  {
    var t, o := EXAMPLE, EXAMPLE_OPTIONS;
    ExampleBodies(nd);
    hide Windows, Encode, TrimSpan, Chunks;
    ChunksAndWindows(t, o, nd);
    if Placeable(Encode(t), Chunks(t, o, nd)) {
      var offs :| Placement(Encode(t), Chunks(t, o, nd), offs);
      ExampleOffset(nd, 1, offs[1]);
      ExampleOffset(nd, 2, offs[2]);
    }
  }
}
