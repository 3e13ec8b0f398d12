/** Merging Milvus and Elasticsearch hits into one list, in place, with an early exit. */
module RecallMerge {
  import opened Text
  import opened Deduplication

  datatype Page = NoPage | OnPage(n: int)

  datatype Hit = Hit(
    chunkID: string, docID: string, snippet: string, score: real, sourceType: string, lang: string,
    ts: int, createdTs: int, urlOrDocID: string, pdfPage: Page, title: string, offset: int, pageNo: int,
    source: string, recallSource: string)

  const MILVUS := "milvus"
  const ES := "es"
  const BOTH := "both"

  function IdKey(id: string): Key<string> {
    if id == "" then NoKey else By(id)
  }

  function IdsOf(hits: seq<Hit>): (r: seq<string>)
    ensures |r| == |hits| && forall i :: 0 <= i < |r| ==> r[i] == hits[i].chunkID
  {
    if hits == [] then [] else IdsOf(hits[..|hits| - 1]) + [hits[|hits| - 1].chunkID]
  }

  /** The distinct ids of all Milvus hits and the first `n` Elasticsearch hits, in order. */
  function MergedIds(milvus: seq<Hit>, es: seq<Hit>, n: nat): seq<string>
    requires n <= |es|
  {
    Distinct(IdsOf(milvus) + IdsOf(es)[..n], IdKey)
  }

  function WithDefault(h: Hit, origin: string): Hit {
    if h.recallSource == "" then h.(recallSource := origin) else h
  }

  /** What meeting the Elasticsearch hit `e` does to a hit already in the list. */
  function Meet(h: Hit, e: Hit): (r: Hit)
    ensures r.chunkID == h.chunkID
  {
    if e.chunkID != h.chunkID then h
    else h.(recallSource := BOTH, source := if h.source == "" then e.source else h.source)
  }

  /** Hit `h` after meeting `es[from..end]` in order. */
  function Labelled(h: Hit, es: seq<Hit>, from: nat, end: nat): (r: Hit)
    requires from <= end <= |es|
    ensures r.chunkID == h.chunkID
  {
    if from == end then h else Meet(Labelled(h, es, from, end - 1), es[end - 1])
  }

  ghost predicate Seen(id: string, es: seq<Hit>, from: nat, end: nat)
    requires from <= end <= |es|
  {
    exists p :: from <= p < end && es[p].chunkID == id
  }

  /** The label changes exactly when the id is seen, the source only if it was empty, and nothing else ever. */
  lemma {:induction false} LabelledMeans(h: Hit, es: seq<Hit>, from: nat, end: nat)
    requires from <= end <= |es|
    ensures var r := Labelled(h, es, from, end);
      && r.recallSource == (if Seen(h.chunkID, es, from, end) then BOTH else h.recallSource)
      && (h.source != "" || !Seen(h.chunkID, es, from, end) ==> r.source == h.source)
      && r == h.(recallSource := r.recallSource, source := r.source)
    decreases end
  {
    if from < end {
      LabelledMeans(h, es, from, end - 1);
      if Seen(h.chunkID, es, from, end - 1) {
        var p :| from <= p < end - 1 && es[p].chunkID == h.chunkID;
        assert Seen(h.chunkID, es, from, end);
      }
      if es[end - 1].chunkID == h.chunkID {
        assert Seen(h.chunkID, es, from, end);
      }
    }
  }

  /** An empty source becomes the first one that is not empty among the hits met with the same id. */
  lemma {:induction false} SourceMeans(h: Hit, es: seq<Hit>, from: nat, end: nat) returns (p: int)
    requires from <= end <= |es| && h.source == ""
    ensures Labelled(h, es, from, end).source == if p >= 0 && from <= p < end then es[p].source else ""
    ensures p >= 0 ==> from <= p < end && es[p].chunkID == h.chunkID && es[p].source != ""
    ensures forall q :: from <= q < (if p >= 0 then p else end) && es[q].chunkID == h.chunkID ==> es[q].source == ""
    decreases end
  {
    if from == end {
      p := -1;
    } else {
      p := SourceMeans(h, es, from, end - 1);
      if p < 0 && es[end - 1].chunkID == h.chunkID && es[end - 1].source != "" {
        p := end - 1;
      }
    }
  }

  ghost predicate FirstWithId(hits: seq<Hit>, j: nat)
    requires j < |hits|
  {
    forall i :: 0 <= i < j ==> hits[i].chunkID != hits[j].chunkID
  }

  /** `h` is the first Milvus hit of its id, labelled by the first `n` Elasticsearch hits. */
  ghost predicate FromMilvus(h: Hit, milvus: seq<Hit>, es: seq<Hit>, n: nat)
    requires n <= |es|
  {
    exists j :: 0 <= j < |milvus| && FirstWithId(milvus, j) && h == Labelled(WithDefault(milvus[j], MILVUS), es, 0, n)
  }

  /** `h` is the first Elasticsearch hit of an id Milvus does not have, labelled by the hits after it up to `n`. */
  ghost predicate FromES(h: Hit, milvus: seq<Hit>, es: seq<Hit>, n: nat)
    requires n <= |es|
  {
    && h.chunkID !in IdsOf(milvus)
    && exists o :: 0 <= o < n && FirstWithId(es, o) && h == Labelled(WithDefault(es[o], ES), es, o + 1, n)
  }

  ghost predicate Merged(out: seq<Hit>, milvus: seq<Hit>, es: seq<Hit>, n: nat)
    requires n <= |es|
  {
    && IdsOf(out) == MergedIds(milvus, es, n)
    && forall k :: 0 <= k < |out| ==> FromMilvus(out[k], milvus, es, n) || FromES(out[k], milvus, es, n)
  }

  /** Scanning `es[n]` is where the loop leaves early: a new id, and enough hits with it. */
  ghost predicate Stops(milvus: seq<Hit>, es: seq<Hit>, topK: nat, n: nat)
    requires n < |es|
  {
    MergedIds(milvus, es, n + 1) != MergedIds(milvus, es, n) && |MergedIds(milvus, es, n + 1)| >= topK
  }

  /** How many Elasticsearch hits are scanned, from the `n`-th on. */
  ghost function ScanEnd(milvus: seq<Hit>, es: seq<Hit>, topK: nat, n: nat): (r: nat)
    requires n <= |es|
    ensures n <= r <= |es|
    decreases |es| - n
  {
    if n == |es| then n
    else if Stops(milvus, es, topK, n) then n + 1
    else ScanEnd(milvus, es, topK, n + 1)
  }

  // ---------------------------------------------------------------- one step

  lemma IdsOfConcat(s: seq<Hit>, h: Hit)
    ensures IdsOf(s + [h]) == IdsOf(s) + [h.chunkID]
  {
  }

  lemma DistinctIdsStep(ids: seq<string>, id: string)
    ensures var r := Distinct(ids, IdKey);
      Distinct(ids + [id], IdKey) == if id == "" || id in r then r else r + [id]
  {
    var r := Distinct(ids, IdKey);
    DistinctStep(ids, id, IdKey);
    assert id != "" ==> (HasKey(r, IdKey, IdKey(id)) <==> id in r) by {
      HasKeyMeans(r, IdKey, IdKey(id));
    }
  }

  lemma MergedIdsStep(milvus: seq<Hit>, es: seq<Hit>, n: nat)
    requires n < |es|
    ensures var ids, id := MergedIds(milvus, es, n), es[n].chunkID;
      MergedIds(milvus, es, n + 1) == if id == "" || id in ids then ids else ids + [id]
  {
    hide Distinct, IdsOf, IdKey;
    var before := IdsOf(milvus) + IdsOf(es)[..n];
    DistinctIdsStep(before, es[n].chunkID);
    assert before + [es[n].chunkID] == IdsOf(milvus) + IdsOf(es)[..n + 1];
  }

  /** The distinct ids are the non-empty ids, none twice. */
  lemma DistinctIdsMean(ids: seq<string>)
    ensures var r := Distinct(ids, IdKey);
      && (forall id :: id in r <==> id != "" && id in ids)
      && forall i, j :: 0 <= i < j < |r| ==> r[i] != r[j]
  {
    var r := Distinct(ids, IdKey);
    DistinctMeans(ids, IdKey);
    forall id ensures id in r <==> id != "" && id in ids {
      HasKeyMeans(ids, IdKey, By(id));
      HasKeyMeans(r, IdKey, By(id));
    }
  }

  /** An id not kept from `pre` and the first `n` hits occurs in neither. */
  lemma NewId(pre: seq<string>, hits: seq<Hit>, n: nat, id: string)
    requires n <= |hits| && id != "" && id !in Distinct(pre + IdsOf(hits)[..n], IdKey)
    ensures id !in pre && forall i :: 0 <= i < n ==> hits[i].chunkID != id
  {
    var all := pre + IdsOf(hits)[..n];
    DistinctIdsMean(all);
    forall i | 0 <= i < n ensures hits[i].chunkID != id {
      assert all[|pre| + i] == hits[i].chunkID;
    }
    forall i | 0 <= i < |pre| ensures pre[i] != id {
      assert all[i] == pre[i];
    }
  }

  lemma MergedIdsNotEmpty(milvus: seq<Hit>, es: seq<Hit>, n: nat)
    requires n <= |es|
    ensures "" !in MergedIds(milvus, es, n)
  {
    hide Distinct;
    DistinctIdsMean(IdsOf(milvus) + IdsOf(es)[..n]);
    assert "" !in Distinct(IdsOf(milvus) + IdsOf(es)[..n], IdKey);
  }

  lemma MeetKeepsOrigin(h: Hit, milvus: seq<Hit>, es: seq<Hit>, n: nat)
    requires n < |es|
    requires FromMilvus(h, milvus, es, n) || FromES(h, milvus, es, n)
    ensures FromMilvus(Meet(h, es[n]), milvus, es, n + 1) || FromES(Meet(h, es[n]), milvus, es, n + 1)
  {
    hide Meet, WithDefault, FirstWithId;
    if FromMilvus(h, milvus, es, n) {
      var j :| 0 <= j < |milvus| && FirstWithId(milvus, j) && h == Labelled(WithDefault(milvus[j], MILVUS), es, 0, n);
      assert Meet(h, es[n]) == Labelled(WithDefault(milvus[j], MILVUS), es, 0, n + 1);
    } else {
      var o :| 0 <= o < n && FirstWithId(es, o) && h == Labelled(WithDefault(es[o], ES), es, o + 1, n);
      assert Meet(h, es[n]) == Labelled(WithDefault(es[o], ES), es, o + 1, n + 1);
    }
  }

  /** A hit whose id is already listed, or empty, only meets the listed ones. */
  lemma MergedMeets(out: seq<Hit>, out': seq<Hit>, milvus: seq<Hit>, es: seq<Hit>, n: nat)
    requires n < |es| && Merged(out, milvus, es, n)
    requires es[n].chunkID == "" || es[n].chunkID in IdsOf(out)
    requires |out'| == |out| && forall k :: 0 <= k < |out| ==> out'[k] == Meet(out[k], es[n])
    ensures Merged(out', milvus, es, n + 1)
  {
    hide FromMilvus, FromES, MergedIds, Meet;
    MergedIdsStep(milvus, es, n);
    assert IdsOf(out') == IdsOf(out);
    forall k | 0 <= k < |out| ensures FromMilvus(out'[k], milvus, es, n + 1) || FromES(out'[k], milvus, es, n + 1) {
      MeetKeepsOrigin(out[k], milvus, es, n);
    }
  }

  lemma NewFromES(milvus: seq<Hit>, es: seq<Hit>, n: nat)
    requires n < |es| && es[n].chunkID != "" && es[n].chunkID !in MergedIds(milvus, es, n)
    ensures FromES(WithDefault(es[n], ES), milvus, es, n + 1)
  {
    hide Distinct;
    NewId(IdsOf(milvus), es, n, es[n].chunkID);
    assert FirstWithId(es, n) && Labelled(WithDefault(es[n], ES), es, n + 1, n + 1) == WithDefault(es[n], ES);
  }

  lemma MergedGrows(out: seq<Hit>, milvus: seq<Hit>, es: seq<Hit>, n: nat)
    requires n < |es| && Merged(out, milvus, es, n)
    requires es[n].chunkID != "" && es[n].chunkID !in IdsOf(out)
    ensures Merged(out + [WithDefault(es[n], ES)], milvus, es, n + 1)
  {
    var h := WithDefault(es[n], ES);
    MergedIdsStep(milvus, es, n);
    IdsOfConcat(out, h);
    NewFromES(milvus, es, n);
    hide FromMilvus, FromES, MergedIds, WithDefault, IdsOf;
    var out' := out + [h];
    forall k | 0 <= k < |out| ensures FromMilvus(out'[k], milvus, es, n + 1) || FromES(out'[k], milvus, es, n + 1) {
      assert IdsOf(out)[k] == out[k].chunkID;
      assert Meet(out[k], es[n]) == out[k];
      MeetKeepsOrigin(out[k], milvus, es, n);
    }
  }

  // ---------------------------------------------------------------- the two loops

  /** The map of the source: every listed id with its position. */
  ghost predicate Indexes(idx: map<string, nat>, out: seq<Hit>) {
    && (forall id :: id in idx ==> idx[id] < |out| && out[idx[id]].chunkID == id)
    && (forall k :: 0 <= k < |out| ==> out[k].chunkID in idx && idx[out[k].chunkID] == k)
  }

  lemma IndexesIds(idx: map<string, nat>, out: seq<Hit>, id: string)
    requires Indexes(idx, out)
    ensures id in idx <==> id in IdsOf(out)
  {
    if id in idx {
      assert IdsOf(out)[idx[id]] == id;
    }
    if id in IdsOf(out) {
      var k :| 0 <= k < |out| && IdsOf(out)[k] == id;
    }
  }

  /** The first Milvus hit of each of the first `n` ids, in order. */
  ghost predicate Kept(out: seq<Hit>, milvus: seq<Hit>, n: nat)
    requires n <= |milvus|
  {
    && IdsOf(out) == Distinct(IdsOf(milvus)[..n], IdKey)
    && forall k :: 0 <= k < |out| ==> KeptHit(out[k], milvus)
  }

  ghost predicate KeptHit(h: Hit, milvus: seq<Hit>) {
    exists j :: 0 <= j < |milvus| && FirstWithId(milvus, j) && h == WithDefault(milvus[j], MILVUS)
  }

  lemma KeptSkips(out: seq<Hit>, milvus: seq<Hit>, n: nat)
    requires n < |milvus| && Kept(out, milvus, n)
    requires milvus[n].chunkID == "" || milvus[n].chunkID in IdsOf(out)
    ensures Kept(out, milvus, n + 1)
  {
    hide Distinct, IdsOf, KeptHit;
    DistinctIdsStep(IdsOf(milvus)[..n], milvus[n].chunkID);
    PrefixStep(IdsOf(milvus), n);
  }

  lemma KeptGrows(out: seq<Hit>, milvus: seq<Hit>, n: nat)
    requires n < |milvus| && Kept(out, milvus, n)
    requires milvus[n].chunkID != "" && milvus[n].chunkID !in IdsOf(out)
    ensures Kept(out + [WithDefault(milvus[n], MILVUS)], milvus, n + 1)
  {
    hide Distinct, IdsOf, KeptHit;
    DistinctIdsStep(IdsOf(milvus)[..n], milvus[n].chunkID);
    PrefixStep(IdsOf(milvus), n);
    IdsOfConcat(out, WithDefault(milvus[n], MILVUS));
    NewKeptHit(milvus, n);
  }

  lemma NewKeptHit(milvus: seq<Hit>, n: nat)
    requires n < |milvus| && milvus[n].chunkID != "" && milvus[n].chunkID !in Distinct(IdsOf(milvus)[..n], IdKey)
    ensures KeptHit(WithDefault(milvus[n], MILVUS), milvus)
  {
    hide Distinct;
    assert [] + IdsOf(milvus)[..n] == IdsOf(milvus)[..n];
    NewId([], milvus, n, milvus[n].chunkID);
    assert FirstWithId(milvus, n);
  }

  method KeepMilvus(milvus: seq<Hit>) returns (out: seq<Hit>, idx: map<string, nat>)
    ensures Kept(out, milvus, |milvus|) && Indexes(idx, out)
  {
    hide Kept;
    out, idx := [], map[];
    KeptNothing(milvus);
    for n := 0 to |milvus|
      invariant Kept(out, milvus, n) && Indexes(idx, out)
    {
      var h := milvus[n];
      IndexesIds(idx, out, h.chunkID);
      if h.chunkID == "" {
        KeptSkips(out, milvus, n);
        continue;
      }
      if h.chunkID in idx {
        KeptSkips(out, milvus, n);
        continue;
      }
      KeptGrows(out, milvus, n);
      var h2 := h;
      if h2.recallSource == "" {
        h2 := h2.(recallSource := MILVUS);
      }
      idx := idx[h2.chunkID := |out|];
      out := out + [h2];
    }
  }

  lemma KeptNothing(milvus: seq<Hit>)
    ensures Kept([], milvus, 0)
  {
  }

  lemma KeptIsMerged(out: seq<Hit>, milvus: seq<Hit>, es: seq<Hit>)
    requires Kept(out, milvus, |milvus|)
    ensures Merged(out, milvus, es, 0)
  {
    assert IdsOf(milvus)[..|milvus|] == IdsOf(milvus) + IdsOf(es)[..0];
    forall k | 0 <= k < |out| ensures FromMilvus(out[k], milvus, es, 0) {
      var j :| 0 <= j < |milvus| && FirstWithId(milvus, j) && out[k] == WithDefault(milvus[j], MILVUS);
      assert out[k] == Labelled(WithDefault(milvus[j], MILVUS), es, 0, 0);
    }
  }

  /** The result is the first `topK` distinct ids of Milvus and then Elasticsearch, whenever the scan ended. */
  ghost predicate IsMerge(out: seq<Hit>, milvus: seq<Hit>, es: seq<Hit>, topK: nat) {
    var n := ScanEnd(milvus, es, topK, 0);
    && IdsOf(out) == Take(Distinct(IdsOf(milvus) + IdsOf(es), IdKey), topK)
    && forall k :: 0 <= k < |out| ==> FromMilvus(out[k], milvus, es, n) || FromES(out[k], milvus, es, n)
  }

  lemma TakeIsMerge(out: seq<Hit>, milvus: seq<Hit>, es: seq<Hit>, topK: nat, n: nat)
    requires n <= |es| && Merged(out, milvus, es, n)
    requires n == |es| || |out| >= topK
    requires n == ScanEnd(milvus, es, topK, 0)
    ensures IsMerge(Take(out, topK), milvus, es, topK)
  {
    hide FromMilvus, FromES, ScanEnd, IdsOf, Distinct, MergedIds;
    IdsOfTake(out, topK);
    EnoughMerged(milvus, es, topK, n);
  }

  lemma IdsOfTake(hits: seq<Hit>, n: nat)
    ensures IdsOf(Take(hits, n)) == Take(IdsOf(hits), n)
  {
  }

  lemma EnoughMerged(milvus: seq<Hit>, es: seq<Hit>, topK: nat, n: nat)
    requires n <= |es| && (n == |es| || |MergedIds(milvus, es, n)| >= topK)
    ensures Take(MergedIds(milvus, es, n), topK) == Take(Distinct(IdsOf(milvus) + IdsOf(es), IdKey), topK)
  {
    hide Distinct, IdKey;
    var ids := IdsOf(es);
    if n < |es| {
      EnoughFound(IdsOf(milvus) + ids[..n], ids[n..], IdKey, topK);
      assert IdsOf(milvus) + ids[..n] + ids[n..] == IdsOf(milvus) + ids;
    } else {
      assert ids[..n] == ids;
    }
  }

  method MergeDedupeMilvusFirst(milvus: seq<Hit>, es: seq<Hit>, topK0: int) returns (r: seq<Hit>)
    ensures IsMerge(r, milvus, es, if topK0 <= 0 then 10 else topK0)
  {
    hide Merged, IsMerge, Kept, IdsOf, MergedIds, FromMilvus, FromES;
    var topK := topK0;
    if topK <= 0 {
      topK := 10;
    }
    var out: seq<Hit>, idx: map<string, nat> := KeepMilvus(milvus);
    KeptIsMerged(out, milvus, es);
    for n := 0 to |es|
      invariant Merged(out, milvus, es, n) && Indexes(idx, out)
      invariant ScanEnd(milvus, es, topK, 0) == ScanEnd(milvus, es, topK, n)
    {
      var h := es[n];
      IndexesIds(idx, out, h.chunkID);
      StopsMeans(out, milvus, es, topK, n);
      if h.chunkID == "" {
        NoEmptyIds(out, milvus, es, n);
        MergedMeets(out, out, milvus, es, n);
        continue;
      }
      if h.chunkID in idx {
        var i := idx[h.chunkID];
        ghost var was := out;
        out := out[i := out[i].(recallSource := BOTH)];
        if out[i].source == "" && h.source != "" {
          out := out[i := out[i].(source := h.source)];
        }
        MergedMeets(was, out, milvus, es, n);
        continue;
      }
      var h2 := h;
      if h2.recallSource == "" {
        h2 := h2.(recallSource := ES);
      }
      MergedGrows(out, milvus, es, n);
      idx := idx[h2.chunkID := |out|];
      out := out + [h2];
      if |out| >= topK {
        TakeIsMerge(out, milvus, es, topK, n + 1);
        assert out[..topK] == Take(out, topK);
        return out[..topK];
      }
    }
    TakeIsMerge(out, milvus, es, topK, |es|);
    if |out| > topK {
      return out[..topK];
    }
    r := out;
  }

  lemma NoEmptyIds(out: seq<Hit>, milvus: seq<Hit>, es: seq<Hit>, n: nat)
    requires n < |es| && Merged(out, milvus, es, n) && es[n].chunkID == ""
    ensures forall k :: 0 <= k < |out| ==> out[k] == Meet(out[k], es[n])
  {
    MergedIdsNotEmpty(milvus, es, n);
    hide FromMilvus, FromES, MergedIds;
    forall k | 0 <= k < |out| ensures out[k] == Meet(out[k], es[n]) {
      assert out[k].chunkID == IdsOf(out)[k];
    }
  }

  /** In terms of the list: the loop leaves when a new hit makes it long enough. */
  lemma StopsMeans(out: seq<Hit>, milvus: seq<Hit>, es: seq<Hit>, topK: nat, n: nat)
    requires n < |es| && Merged(out, milvus, es, n)
    ensures Stops(milvus, es, topK, n) <==> es[n].chunkID != "" && es[n].chunkID !in IdsOf(out) && |out| + 1 >= topK
  {
    MergedIdsStep(milvus, es, n);
    hide FromMilvus, FromES, MergedIds;
  }

  // ---------------------------------------------------------------- what "both" means

  ghost predicate PlainLabels(hits: seq<Hit>, origin: string) {
    forall i :: 0 <= i < |hits| ==> hits[i].recallSource == "" || hits[i].recallSource == origin
  }

  /**
   A returned hit field by field: it is the first hit of its id, of Milvus if Milvus has it; its label is "both" if a
   hit with its id was met later on, else the one it came with, else its origin; all else but the source is its own.
   */
  lemma ReturnedMeans(h: Hit, milvus: seq<Hit>, es: seq<Hit>, n: nat) returns (own: Hit, from: nat)
    requires n <= |es| && (FromMilvus(h, milvus, es, n) || FromES(h, milvus, es, n))
    ensures from <= n && own.chunkID == h.chunkID
    ensures if h.chunkID in IdsOf(milvus)
      then from == 0 && exists j :: 0 <= j < |milvus| && milvus[j] == own && FirstWithId(milvus, j)
      else from > 0 && es[from - 1] == own && FirstWithId(es, from - 1)
    ensures h == own.(recallSource := h.recallSource, source := h.source)
    ensures h.recallSource ==
      if Seen(h.chunkID, es, from, n) then "both"
      else if own.recallSource != "" then own.recallSource
      else if h.chunkID in IdsOf(milvus) then "milvus" else "es"
    ensures own.source != "" || !Seen(h.chunkID, es, from, n) ==> h.source == own.source
  {
    hide Labelled, IdsOf, FirstWithId, Seen;
    if FromMilvus(h, milvus, es, n) {
      var j :| 0 <= j < |milvus| && FirstWithId(milvus, j) && h == Labelled(WithDefault(milvus[j], MILVUS), es, 0, n);
      LabelledMeans(WithDefault(milvus[j], MILVUS), es, 0, n);
      assert IdsOf(milvus)[j] == h.chunkID;
      own, from := milvus[j], 0;
    } else {
      var o :| 0 <= o < n && FirstWithId(es, o) && h == Labelled(WithDefault(es[o], ES), es, o + 1, n);
      LabelledMeans(WithDefault(es[o], ES), es, o + 1, n);
      own, from := es[o], o + 1;
    }
  }

  ghost predicate SeenTwice(id: string, es: seq<Hit>, n: nat)
    requires n <= |es|
  {
    exists o, p :: 0 <= o < p < n && es[o].chunkID == id && es[p].chunkID == id
  }

  /**
   For hits that come with no label or their own: a returned hit says "both" exactly when Milvus has it and the scanned
   part of Elasticsearch has it too, or Milvus does not have it and the scanned part has it twice.
   */
  lemma BothMeans(h: Hit, milvus: seq<Hit>, es: seq<Hit>, n: nat)
    requires n <= |es| && PlainLabels(milvus, MILVUS) && PlainLabels(es, ES)
    requires FromMilvus(h, milvus, es, n) || FromES(h, milvus, es, n)
    ensures h.recallSource == BOTH
       <==> if h.chunkID in IdsOf(milvus) then Seen(h.chunkID, es, 0, n) else SeenTwice(h.chunkID, es, n)
  {
    hide Labelled, IdsOf;
    if FromMilvus(h, milvus, es, n) {
      var j :| 0 <= j < |milvus| && FirstWithId(milvus, j) && h == Labelled(WithDefault(milvus[j], MILVUS), es, 0, n);
      LabelledMeans(WithDefault(milvus[j], MILVUS), es, 0, n);
      assert IdsOf(milvus)[j] == h.chunkID;
    } else {
      var o :| 0 <= o < n && FirstWithId(es, o) && h == Labelled(WithDefault(es[o], ES), es, o + 1, n);
      LabelledMeans(WithDefault(es[o], ES), es, o + 1, n);
      if SeenTwice(h.chunkID, es, n) {
        var a, p :| 0 <= a < p < n && es[a].chunkID == h.chunkID && es[p].chunkID == h.chunkID;
        assert o <= a;
        assert Seen(h.chunkID, es, o + 1, n);
      }
    }
  }

  /** With distinct Elasticsearch ids, "both" says what it seems to say. */
  lemma BothIsBoth(h: Hit, milvus: seq<Hit>, es: seq<Hit>, n: nat)
    requires n <= |es| && PlainLabels(milvus, MILVUS) && PlainLabels(es, ES)
    requires FromMilvus(h, milvus, es, n) || FromES(h, milvus, es, n)
    requires forall o, p :: 0 <= o < p < |es| ==> es[o].chunkID != es[p].chunkID
    ensures h.recallSource == BOTH <==> h.chunkID in IdsOf(milvus) && Seen(h.chunkID, es, 0, n)
  {
    BothMeans(h, milvus, es, n);
  }

  function Bare(id: string): Hit {
    Hit(id, "", "", 0.0, "", "", 0, 0, "", NoPage, "", 0, 0, "", "")
  }

  /** Elasticsearch returning a chunk twice is enough for "both", without Milvus. */
  lemma BothWithoutMilvus(r: seq<Hit>)
    requires IsMerge(r, [], [Bare("x"), Bare("x")], 10)
    ensures r == [Bare("x").(recallSource := BOTH)]
  {
    var es := [Bare("x"), Bare("x")];
    TwiceIds(es);
    hide Distinct, IdsOf, FromMilvus, FromES, IdKey, ScanEnd, Labelled, WithDefault;
    assert IdsOf(r) == Take(["x"], 10);
    assert |r| == 1;
    NoMilvus(r[0], es, 2);
    MetTwin(r[0], es);
  }

  lemma MetTwin(h: Hit, es: seq<Hit>)
    requires es == [Bare("x"), Bare("x")] && FromES(h, [], es, 2)
    ensures h == Bare("x").(recallSource := BOTH)
  {
    hide IdsOf, Labelled, Meet;
    var o :| 0 <= o < 2 && FirstWithId(es, o) && h == Labelled(WithDefault(es[o], ES), es, o + 1, 2);
    assert es[0].chunkID == es[1].chunkID;
    assert o == 0;
    LabelledTwin(WithDefault(es[0], ES), es);
  }

  lemma LabelledTwin(h: Hit, es: seq<Hit>)
    requires |es| == 2 && es[1] == Bare(h.chunkID)
    ensures Labelled(h, es, 1, 2) == h.(recallSource := BOTH)
  {
    assert Labelled(h, es, 1, 1) == h;
    assert Labelled(h, es, 1, 2) == Meet(h, es[1]);
  }

  lemma NoMilvus(h: Hit, es: seq<Hit>, n: nat)
    requires n <= |es|
    ensures !FromMilvus(h, [], es, n)
  {
  }

  lemma TwiceIds(es: seq<Hit>)
    requires es == [Bare("x"), Bare("x")]
    ensures Distinct(IdsOf([]) + IdsOf(es), IdKey) == ["x"]
    ensures ScanEnd([], es, 10, 0) == 2
  {
    NothingMerged(es);
    MergedIdsStep([], es, 0);
    MergedIdsStep([], es, 1);
    EnoughMerged([], es, 10, 2);
    hide Distinct, IdsOf, MergedIds, IdKey;
    assert ScanEnd([], es, 10, 2) == 2;
  }

  lemma NothingMerged(es: seq<Hit>)
    ensures MergedIds([], es, 0) == []
  {
    assert IdsOf([]) + IdsOf(es)[..0] == [];
    NothingDistinct();
  }

  lemma NothingDistinct()
    ensures Distinct([], IdKey) == []
  {
  }
}
