/**
 Several sub-queries: cleaning them up, recalling for each concurrently into its own slot, and merging the slots.
 The lower-casing of the library and the retrieval of one query are parameters.
 */
module RecallMany {
  import opened Text
  import opened Deduplication
  import opened RecallMerge

  // ---------------------------------------------------------------- merging lists of hits

  /** Chunk ids are compared trimmed; a blank one drops the hit. */
  function HitKey(h: Hit): Key<string> {
    IdKey(TrimSpace(h.chunkID))
  }

  function Flat(lists: seq<seq<Hit>>): seq<Hit> {
    if lists == [] then [] else Flat(lists[..|lists| - 1]) + lists[|lists| - 1]
  }

  /** All the distinct hits of several lists, in order. */
  function AllHits(lists: seq<seq<Hit>>): seq<Hit> {
    Distinct(Flat(lists), HitKey)
  }

  /** All lists one behind the other. */
  lemma FlatIsConcat(lists: seq<seq<Hit>>, n: nat)
    requires n < |lists|
    ensures Flat(lists[..n]) + lists[n] <= Flat(lists) && Flat([]) == []
    ensures n + 1 == |lists| ==> Flat(lists) == Flat(lists[..n]) + lists[n]
  {
    FlatSlice(lists, n);
    FlatPrefix(lists, n + 1);
    assert n + 1 == |lists| ==> lists[..n + 1] == lists;
  }

  /**
   The distinct hits of several lists: no two have the same trimmed chunk id and none has a blank one; every hit with
   an id that is not blank is there, or an earlier one with the same trimmed id is.
   */
  lemma AllHitsMean(lists: seq<seq<Hit>>)
    ensures var all, out := Flat(lists), AllHits(lists);
      && (forall i, j :: 0 <= i < j < |out| ==> TrimSpace(out[i].chunkID) != TrimSpace(out[j].chunkID))
      && (forall h :: h in out ==> h in all && TrimSpace(h.chunkID) != "")
      && forall k :: 0 <= k < |all| && TrimSpace(all[k].chunkID) != "" ==>
           all[k] in out || exists j :: 0 <= j < k && TrimSpace(all[j].chunkID) == TrimSpace(all[k].chunkID) && all[j] in out
  {
    var all, out := Flat(lists), AllHits(lists);
    DistinctMeans(all, HitKey);
    hide TrimSpace, Distinct, HasKey, Flat;
    forall k | 0 <= k < |all| && TrimSpace(all[k].chunkID) != ""
      ensures all[k] in out || exists j :: 0 <= j < k && TrimSpace(all[j].chunkID) == TrimSpace(all[k].chunkID) && all[j] in out
    {
      assert HitKey(all[k]) != NoKey;
      var j := KeptFor(all, HitKey, k);
    }
    forall i, j | 0 <= i < j < |out| ensures TrimSpace(out[i].chunkID) != TrimSpace(out[j].chunkID) {
      assert HitKey(out[i]) != HitKey(out[j]);
    }
    forall h | h in out ensures h in all && TrimSpace(h.chunkID) != "" {
      assert IsFirst(all, HitKey, h);
    }
  }

  /** A limit that is not positive is no limit. */
  function Limited<T>(s: seq<T>, max: int): (r: seq<T>)
    ensures r <= s && (max <= 0 ==> r == s) && (max > 0 ==> |r| == if |s| <= max then |s| else max)
  {
    if max > 0 then Take(s, max) else s
  }

  lemma FlatSlice(lists: seq<seq<Hit>>, n: nat)
    requires n < |lists|
    ensures Flat(lists[..n + 1]) == Flat(lists[..n]) + lists[n]
  {
    assert lists[..n + 1][..n] == lists[..n];
  }

  lemma {:induction false} FlatPrefix(lists: seq<seq<Hit>>, n: nat)
    requires n <= |lists|
    ensures Flat(lists[..n]) <= Flat(lists)
    decreases |lists| - n
  {
    if n == |lists| {
      assert lists[..n] == lists;
    } else {
      FlatPrefix(lists, n + 1);
      FlatSlice(lists, n);
    }
  }

  /** What has been found after `n` lists and `i` hits of the next is enough: the rest changes nothing. */
  lemma EnoughHits(lists: seq<seq<Hit>>, n: nat, i: nat, out: seq<Hit>, max: int)
    requires n < |lists| && i <= |lists[n]| && out == Distinct(Flat(lists[..n]) + lists[n][..i], HitKey)
    requires |out| == max > 0
    ensures out == Limited(AllHits(lists), max)
  {
    var front, all := Flat(lists[..n]) + lists[n][..i], Flat(lists);
    FlatSlice(lists, n);
    FlatPrefix(lists, n + 1);
    hide Flat, Distinct, HitKey, Take;
    PrefixOfPrefix(Flat(lists[..n]), lists[n], i, all);
    EnoughFound(front, all[|front|..], HitKey, max);
  }

  lemma PrefixOfPrefix<T>(a: seq<T>, b: seq<T>, i: nat, all: seq<T>)
    requires i <= |b| && a + b <= all
    ensures |a + b[..i]| <= |all| && all == (a + b[..i]) + all[|a + b[..i]|..]
  {
    assert a + b == (a + b[..i]) + b[i..];
  }

  lemma NextHit(done: seq<Hit>, list: seq<Hit>, i: nat)
    requires i < |list|
    ensures var out := Distinct(done + list[..i], HitKey);
      Distinct(done + list[..i + 1], HitKey)
        == if HitKey(list[i]) == NoKey || HasKey(out, HitKey, HitKey(list[i])) then out else out + [list[i]]
  {
    hide TrimSpace, HasKey, Distinct;
    DistinctStep(done + list[..i], list[i], HitKey);
    assert done + list[..i] + [list[i]] == done + list[..i + 1];
  }

  ghost predicate SeenKeys(seen: set<string>, out: seq<Hit>) {
    forall id :: id in seen <==> HasKey(out, HitKey, By(id))
  }

  method MergeHitsDedupeSequential(lists: seq<seq<Hit>>, maxTotal: int) returns (out: seq<Hit>)
    ensures out == Limited(AllHits(lists), maxTotal)
  {
    hide Distinct, HasKey, TrimSpace, Flat;
    var seen: set<string> := {};
    out := [];
    Nothing(lists);
    for n := 0 to |lists|
      invariant out == Distinct(Flat(lists[..n]), HitKey) && SeenKeys(seen, out)
      invariant maxTotal > 0 ==> |out| < maxTotal
    {
      var list := lists[n];
      ghost var done := Flat(lists[..n]);
      assert done + list[..0] == done;
      for i := 0 to |list|
        invariant out == Distinct(done + list[..i], HitKey) && SeenKeys(seen, out)
        invariant maxTotal > 0 ==> |out| < maxTotal
      {
        var h := list[i];
        var id := TrimSpace(h.chunkID);
        NextHit(done, list, i);
        if id == "" {
          continue;
        }
        if id in seen {
          continue;
        }
        SeenStep(seen, out, h);
        seen := seen + {id};
        out := out + [h];
        if maxTotal > 0 && |out| >= maxTotal {
          EnoughHits(lists, n, i + 1, out, maxTotal);
          return;
        }
      }
      assert list[..|list|] == list;
      FlatSlice(lists, n);
    }
    assert lists[..|lists|] == lists;
  }

  lemma Nothing(lists: seq<seq<Hit>>)
    ensures Distinct(Flat(lists[..0]), HitKey) == [] && SeenKeys({}, [])
  {
  }

  lemma SeenStep(seen: set<string>, out: seq<Hit>, h: Hit)
    requires SeenKeys(seen, out) && HitKey(h) != NoKey
    ensures SeenKeys(seen + {TrimSpace(h.chunkID)}, out + [h])
  {
    assert (out + [h])[..|out|] == out;
  }

  lemma FlatConcat(lists: seq<seq<Hit>>, list: seq<Hit>)
    ensures Flat(lists + [list]) == Flat(lists) + list
  {
    assert (lists + [list])[..|lists|] == lists;
  }

  const PATH_LIMIT := 5
  const PER_PATH_LIMIT := 50
  const MERGED_LIMIT := 250

  method MergeParallelHitLists(lists: seq<seq<Hit>>) returns (hits: seq<Hit>)
    ensures hits == Take(AllHits(lists), MERGED_LIMIT)
  {
    hide Distinct, Flat;
    var nonEmpty: seq<seq<Hit>> := [];
    NoLists(lists);
    for n := 0 to |lists|
      invariant Flat(nonEmpty) == Flat(lists[..n])
    {
      FlatSlice(lists, n);
      if |lists[n]| == 0 {
        continue;
      }
      FlatConcat(nonEmpty, lists[n]);
      nonEmpty := nonEmpty + [lists[n]];
    }
    assert lists[..|lists|] == lists;
    hits := MergeHitsDedupeSequential(nonEmpty, MERGED_LIMIT);
  }

  lemma NoLists(lists: seq<seq<Hit>>)
    ensures Flat([]) == Flat(lists[..0])
  {
  }

  lemma {:induction false} FlatLength(lists: seq<seq<Hit>>, m: nat)
    requires forall n :: 0 <= n < |lists| ==> |lists[n]| <= m
    ensures |Flat(lists)| <= |lists| * m
  {
    if lists != [] {
      FlatLength(lists[..|lists| - 1], m);
    }
  }

  /** Within the limits on paths and on hits per path, the limit on the merged list drops nothing. */
  lemma MergedLimitDropsNothing(lists: seq<seq<Hit>>)
    requires |lists| <= PATH_LIMIT && forall n :: 0 <= n < |lists| ==> |lists[n]| <= PER_PATH_LIMIT
    ensures Take(AllHits(lists), MERGED_LIMIT) == AllHits(lists)
  {
    FlatLength(lists, PER_PATH_LIMIT);
  }

  // ---------------------------------------------------------------- the fan-out

  /** Every goroutine completes once. */
  ghost predicate CompletionOrder(order: seq<nat>, n: nat) {
    && |order| == n
    && (forall k :: 0 <= k < n ==> order[k] < n)
    && (forall i, j :: 0 <= i < j < n ==> order[i] != order[j])
    && forall i :: 0 <= i < n ==> i in order
  }

  function Values<E>(rs: seq<Result<seq<Hit>, E>>, n: nat): (r: seq<seq<Hit>>)
    requires n <= |rs| && forall i :: 0 <= i < |rs| ==> rs[i].Ok?
    ensures |r| == n && forall i :: 0 <= i < n ==> r[i] == rs[i].value
  {
    if n == 0 then [] else Values(rs, n - 1) + [rs[n - 1].value]
  }

  ghost predicate AllOk<E>(rs: seq<Result<seq<Hit>, E>>) {
    forall i :: 0 <= i < |rs| ==> rs[i].Ok?
  }

  /** Of the first `n` goroutines to complete, the first to fail failed with `e`. */
  ghost predicate FirstFailure<E>(results: seq<Result<seq<Hit>, E>>, order: seq<nat>, n: nat, e: E)
    requires n <= |order| && forall k :: 0 <= k < |order| ==> order[k] < |results|
  {
    exists k :: (
      && 0 <= k < n && results[order[k]] == Err(e)
      && forall j :: 0 <= j < k ==> results[order[j]].Ok?)
  }

  /**
   One goroutine for each query writes its own slot; the first to fail, in order of completion, decides the error.
   In whatever order they complete, the result is the merge of the lists in the order of the queries.
   */
  method FanOut<E>(results: seq<Result<seq<Hit>, E>>, order: seq<nat>) returns (r: Result<seq<Hit>, E>)
    requires CompletionOrder(order, |results|)
    ensures r.Ok? <==> AllOk(results)
    ensures r.Ok? ==> r.value == Take(AllHits(Values(results, |results|)), MERGED_LIMIT)
    ensures r.Err? ==> FirstFailure(results, order, |order|, r.error)
  {
    hide AllHits, Take;
    var lists := new seq<Hit>[|results|](_ => []);
    var failed: seq<E> := [];
    for k := 0 to |order|
      invariant failed == [] <==> forall j :: 0 <= j < k ==> results[order[j]].Ok?
      invariant failed != [] ==> FirstFailure(results, order, k, failed[0])
      invariant forall j :: 0 <= j < k && results[order[j]].Ok? ==> lists[order[j]] == results[order[j]].value
    {
      var i := order[k];
      match results[i] {
        case Ok(hits) =>
          lists[i] := hits;
        case Err(e) =>
          failed := failed + [e];
      }
    }
    if |failed| > 0 {
      return Err(failed[0]);
    }
    SlotsFilled(results, order, lists[..]);
    var merged := MergeParallelHitLists(lists[..]);
    r := Ok(merged);
  }

  lemma SlotsFilled<E>(results: seq<Result<seq<Hit>, E>>, order: seq<nat>, slots: seq<seq<Hit>>)
    requires CompletionOrder(order, |results|) && |slots| == |results|
    requires forall j :: 0 <= j < |order| ==> results[order[j]].Ok? && slots[order[j]] == results[order[j]].value
    ensures AllOk(results) && slots == Values(results, |results|)
  {
    forall i | 0 <= i < |results| ensures results[i].Ok? && slots[i] == results[i].value {
      assert i in order;
    }
  }

  // ---------------------------------------------------------------- cleaning up queries

  /** Queries are compared trimmed and in lower case; a blank one is dropped. */
  function QueryKey(lower: string -> string): string -> Key<string> {
    q => if TrimSpace(q) == "" then NoKey else By(lower(TrimSpace(q)))
  }

  function TrimAll(qs: seq<string>): (r: seq<string>)
    ensures |r| == |qs| && forall i :: 0 <= i < |r| ==> r[i] == TrimSpace(qs[i])
  {
    if qs == [] then [] else TrimAll(qs[..|qs| - 1]) + [TrimSpace(qs[|qs| - 1])]
  }

  /** The distinct queries, trimmed. */
  function CleanQueries(qs: seq<string>, lower: string -> string): seq<string> {
    Distinct(TrimAll(qs), QueryKey(lower))
  }

  lemma NextQuery(qs: seq<string>, i: nat, lower: string -> string)
    requires i < |qs|
    ensures var out, q, key := CleanQueries(qs[..i], lower), TrimSpace(qs[i]), QueryKey(lower);
      CleanQueries(qs[..i + 1], lower) == if q == "" || HasKey(out, key, By(lower(q))) then out else out + [q]
  {
    var q, key := TrimSpace(qs[i]), QueryKey(lower);
    TrimTwice(qs[i]);
    hide TrimSpace, Distinct, HasKey;
    TrimAllStep(qs, i);
    DistinctStep(TrimAll(qs[..i]), q, key);
    assert key(q) == if q == "" then NoKey else By(lower(q));
  }

  lemma TrimAllStep(qs: seq<string>, i: nat)
    requires i < |qs|
    ensures TrimAll(qs[..i + 1]) == TrimAll(qs[..i]) + [TrimSpace(qs[i])]
  {
    assert qs[..i + 1][..i] == qs[..i];
  }

  lemma EnoughQueries(qs: seq<string>, i: nat, lower: string -> string, n: nat)
    requires i <= |qs| && |CleanQueries(qs[..i], lower)| == n
    ensures CleanQueries(qs[..i], lower) == Take(CleanQueries(qs, lower), n)
  {
    hide TrimSpace, Distinct;
    EnoughFound(TrimAll(qs[..i]), TrimAll(qs)[i..], QueryKey(lower), n);
    assert TrimAll(qs[..i]) + TrimAll(qs)[i..] == TrimAll(qs);
  }

  ghost predicate SeenQueries(seen: set<string>, out: seq<string>, lower: string -> string) {
    forall k :: k in seen <==> HasKey(out, QueryKey(lower), By(k))
  }

  lemma SeenQueryStep(seen: set<string>, out: seq<string>, q: string, lower: string -> string)
    requires SeenQueries(seen, out, lower) && TrimSpace(q) == q != ""
    ensures SeenQueries(seen + {lower(q)}, out + [q], lower)
  {
    hide TrimSpace;
    assert (out + [q])[..|out|] == out;
  }

  lemma NoQueriesYet(qs: seq<string>, lower: string -> string)
    ensures CleanQueries(qs[..0], lower) == [] && SeenQueries({}, [], lower)
  {
  }

  method DedupeQueriesForParallel(qs: seq<string>, maxN: nat, lower: string -> string) returns (out: seq<string>)
    ensures out == Take(CleanQueries(qs, lower), if maxN == 0 then 1 else maxN)
  {
    hide TrimSpace, CleanQueries, HasKey;
    var seen: set<string> := {};
    out := [];
    NoQueriesYet(qs, lower);
    for i := 0 to |qs|
      invariant out == CleanQueries(qs[..i], lower) && SeenQueries(seen, out, lower)
      invariant |out| == 0 || |out| < maxN
    {
      var q := TrimSpace(qs[i]);
      NextQuery(qs, i, lower);
      if q == "" {
        continue;
      }
      var k := lower(q);
      if k in seen {
        continue;
      }
      TrimTwice(qs[i]);
      SeenQueryStep(seen, out, q, lower);
      seen := seen + {k};
      out := out + [q];
      if |out| >= maxN {
        EnoughQueries(qs, i + 1, lower, |out|);
        return;
      }
    }
    assert qs[..|qs|] == qs;
  }

  /** The queries the rewriter returns: at most five clean ones, or the question itself. */
  method NormalizeQueries(qs: seq<string>, fallback: string, lower: string -> string) returns (out: seq<string>)
    ensures out == Normalized(qs, fallback, lower)
  {
    out := DedupeQueriesForParallel(qs, 5, lower);
    if |out| == 0 {
      return [TrimSpace(fallback)];
    }
  }

  function Normalized(qs: seq<string>, fallback: string, lower: string -> string): (r: seq<string>)
    ensures r != []
  {
    var out := Take(CleanQueries(qs, lower), 5);
    if out == [] then [TrimSpace(fallback)] else out
  }

  lemma CleanIsTrimmed(qs: seq<string>, lower: string -> string, i: nat)
    requires i < |CleanQueries(qs, lower)|
    ensures TrimSpace(CleanQueries(qs, lower)[i]) == CleanQueries(qs, lower)[i] != ""
  {
    var key, out := QueryKey(lower), CleanQueries(qs, lower);
    DistinctMeans(TrimAll(qs), key);
    hide TrimSpace, Distinct, HasKey;
    assert out[i] in out && IsFirst(TrimAll(qs), key, out[i]);
    var j :| 0 <= j < |TrimAll(qs)| && TrimAll(qs)[j] == out[i] && FirstOfKey(TrimAll(qs), key, j);
    TrimTwice(qs[j]);
  }

  /**
   The clean queries are different in lower case, and every query that is not blank is there, trimmed, or an earlier
   one that is the same in lower case is.
   */
  lemma CleanQueriesMean(qs: seq<string>, lower: string -> string)
    ensures var out := CleanQueries(qs, lower);
      && (forall i, j :: 0 <= i < j < |out| ==> lower(out[i]) != lower(out[j]))
      && forall k :: 0 <= k < |qs| && TrimSpace(qs[k]) != "" ==>
           exists j :: 0 <= j <= k && lower(TrimSpace(qs[j])) == lower(TrimSpace(qs[k])) && TrimSpace(qs[j]) in out
  {
    var all, key, out := TrimAll(qs), QueryKey(lower), CleanQueries(qs, lower);
    DistinctMeans(all, key);
    hide TrimSpace, Distinct, HasKey;
    forall i, j | 0 <= i < j < |out| ensures lower(out[i]) != lower(out[j]) {
      CleanIsTrimmed(qs, lower, i);
      CleanIsTrimmed(qs, lower, j);
      assert key(out[i]) != key(out[j]);
    }
    forall k | 0 <= k < |qs| && TrimSpace(qs[k]) != ""
      ensures exists j :: 0 <= j <= k && lower(TrimSpace(qs[j])) == lower(TrimSpace(qs[k])) && TrimSpace(qs[j]) in out
    {
      var j := QueryInstead(qs, lower, k);
    }
  }

  lemma QueryKeyMeans(q: string, lower: string -> string)
    ensures QueryKey(lower)(q) == if TrimSpace(q) == "" then NoKey else By(lower(TrimSpace(q)))
  {
    hide TrimSpace;
  }

  /** The query that is kept for query `k`. */
  lemma QueryInstead(qs: seq<string>, lower: string -> string, k: nat) returns (j: nat)
    requires k < |qs| && TrimSpace(qs[k]) != ""
    ensures j <= k && lower(TrimSpace(qs[j])) == lower(TrimSpace(qs[k])) && TrimSpace(qs[j]) in CleanQueries(qs, lower)
  {
    hide TrimSpace, Distinct, QueryKey, FirstOfKey;
    TrimTwice(qs[k]);
    QueryKeyMeans(TrimAll(qs)[k], lower);
    j := KeptFor(TrimAll(qs), QueryKey(lower), k);
    TrimTwice(qs[j]);
    QueryKeyMeans(TrimAll(qs)[j], lower);
  }

  /** Cleaning up again changes nothing; so the second clean-up, of what the rewriter returns, changes nothing. */
  lemma CleaningIsIdempotent(qs: seq<string>, lower: string -> string, n: nat)
    ensures CleanQueries(Take(CleanQueries(qs, lower), n), lower) == Take(CleanQueries(qs, lower), n)
  {
    var out := CleanQueries(qs, lower);
    var some := Take(out, n);
    DistinctMeans(TrimAll(qs), QueryKey(lower));
    TakeKeepsDifferent(out, QueryKey(lower), n);
    forall i | 0 <= i < |some| ensures TrimSpace(some[i]) == some[i] {
      CleanIsTrimmed(qs, lower, i);
    }
    assert TrimAll(some) == some;
    DistinctIsFixed(some, QueryKey(lower));
  }

  lemma OneQuery(q: string, lower: string -> string)
    requires TrimSpace(q) == q
    ensures CleanQueries([q], lower) == if q == "" then [] else [q]
  {
    hide TrimSpace;
    assert [q][..0] == [];
    assert TrimAll([q]) == [q];
  }

  /** Exactly when a query or the question is not blank does cleaning up the rewriter's answer leave it as it is. */
  lemma NormalizedIsClean(qs: seq<string>, fallback: string, lower: string -> string)
    ensures var r := Normalized(qs, fallback, lower);
      Take(CleanQueries(r, lower), PATH_LIMIT) == r <==> CleanQueries(qs, lower) != [] || TrimSpace(fallback) != ""
  {
    TrimTwice(fallback);
    hide TrimSpace, CleanQueries;
    CleaningIsIdempotent(qs, lower, 5);
    OneQuery(TrimSpace(fallback), lower);
  }

  // ---------------------------------------------------------------- a whole retrieval

  datatype Rewriting<E> = NoRewriter | RewriteFailed(error: E) | Rewritten(queries: seq<string>)

  datatype SearchError<E> = EmptyQuery | NoQuery | RecallFailed(error: E)

  /** What the retrieval is run for. */
  function Queries<E>(original: string, rw: Rewriting<E>, lower: string -> string): (r: seq<string>)
    ensures r != [] && |r| <= PATH_LIMIT
    ensures !rw.Rewritten? ==> r == [TrimSpace(original)]
    ensures rw.Rewritten? ==> r == var qs := Take(CleanQueries(rw.queries, lower), 5); if qs == [] then [TrimSpace(original)] else qs
  {
    if rw.Rewritten? then
      var qs := Take(CleanQueries(rw.queries, lower), PATH_LIMIT);
      if qs == [] then [TrimSpace(original)] else qs
    else [TrimSpace(original)]
  }

  /** How many hits each of several paths is asked for. */
  function PerPath(finalTopK: int): (k: nat)
    ensures 0 < k <= PER_PATH_LIMIT
    ensures (finalTopK <= 0 ==> k == 10) && (0 < finalTopK <= 50 ==> k == finalTopK) && (finalTopK > 50 ==> k == 50)
  {
    var k := if finalTopK > PER_PATH_LIMIT then PER_PATH_LIMIT else finalTopK;
    if k <= 0 then 10 else k
  }

  function Recalled<E>(queries: seq<string>, k: int, retrieve: (string, int) -> Result<seq<Hit>, E>, n: nat): (r: seq<Result<seq<Hit>, E>>)
    requires n <= |queries|
    ensures |r| == n && forall i :: 0 <= i < n ==> r[i] == retrieve(queries[i], k)
  {
    if n == 0 then [] else Recalled(queries, k, retrieve, n - 1) + [retrieve(queries[n - 1], k)]
  }

  /** A retrieval returns at most as many hits as it is asked for. */
  ghost predicate Bounded<E>(queries: seq<string>, k: int, retrieve: (string, int) -> Result<seq<Hit>, E>) {
    forall i :: 0 <= i < |queries| ==> var r := retrieve(queries[i], k); r.Ok? ==> |r.value| <= k
  }

  /** `RunParallelTextRetrieval`: cleaning up the queries again, one path or several. */
  method RunParallel<E>(queries0: seq<string>, perQuery: int, lower: string -> string,
                        retrieve: (string, int) -> Result<seq<Hit>, E>, order: seq<nat>)
    returns (r: Result<seq<Hit>, SearchError<E>>)
    requires CompletionOrder(order, |Take(CleanQueries(queries0, lower), PATH_LIMIT)|)
    ensures var qs := Take(CleanQueries(queries0, lower), PATH_LIMIT);
      var rs := Recalled(qs, if perQuery <= 0 then 10 else perQuery, retrieve, |qs|);
      && (qs == [] ==> r == Err(NoQuery))
      && (|qs| == 1 ==> r == Single(retrieve(qs[0], perQuery), 0))
      && (|qs| > 1 ==> (r.Ok? <==> AllOk(rs)))
      && (|qs| > 1 && r.Ok? ==> r.value == Take(AllHits(Values(rs, |qs|)), MERGED_LIMIT))
  {
    hide CleanQueries, AllHits, CompletionOrder, Take;
    var queries := DedupeQueriesForParallel(queries0, PATH_LIMIT, lower);
    if |queries| == 0 {
      return Err(NoQuery);
    }
    if |queries| == 1 {
      match retrieve(queries[0], perQuery) {
        case Ok(hits) =>
          return Ok(hits);
        case Err(e) =>
          return Err(RecallFailed(e));
      }
    }
    var k := perQuery;
    if k <= 0 {
      k := 10;
    }
    var merged := FanOut(Recalled(queries, k, retrieve, |queries|), order);
    match merged {
      case Ok(hits) =>
        r := Ok(hits);
      case Err(e) =>
        r := Err(RecallFailed(e));
    }
  }

  /**
   `RunTextRetrievalWithOptionalRewrite`: for one query what its retrieval returns, for several the distinct hits of
   all of them in the order of the queries, whatever the order of completion; in both cases at most `finalTopK`.
   The limit of 250 hits makes no difference if no retrieval returns more than it was asked for.
   */
  method RunTextRetrieval<E>(original: string, finalTopK: int, rw: Rewriting<E>, lower: string -> string,
                             retrieve: (string, int) -> Result<seq<Hit>, E>, order: seq<nat>)
    returns (r: Result<seq<Hit>, SearchError<E>>, rewritten: seq<string>)
    requires CompletionOrder(order, |Queries(original, rw, lower)|)
    ensures TrimSpace(original) == "" ==> r == Err(EmptyQuery)
    ensures TrimSpace(original) != "" ==>
      var qs := Queries(original, rw, lower);
      var rs := Recalled(qs, PerPath(finalTopK), retrieve, |qs|);
      && rewritten == qs
      && (|qs| == 1 ==> r == Single(retrieve(qs[0], finalTopK), finalTopK))
      && (|qs| > 1 ==> (r.Ok? <==> AllOk(rs)))
      && (|qs| > 1 && r.Ok? ==> r.value == Limited(Take(AllHits(Values(rs, |qs|)), MERGED_LIMIT), finalTopK))
      && (|qs| > 1 && r.Ok? && Bounded(qs, PerPath(finalTopK), retrieve) ==> r.value == Limited(AllHits(Values(rs, |qs|)), finalTopK))
  {
    hide CleanQueries, AllHits, CompletionOrder, TrimSpace;
    var query := TrimSpace(original);
    if query == "" {
      return Err(EmptyQuery), [];
    }
    var queries := [query];
    if rw.Rewritten? && |rw.queries| > 0 {
      queries := DedupeQueriesForParallel(rw.queries, PATH_LIMIT, lower);
      if |queries| == 0 {
        queries := [query];
      }
    }
    NoRewrites(lower);
    rewritten := queries;
    var perK := finalTopK;
    if perK > PER_PATH_LIMIT {
      perK := PER_PATH_LIMIT;
    }
    if perK <= 0 {
      perK := 10;
    }
    if |queries| == 1 {
      match retrieve(queries[0], finalTopK) {
        case Ok(hits) =>
          r := Ok(hits);
        case Err(e) =>
          r := Err(RecallFailed(e));
      }
    } else {
      SeveralAreClean(rw.queries, lower, queries);
      r := RunParallel(queries, perK, lower, retrieve, order);
      CapIsIdle(queries, perK, retrieve);
    }
    if r.Ok? && |r.value| > finalTopK && finalTopK > 0 {
      r := Ok(r.value[..finalTopK]);
    }
  }

  function Single<E>(found: Result<seq<Hit>, E>, finalTopK: int): (r: Result<seq<Hit>, SearchError<E>>)
    ensures found.Ok? ==> r.Ok? && r.value <= found.value && (finalTopK <= 0 ==> r.value == found.value)
    ensures found.Ok? && finalTopK > 0 ==> |r.value| == if |found.value| <= finalTopK then |found.value| else finalTopK
    ensures found.Err? ==> r == Err(RecallFailed(found.error))
  {
    match found
    case Ok(hits) => Ok(Limited(hits, finalTopK))
    case Err(e) => Err(RecallFailed(e))
  }

  lemma NoRewrites(lower: string -> string)
    ensures CleanQueries([], lower) == []
  {
  }

  lemma SeveralAreClean(qs: seq<string>, lower: string -> string, queries: seq<string>)
    requires queries == Take(CleanQueries(qs, lower), PATH_LIMIT)
    ensures Take(CleanQueries(queries, lower), PATH_LIMIT) == queries
  {
    hide CleanQueries;
    CleaningIsIdempotent(qs, lower, PATH_LIMIT);
  }

  lemma CapIsIdle<E>(queries: seq<string>, k: nat, retrieve: (string, int) -> Result<seq<Hit>, E>)
    requires |queries| <= PATH_LIMIT && k <= PER_PATH_LIMIT
    ensures Bounded(queries, k, retrieve) ==>
      var rs := Recalled(queries, k, retrieve, |queries|);
      AllOk(rs) ==> Take(AllHits(Values(rs, |rs|)), MERGED_LIMIT) == AllHits(Values(rs, |rs|))
  {
    hide AllHits;
    var rs := Recalled(queries, k, retrieve, |queries|);
    if AllOk(rs) && Bounded(queries, k, retrieve) {
      MergedLimitDropsNothing(Values(rs, |rs|));
    }
  }
}
