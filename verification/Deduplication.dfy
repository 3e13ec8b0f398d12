/**
 Order-preserving removal of repetitions by key, the pattern shared by the recall merges and the query clean-up:
 items without a key are dropped, and of the items with the same key the first one stays.
 */
module Deduplication {
  import opened Text

  datatype Key<K> = NoKey | By(k: K)

  predicate HasKey<T, K(==)>(xs: seq<T>, key: T -> Key<K>, k: Key<K>) {
    xs != [] && (key(xs[|xs| - 1]) == k || HasKey(xs[..|xs| - 1], key, k))
  }

  lemma {:induction false} HasKeyMeans<T, K>(xs: seq<T>, key: T -> Key<K>, k: Key<K>)
    ensures HasKey(xs, key, k) <==> exists i :: 0 <= i < |xs| && key(xs[i]) == k
  {
    if xs != [] {
      var n := |xs| - 1;
      HasKeyMeans(xs[..n], key, k);
      if HasKey(xs[..n], key, k) {
        var i :| 0 <= i < n && key(xs[..n][i]) == k;
        assert key(xs[i]) == k;
      }
      if i :| 0 <= i < |xs| && key(xs[i]) == k {
        assert i < n ==> key(xs[..n][i]) == k;
      }
    }
  }

  function Distinct<T, K(==)>(xs: seq<T>, key: T -> Key<K>): (r: seq<T>)
    ensures |r| <= |xs|
  {
    if xs == [] then []
    else
      var r := Distinct(xs[..|xs| - 1], key);
      var x := xs[|xs| - 1];
      if key(x) == NoKey || HasKey(r, key, key(x)) then r else r + [x]
  }

  lemma DistinctStep<T, K>(xs: seq<T>, x: T, key: T -> Key<K>)
    ensures Distinct(xs + [x], key)
         == if key(x) == NoKey || HasKey(Distinct(xs, key), key, key(x)) then Distinct(xs, key) else Distinct(xs, key) + [x]
  {
    assert (xs + [x])[..|xs|] == xs;
  }

  /** `i` is the first position of its key. */
  ghost predicate FirstOfKey<T, K>(xs: seq<T>, key: T -> Key<K>, i: nat)
    requires i < |xs|
  {
    key(xs[i]) != NoKey && forall j :: 0 <= j < i ==> key(xs[j]) != key(xs[i])
  }

  ghost predicate IsFirst<T, K>(xs: seq<T>, key: T -> Key<K>, x: T) {
    exists i :: 0 <= i < |xs| && xs[i] == x && FirstOfKey(xs, key, i)
  }

  ghost predicate DifferentKeys<T, K>(xs: seq<T>, key: T -> Key<K>) {
    && (forall i :: 0 <= i < |xs| ==> key(xs[i]) != NoKey)
    && forall i, j :: 0 <= i < j < |xs| ==> key(xs[i]) != key(xs[j])
  }

  lemma FirstStays<T, K>(xs: seq<T>, y: T, key: T -> Key<K>, x: T)
    requires IsFirst(xs, key, x)
    ensures IsFirst(xs + [y], key, x)
  {
    var i :| 0 <= i < |xs| && xs[i] == x && FirstOfKey(xs, key, i);
    assert (xs + [y])[i] == x && FirstOfKey(xs + [y], key, i);
  }

  /** No key twice, every key that occurs is there, and every item is the first one of its key. */
  lemma {:induction false} DistinctMeans<T, K>(xs: seq<T>, key: T -> Key<K>)
    ensures DifferentKeys(Distinct(xs, key), key)
    ensures forall k :: k != NoKey ==> (HasKey(Distinct(xs, key), key, k) <==> HasKey(xs, key, k))
    ensures forall x :: x in Distinct(xs, key) ==> IsFirst(xs, key, x)
  {
    if xs != [] {
      var n := |xs| - 1;
      var init, x := xs[..n], xs[n];
      assert xs == init + [x];
      hide IsFirst, DifferentKeys;
      DistinctMeans(init, key);
      var r := Distinct(init, key);
      forall y | y in r ensures IsFirst(xs, key, y) {
        FirstStays(init, x, key, y);
      }
      if key(x) != NoKey && !HasKey(r, key, key(x)) {
        assert (r + [x])[..|r|] == r;
        NewKeyIsFirst(xs, key);
        KeepsDifferent(r, x, key);
      }
    }
  }

  /** The item that is kept for item `k`: the first one of its key. */
  lemma KeptFor<T, K>(xs: seq<T>, key: T -> Key<K>, k: nat) returns (j: nat)
    requires k < |xs| && key(xs[k]) != NoKey
    ensures j <= k && key(xs[j]) == key(xs[k]) && FirstOfKey(xs, key, j) && xs[j] in Distinct(xs, key)
  {
    var out := Distinct(xs, key);
    DistinctMeans(xs, key);
    var same := key(xs[k]);
    HasKeyMeans(xs, key, same);
    HasKeyMeans(out, key, same);
    assert HasKey(xs, key, same) && HasKey(out, key, same);
    hide Distinct, HasKey;
    var i :| 0 <= i < |out| && key(out[i]) == key(xs[k]);
    assert IsFirst(xs, key, out[i]);
    j :| 0 <= j < |xs| && xs[j] == out[i] && FirstOfKey(xs, key, j);
  }

  lemma NewKeyIsFirst<T, K>(xs: seq<T>, key: T -> Key<K>)
    requires xs != []
    ensures var n := |xs| - 1;
      key(xs[n]) != NoKey && !HasKey(xs[..n], key, key(xs[n])) ==> IsFirst(xs, key, xs[n])
  {
    var n := |xs| - 1;
    if key(xs[n]) != NoKey && !HasKey(xs[..n], key, key(xs[n])) {
      HasKeyMeans(xs[..n], key, key(xs[n]));
      forall j | 0 <= j < n ensures key(xs[j]) != key(xs[n]) {
        assert xs[..n][j] == xs[j];
      }
      assert FirstOfKey(xs, key, n);
    }
  }

  lemma KeepsDifferent<T, K>(r: seq<T>, x: T, key: T -> Key<K>)
    requires DifferentKeys(r, key) && key(x) != NoKey && !HasKey(r, key, key(x))
    ensures DifferentKeys(r + [x], key)
  {
    HasKeyMeans(r, key, key(x));
    hide HasKey;
    assert forall i :: 0 <= i < |r| ==> key(r[i]) != key(x);
  }

  /** `rs` are the items of `xs` at `ps`: the first positions of all keys, in increasing order. */
  ghost predicate Picks<T, K>(xs: seq<T>, key: T -> Key<K>, rs: seq<T>, ps: seq<nat>) {
    && |ps| == |rs|
    && (forall i :: 0 <= i < |ps| ==> ps[i] < |xs| && rs[i] == xs[ps[i]] && FirstOfKey(xs, key, ps[i]))
    && Climbs(ps)
    && forall p :: 0 <= p < |xs| && FirstOfKey(xs, key, p) ==> p in ps
  }

  lemma FirstOfKeyStays<T, K>(xs: seq<T>, x: T, key: T -> Key<K>, p: nat)
    requires p < |xs|
    ensures FirstOfKey(xs + [x], key, p) <==> FirstOfKey(xs, key, p)
  {
    assert forall j :: 0 <= j <= p ==> (xs + [x])[j] == xs[j];
  }

  lemma FirstOfKeyNew<T, K>(xs: seq<T>, x: T, key: T -> Key<K>)
    ensures FirstOfKey(xs + [x], key, |xs|) <==> key(x) != NoKey && !HasKey(Distinct(xs, key), key, key(x))
  {
    DistinctMeans(xs, key);
    HasKeyMeans(xs, key, key(x));
    hide HasKey, Distinct, IsFirst, DifferentKeys;
    var more := xs + [x];
    assert more[|xs|] == x && forall j :: 0 <= j < |xs| ==> more[j] == xs[j];
    if HasKey(xs, key, key(x)) {
      var i :| 0 <= i < |xs| && key(xs[i]) == key(x);
      assert key(more[i]) == key(more[|xs|]);
    }
  }

  lemma PicksSkips<T, K>(xs: seq<T>, x: T, key: T -> Key<K>, rs: seq<T>, ps: seq<nat>)
    requires Picks(xs, key, rs, ps) && !FirstOfKey(xs + [x], key, |xs|)
    ensures Picks(xs + [x], key, rs, ps)
  {
    var more := xs + [x];
    forall p: nat | p < |xs| ensures more[p] == xs[p] && (FirstOfKey(more, key, p) <==> FirstOfKey(xs, key, p)) {
      FirstOfKeyStays(xs, x, key, p);
    }
    hide FirstOfKey;
  }

  lemma PicksGrows<T, K>(xs: seq<T>, x: T, key: T -> Key<K>, rs: seq<T>, ps: seq<nat>)
    requires Picks(xs, key, rs, ps) && FirstOfKey(xs + [x], key, |xs|)
    ensures Picks(xs + [x], key, rs + [x], ps + [|xs|])
  {
    var more := xs + [x];
    forall p: nat | p < |xs| ensures more[p] == xs[p] && (FirstOfKey(more, key, p) <==> FirstOfKey(xs, key, p)) {
      FirstOfKeyStays(xs, x, key, p);
    }
    hide FirstOfKey;
    forall p: nat | p < |more| && FirstOfKey(more, key, p) ensures p in ps + [|xs|] {
      assert p < |xs| ==> p in ps;
      assert (ps + [|xs|])[|ps|] == |xs|;
    }
  }

  /** What is kept stands in the order in which the keys first occur. */
  lemma {:induction false} DistinctPicks<T, K>(xs: seq<T>, key: T -> Key<K>) returns (ps: seq<nat>)
    ensures Picks(xs, key, Distinct(xs, key), ps)
  {
    if xs == [] {
      ps := [];
    } else {
      hide Distinct, FirstOfKey, HasKey, Picks;
      var init, x := xs[..|xs| - 1], xs[|xs| - 1];
      assert xs == init + [x];
      ps := DistinctPicks(init, key);
      FirstOfKeyNew(init, x, key);
      DistinctStep(init, x, key);
      if FirstOfKey(xs, key, |init|) {
        PicksGrows(init, x, key, Distinct(init, key), ps);
        ps := ps + [|init|];
      } else {
        PicksSkips(init, x, key, Distinct(init, key), ps);
      }
    }
  }

  ghost predicate Climbs(ps: seq<nat>) {
    forall i, j :: 0 <= i < j < |ps| ==> ps[i] < ps[j]
  }

  lemma LastIsLargest(ps: seq<nat>, p: nat)
    requires ps != [] && Climbs(ps)
    ensures p in ps ==> p <= ps[|ps| - 1]
    ensures p in ps[..|ps| - 1] <==> p in ps && p != ps[|ps| - 1]
    ensures ps[|ps| - 1] in ps && Climbs(ps[..|ps| - 1])
  {
    var m := |ps| - 1;
    assert ps == ps[..m] + [ps[m]];
  }

  lemma SomeMember(ps: seq<nat>)
    ensures ps != [] ==> exists p :: p in ps
  {
    if ps != [] {
      assert ps[0] in ps;
    }
  }

  lemma {:induction false} SamePositions(ps: seq<nat>, qs: seq<nat>)
    requires Climbs(ps) && Climbs(qs) && forall p :: p in ps <==> p in qs
    ensures ps == qs
  {
    hide Climbs;
    SomeMember(ps);
    SomeMember(qs);
    if ps != [] && qs != [] {
      var m, n := |ps| - 1, |qs| - 1;
      LastIsLargest(ps, qs[n]);
      LastIsLargest(qs, ps[m]);
      assert ps[m] == qs[n];
      forall p: nat ensures p in ps[..m] <==> p in qs[..n] {
        LastIsLargest(ps, p);
        LastIsLargest(qs, p);
      }
      SamePositions(ps[..m], qs[..n]);
      assert ps == ps[..m] + [ps[m]] && qs == qs[..n] + [qs[n]];
    }
  }

  /** And that fixes it: a list of the items at the first positions of all keys, in order, is the result. */
  lemma DistinctIsUnique<T, K>(xs: seq<T>, key: T -> Key<K>, rs: seq<T>, ps: seq<nat>)
    requires Picks(xs, key, rs, ps)
    ensures rs == Distinct(xs, key)
  {
    var qs := DistinctPicks(xs, key);
    hide Distinct, FirstOfKey;
    SamePositions(ps, qs);
  }

  lemma {:induction false} DistinctPrefix<T, K>(a: seq<T>, b: seq<T>, key: T -> Key<K>)
    ensures Distinct(a, key) <= Distinct(a + b, key)
  {
    if b == [] {
      assert a + b == a;
    } else {
      var n := |b| - 1;
      DistinctPrefix(a, b[..n], key);
      DistinctStep(a + b[..n], b[n], key);
      hide Distinct, HasKey;
      assert a + b == (a + b[..n]) + [b[n]];
    }
  }

  /** Once `n` items are found, reading on changes none of the first `n`. */
  lemma EnoughFound<T, K>(a: seq<T>, b: seq<T>, key: T -> Key<K>, n: nat)
    requires |Distinct(a, key)| >= n
    ensures Take(Distinct(a + b, key), n) == Take(Distinct(a, key), n)
  {
    DistinctPrefix(a, b, key);
  }

  /** Items with different keys are all kept. */
  lemma {:induction false} DistinctIsFixed<T, K>(xs: seq<T>, key: T -> Key<K>)
    requires DifferentKeys(xs, key)
    ensures Distinct(xs, key) == xs
  {
    if xs != [] {
      var n := |xs| - 1;
      DistinctIsFixed(xs[..n], key);
      HasKeyMeans(xs[..n], key, key(xs[n]));
      assert xs == xs[..n] + [xs[n]];
    }
  }

  lemma TakeKeepsDifferent<T, K>(xs: seq<T>, key: T -> Key<K>, n: nat)
    requires DifferentKeys(xs, key)
    ensures DifferentKeys(Take(xs, n), key)
  {
  }
}
