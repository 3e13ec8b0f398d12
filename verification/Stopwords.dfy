/** `splitHanAtStopwords`: a string is cut at the longest listed stop word of each position, left to right. */
module Stopwords {
  import opened Text

  /** A listed stop word of length `n` stands at `i`. */
  ghost predicate StopAt(t: string, stops: seq<string>, i: nat, n: nat) {
    n > 0 && exists k :: 0 <= k < |stops| && |stops[k]| == n && OccursAt(t, stops[k], i)
  }

  /** Length of the longest of the first `m` stop words that stands at `i`, or 0. */
  function BestOf(t: string, stops: seq<string>, i: nat, m: nat): (best: nat)
    requires i <= |t| && m <= |stops|
    ensures i + best <= |t|
  {
    if m == 0 then 0
    else
      var best := BestOf(t, stops, i, m - 1);
      var sw := stops[m - 1];
      if sw != "" && i + |sw| <= |t| && t[i..i + |sw|] == sw && |sw| > best then |sw| else best
  }

  function Best(t: string, stops: seq<string>, i: nat): (best: nat)
    requires i <= |t|
    ensures i + best <= |t|
  {
    BestOf(t, stops, i, |stops|)
  }

  /** It is the longest one, and 0 exactly when there is none. */
  lemma {:induction false} BestOfIsLongest(t: string, stops: seq<string>, i: nat, m: nat)
    requires i <= |t| && m <= |stops|
    ensures var best := BestOf(t, stops, i, m);
      (best > 0 ==> StopAt(t, stops, i, best)) && forall k :: 0 <= k < m && OccursAt(t, stops[k], i) ==> |stops[k]| <= best
  {
    if m > 0 {
      BestOfIsLongest(t, stops, i, m - 1);
    }
  }

  lemma BestIsLongest(t: string, stops: seq<string>, i: nat)
    requires i <= |t|
    ensures Best(t, stops, i) > 0 ==> StopAt(t, stops, i, Best(t, stops, i))
    ensures forall n: nat :: StopAt(t, stops, i, n) ==> n <= Best(t, stops, i)
  {
    BestOfIsLongest(t, stops, i, |stops|);
  }

  /** A stretch of the string: a removed stop word, or a part that is returned. */
  datatype Piece = Piece(span: Span, stop: bool)

  /** The pieces from `start` on, when `[start, i)` holds the beginning of a part. */
  function Pieces(t: string, stops: seq<string>, start: nat, i: nat): (r: seq<Piece>)
    requires start <= i <= |t|
    decreases |t| - i
  {
    if i == |t| then (if start < i then [Piece(Span(start, i), false)] else [])
    else
      var best := Best(t, stops, i);
      if best > 0 then
        var rest := [Piece(Span(i, i + best), true)] + Pieces(t, stops, i + best, i + best);
        if start < i then [Piece(Span(start, i), false)] + rest else rest
      else Pieces(t, stops, start, i + 1)
  }

  /** The spans of the parts. */
  function Parts(ps: seq<Piece>): seq<Span> {
    if ps == [] then [] else if ps[0].stop then Parts(ps[1..]) else [ps[0].span] + Parts(ps[1..])
  }

  lemma PartsCons(p: Piece, ps: seq<Piece>)
    ensures Parts([p] + ps) == if p.stop then Parts(ps) else [p.span] + Parts(ps)
  {
    assert ([p] + ps)[1..] == ps;
  }

  ghost predicate SpansFit(t: string, spans: seq<Span>) {
    forall i :: 0 <= i < |spans| ==> Fits(t, spans[i])
  }

  /** Piece after piece, none empty, from `lo` to the end; what is removed is a listed word, the longest there. */
  ghost predicate Cut(t: string, stops: seq<string>, ps: seq<Piece>, lo: nat)
    decreases |ps|
  {
    if ps == [] then lo == |t|
    else
      var p := ps[0].span;
      && p.lo == lo < p.hi <= |t|
      && (ps[0].stop ==> Best(t, stops, lo) == p.Len() && StopAt(t, stops, lo, p.Len()))
      && (!ps[0].stop ==> forall q: nat, n: nat :: p.lo <= q < p.hi ==> !StopAt(t, stops, q, n))
      && (!ps[0].stop && |ps| > 1 ==> ps[1].stop)
      && Cut(t, stops, ps[1..], p.hi)
  }

  lemma {:induction false} PiecesAreCut(t: string, stops: seq<string>, start: nat, i: nat)
    requires start <= i <= |t| && forall q: nat, n: nat :: start <= q < i ==> !StopAt(t, stops, q, n)
    ensures Cut(t, stops, Pieces(t, stops, start, i), start)
    ensures start < i ==> Pieces(t, stops, start, i) != [] && !Pieces(t, stops, start, i)[0].stop
    decreases |t| - i
  {
    hide StopAt, BestOf;
    if i < |t| {
      var best := Best(t, stops, i);
      BestIsLongest(t, stops, i);
      if best > 0 {
        PiecesAreCut(t, stops, i + best, i + best);
        var rest := Pieces(t, stops, i + best, i + best);
        var tail := [Piece(Span(i, i + best), true)] + rest;
        assert tail[1..] == rest;
        assert Cut(t, stops, tail, i);
        if start < i {
          var all := [Piece(Span(start, i), false)] + tail;
          assert all[1..] == tail;
          assert Pieces(t, stops, start, i) == all;
        } else {
          assert Pieces(t, stops, start, i) == tail;
        }
      } else {
        forall n: nat ensures !StopAt(t, stops, i, n) {
          PositiveStop(t, stops, i, n);
        }
        PiecesAreCut(t, stops, start, i + 1);
      }
    }
  }

  lemma PositiveStop(t: string, stops: seq<string>, i: nat, n: nat)
    ensures StopAt(t, stops, i, n) ==> n > 0
  {
  }

  /** The parts of the trimmed string. */
  function SplitSpansAt(s: string, stops: seq<string>): seq<Span> {
    Parts(Pieces(TrimSpace(s), stops, 0, 0))
  }

  lemma {:induction false} PartsFit(t: string, stops: seq<string>, ps: seq<Piece>, lo: nat)
    requires Cut(t, stops, ps, lo)
    ensures SpansFit(t, Parts(ps))
    decreases |ps|
  {
    hide StopAt, Best;
    if ps != [] {
      PartsFit(t, stops, ps[1..], ps[0].span.hi);
    }
  }

  method LongestStop(rs: string, stops: seq<string>, i: nat) returns (best: nat)
    requires i < |rs|
    ensures best == Best(rs, stops, i)
  {
    best := 0;
    for k := 0 to |stops|
      invariant best == BestOf(rs, stops, i, k)
    {
      var sw := stops[k];
      if |sw| == 0 {
        continue;
      }
      if i + |sw| <= |rs| && rs[i..i + |sw|] == sw && |sw| > best {
        best := |sw|;
      }
    }
  }

  method SplitHanAtStopwords(s: string, stops: seq<string>) returns (parts: seq<string>)
    ensures SpansFit(TrimSpace(s), SplitSpansAt(s, stops)) && parts == Slices(TrimSpace(s), SplitSpansAt(s, stops))
  {
    hide TrimSpace, Cut, Best, Slices, Pieces, Parts;
    var rs := TrimSpace(s);
    ghost var all := SplitSpansAt(s, stops);
    PiecesAreCut(rs, stops, 0, 0);
    PartsFit(rs, stops, Pieces(rs, stops, 0, 0), 0);
    NoSlices(rs, all);
    parts := [];
    if |rs| == 0 {
      LastPart(rs, stops, 0);
      return;
    }
    var start, i := 0, 0;
    ghost var done: seq<Span> := [];
    while i < |rs|
      invariant start <= i <= |rs|
      invariant all == done + Parts(Pieces(rs, stops, start, i))
      invariant SpansFit(rs, done) && parts == Slices(rs, done)
      decreases |rs| - i
    {
      var best := LongestStop(rs, stops, i);
      PiecesStep(rs, stops, start, i);
      if best > 0 {
        if i > start {
          SlicesStep(rs, done, Span(start, i));
          parts := parts + [rs[start..i]];
          Regroup(done, Span(start, i), Parts(Pieces(rs, stops, i + best, i + best)));
          done := done + [Span(start, i)];
        }
        i := i + best;
        start := i;
        continue;
      }
      i := i + 1;
    }
    LastPart(rs, stops, start);
    if start < |rs| {
      SlicesStep(rs, done, Span(start, |rs|));
      parts := parts + [rs[start..]];
      done := done + [Span(start, |rs|)];
    } else {
      NoSlices(rs, done);
    }
  }

  lemma NoSlices(t: string, spans: seq<Span>)
    ensures SpansFit(t, []) && Slices(t, []) == [] && [] + spans == spans && spans + [] == spans
  {
  }

  lemma Regroup(done: seq<Span>, s: Span, rest: seq<Span>)
    ensures done + ([s] + rest) == (done + [s]) + rest && [] + rest == rest
  {
  }

  lemma SlicesStep(t: string, spans: seq<Span>, s: Span)
    requires SpansFit(t, spans) && Fits(t, s)
    ensures SpansFit(t, spans + [s]) && Slices(t, spans + [s]) == Slices(t, spans) + [t[s.lo..s.hi]]
    ensures s.hi == |t| ==> t[s.lo..s.hi] == t[s.lo..]
  {
  }

  lemma LastPart(t: string, stops: seq<string>, start: nat)
    requires start <= |t|
    ensures Parts(Pieces(t, stops, start, |t|)) == if start < |t| then [Span(start, |t|)] else []
  {
  }

  lemma PiecesStep(t: string, stops: seq<string>, start: nat, i: nat)
    requires start <= i < |t|
    ensures var best := Best(t, stops, i);
      Parts(Pieces(t, stops, start, i)) ==
        if best == 0 then Parts(Pieces(t, stops, start, i + 1))
        else if start < i then [Span(start, i)] + Parts(Pieces(t, stops, i + best, i + best))
        else Parts(Pieces(t, stops, i + best, i + best))
  {
    var best := Best(t, stops, i);
    if best > 0 {
      var rest := Pieces(t, stops, i + best, i + best);
      var stop := Piece(Span(i, i + best), true);
      PartsCons(stop, rest);
      PartsCons(Piece(Span(start, i), false), [stop] + rest);
    }
  }

  // ---------------------------------------------------------------- laws

  function SpansOf(ps: seq<Piece>): (r: seq<Span>)
    ensures |r| == |ps| && forall i :: 0 <= i < |r| ==> r[i] == ps[i].span
  {
    if ps == [] then [] else [ps[0].span] + SpansOf(ps[1..])
  }

  lemma TilesCons(t: string, s: Span, rest: seq<Span>)
    requires Fits(t, s) && Tiles(t, rest, "") && (rest != [] ==> rest[0].lo == s.hi)
    ensures Tiles(t, [s] + rest, "")
  {
    var sp := [s] + rest;
    forall i | 0 <= i < |sp| - 1 ensures Next(sp, 0, i) && OccursAt(t, "", sp[i].hi) {
      if i > 0 {
        assert Next(rest, 0, i - 1) && OccursAt(t, "", rest[i - 1].hi);
      }
    }
  }

  lemma {:induction false} CutTiles(t: string, stops: seq<string>, ps: seq<Piece>, lo: nat)
    requires Cut(t, stops, ps, lo)
    ensures Tiles(t, SpansOf(ps), "")
    ensures ps != [] ==> ps[0].span.lo == lo && ps[|ps| - 1].span.hi == |t|
    decreases |ps|
  {
    hide StopAt, Best;
    if ps != [] {
      var rest := ps[1..];
      CutTiles(t, stops, rest, ps[0].span.hi);
      assert SpansOf(ps) == [ps[0].span] + SpansOf(rest);
      TilesCons(t, ps[0].span, SpansOf(rest));
    }
  }

  /** The parts, with the removed stop words put back between them, are the string again. */
  lemma PiecesRebuild(t: string, stops: seq<string>)
    ensures var sp := SpansOf(Pieces(t, stops, 0, 0)); Tiles(t, sp, "") && Join(Slices(t, sp), "") == t
  {
    var ps := Pieces(t, stops, 0, 0);
    PiecesAreCut(t, stops, 0, 0);
    CutTiles(t, stops, ps, 0);
    if ps == [] {
      assert t == "";
    } else {
      JoinWhole(t, SpansOf(ps), "");
    }
  }

  /** Position `q` is in a part. */
  ghost predicate InPart(parts: seq<Span>, q: int) {
    exists k :: 0 <= k < |parts| && parts[k].lo <= q < parts[k].hi
  }

  /** Position `q` is in a stop word that is removed. */
  ghost predicate Removed(ps: seq<Piece>, q: int) {
    exists k :: 0 <= k < |ps| && ps[k].stop && ps[k].span.lo <= q < ps[k].span.hi
  }

  /** The parts are in order and apart, behind `lo`. */
  ghost predicate Apart(parts: seq<Span>, lo: nat) {
    && (forall k :: 0 <= k < |parts| ==> lo <= parts[k].lo < parts[k].hi)
    && forall k, l :: 0 <= k < l < |parts| ==> parts[k].hi < parts[l].lo
  }

  lemma InPartCons(s: Span, parts: seq<Span>, q: int)
    ensures InPart([s] + parts, q) <==> s.lo <= q < s.hi || InPart(parts, q)
  {
    var all := [s] + parts;
    if k :| 0 <= k < |parts| && parts[k].lo <= q < parts[k].hi {
      assert all[k + 1] == parts[k];
    }
    assert all[0] == s;
  }

  lemma RemovedCons(p: Piece, rest: seq<Piece>, q: int)
    ensures Removed([p] + rest, q) <==> (p.stop && p.span.lo <= q < p.span.hi) || Removed(rest, q)
  {
    var all := [p] + rest;
    if k :| 0 <= k < |rest| && rest[k].stop && rest[k].span.lo <= q < rest[k].span.hi {
      assert all[k + 1] == rest[k];
    }
    assert all[0] == p;
  }

  /** What is not removed is in a part, what is removed is in none. */
  lemma {:induction false} PartsAreRest(t: string, stops: seq<string>, ps: seq<Piece>, lo: nat, q: nat)
    requires Cut(t, stops, ps, lo) && lo <= q < |t|
    ensures InPart(Parts(ps), q) <==> !Removed(ps, q)
    decreases |ps|
  {
    hide StopAt, Best;
    var p, rest := ps[0], ps[1..];
    PartsAreApart(t, stops, rest, p.span.hi);
    RestIsBehind(t, stops, rest, p.span.hi);
    assert ps == [p] + rest;
    PartsCons(p, rest);
    InPartCons(p.span, Parts(rest), q);
    RemovedCons(p, rest, q);
    if q >= p.span.hi {
      PartsAreRest(t, stops, rest, p.span.hi, q);
    }
  }

  lemma {:induction false} RestIsBehind(t: string, stops: seq<string>, ps: seq<Piece>, lo: nat)
    requires Cut(t, stops, ps, lo)
    ensures lo <= |t| && forall k :: 0 <= k < |ps| ==> lo <= ps[k].span.lo
    decreases |ps|
  {
    hide StopAt, Best;
    if ps != [] {
      RestIsBehind(t, stops, ps[1..], ps[0].span.hi);
      assert forall k :: 0 < k < |ps| ==> ps[k] == ps[1..][k - 1];
    }
  }

  lemma {:induction false} PartsAreApart(t: string, stops: seq<string>, ps: seq<Piece>, lo: nat)
    requires Cut(t, stops, ps, lo)
    ensures Apart(Parts(ps), lo) && (ps != [] && ps[0].stop ==> Apart(Parts(ps), lo + 1))
    decreases |ps|
  {
    hide StopAt, Best;
    if ps != [] {
      PartsAreApart(t, stops, ps[1..], ps[0].span.hi);
    }
  }

  lemma {:induction false} PartIsPiece(t: string, stops: seq<string>, ps: seq<Piece>, lo: nat, k: nat)
    requires Cut(t, stops, ps, lo) && k < |Parts(ps)|
    ensures var s := Parts(ps)[k]; s.lo < s.hi <= |t| && forall q: nat, n: nat :: s.lo <= q < s.hi ==> !StopAt(t, stops, q, n)
    decreases |ps|
  {
    hide StopAt, Best;
    if ps[0].stop {
      PartIsPiece(t, stops, ps[1..], ps[0].span.hi, k);
    } else if k > 0 {
      PartIsPiece(t, stops, ps[1..], ps[0].span.hi, k - 1);
    }
  }

  /** No part contains a listed stop word, anywhere. */
  lemma PartsHaveNoStopword(s: string, stops: seq<string>, k: nat, q: nat, j: nat)
    requires k < |SplitSpansAt(s, stops)| && j < |stops| && stops[j] != ""
    ensures Fits(TrimSpace(s), SplitSpansAt(s, stops)[k])
    ensures SplitSpansAt(s, stops)[k].Len() > 0
    ensures !OccursAt(Slice(TrimSpace(s), SplitSpansAt(s, stops)[k]), stops[j], q)
  {
    hide TrimSpace, Cut, BestOf, Pieces;
    var t := TrimSpace(s);
    var ps := Pieces(t, stops, 0, 0);
    PiecesAreCut(t, stops, 0, 0);
    PartIsPiece(t, stops, ps, 0, k);
    var part := Parts(ps)[k];
    if q < part.Len() {
      assert OccursAt(Slice(t, part), stops[j], q) ==> StopAt(Slice(t, part), stops, q, |stops[j]|);
      StopInSlice(t, part, stops, q, |stops[j]|);
    }
  }

  lemma {:induction false} NoStopNoCut(t: string, stops: seq<string>, i: nat)
    requires i <= |t| && forall q: nat, n: nat :: 0 <= q < |t| ==> !StopAt(t, stops, q, n)
    ensures Pieces(t, stops, 0, i) == if t == "" then [] else [Piece(Span(0, |t|), false)]
    decreases |t| - i
  {
    hide StopAt, BestOf;
    if i < |t| {
      BestIsLongest(t, stops, i);
      NoStopNoCut(t, stops, i + 1);
    }
  }

  /** Splitting a part again gives the part, trimmed, or nothing if it is blank. */
  lemma ResplitIsIdentity(s: string, stops: seq<string>, k: nat)
    requires k < |SplitSpansAt(s, stops)|
    ensures Fits(TrimSpace(s), SplitSpansAt(s, stops)[k])
    ensures var part := Slice(TrimSpace(s), SplitSpansAt(s, stops)[k]); var again := TrimSpace(part);
      SplitSpansAt(part, stops) == if again == "" then [] else [Span(0, |again|)]
  {
    var t := TrimSpace(s);
    var ps := Pieces(t, stops, 0, 0);
    PiecesAreCut(t, stops, 0, 0);
    PartIsPiece(t, stops, ps, 0, k);
    var w := Parts(ps)[k];
    var part := Slice(t, w);
    var r := TrimSpan(t, w);
    TrimSpanIsTrimSpace(t, w);
    var again := TrimSpace(part);
    hide TrimSpace, TrimSpan, Cut, BestOf, Pieces, StopAt, Parts;
    forall q: nat, n: nat | q < |again| ensures !StopAt(again, stops, q, n) {
      StopInSlice(t, r, stops, q, n);
    }
    NoStopNoCut(again, stops, 0);
    OnePart(again);
  }

  /** A stop word found in a slice of the text stands in the text. */
  lemma StopInSlice(t: string, r: Span, stops: seq<string>, q: nat, n: nat)
    requires Fits(t, r) && q < r.Len()
    ensures StopAt(Slice(t, r), stops, q, n) ==> StopAt(t, stops, r.lo + q, n)
  {
    if StopAt(Slice(t, r), stops, q, n) {
      var j :| 0 <= j < |stops| && |stops[j]| == n && OccursAt(Slice(t, r), stops[j], q);
      SliceSlice(t, r.lo, r.hi, q, q + n);
      assert OccursAt(t, stops[j], r.lo + q);
    }
  }

  lemma OnePart(t: string)
    ensures Parts([Piece(Span(0, |t|), false)]) == [Span(0, |t|)] && Parts([]) == []
  {
    assert [Piece(Span(0, |t|), false)][1..] == [];
  }

  ghost predicate SameWords(a: seq<string>, b: seq<string>) {
    forall w :: w in a <==> w in b
  }

  lemma SameStops(t: string, a: seq<string>, b: seq<string>, i: nat, n: nat)
    requires SameWords(a, b) && StopAt(t, a, i, n)
    ensures StopAt(t, b, i, n)
  {
    var k :| 0 <= k < |a| && |a[k]| == n && OccursAt(t, a[k], i);
    assert a[k] in a;
  }

  lemma SameBest(t: string, a: seq<string>, b: seq<string>, i: nat)
    requires SameWords(a, b) && i <= |t|
    ensures Best(t, a, i) == Best(t, b, i)
  {
    hide SameWords, StopAt, BestOf;
    BestIsLongest(t, a, i);
    BestIsLongest(t, b, i);
    var x, y := Best(t, a, i), Best(t, b, i);
    if x > 0 {
      SameStops(t, a, b, i, x);
    }
    if y > 0 {
      SameWordsBack(a, b);
      SameStops(t, b, a, i, y);
    }
  }

  lemma SameWordsBack(a: seq<string>, b: seq<string>)
    requires SameWords(a, b)
    ensures SameWords(b, a)
  {
  }

  /** The order of the stop word list, and repetitions in it, do not matter. */
  lemma {:induction false} OrderDoesNotMatter(t: string, a: seq<string>, b: seq<string>, start: nat, i: nat)
    requires SameWords(a, b) && start <= i <= |t|
    ensures Pieces(t, a, start, i) == Pieces(t, b, start, i)
    decreases |t| - i
  {
    hide SameWords, Best;
    if i < |t| {
      SameBest(t, a, b, i);
      var best := Best(t, a, i);
      if best > 0 {
        OrderDoesNotMatter(t, a, b, i + best, i + best);
      } else {
        OrderDoesNotMatter(t, a, b, start, i + 1);
      }
    }
  }

  // ---------------------------------------------------------------- a part with outer white space

  /** Splitting a part again gives just that part if and only if it has no outer white space. */
  lemma ResplitIsSame(s: string, stops: seq<string>, k: nat)
    requires k < |SplitSpansAt(s, stops)|
    ensures Fits(TrimSpace(s), SplitSpansAt(s, stops)[k])
    ensures var part := Slice(TrimSpace(s), SplitSpansAt(s, stops)[k]);
      (SpansFit(TrimSpace(part), SplitSpansAt(part, stops)) && Slices(TrimSpace(part), SplitSpansAt(part, stops)) == [part])
      <==> TrimSpace(part) == part
  {
    ResplitIsIdentity(s, stops, k);
    PartNotEmpty(s, stops, k);
    var part := Slice(TrimSpace(s), SplitSpansAt(s, stops)[k]);
    hide SplitSpansAt, TrimSpace;
    var again := TrimSpace(part);
    WholeSlice(again);
    NoSlices(again, []);
  }

  lemma PartNotEmpty(s: string, stops: seq<string>, k: nat)
    requires k < |SplitSpansAt(s, stops)|
    ensures Fits(TrimSpace(s), SplitSpansAt(s, stops)[k]) && SplitSpansAt(s, stops)[k].Len() > 0
  {
    hide TrimSpace, Pieces, Cut, StopAt, Best;
    PiecesAreCut(TrimSpace(s), stops, 0, 0);
    PartIsPiece(TrimSpace(s), stops, Pieces(TrimSpace(s), stops, 0, 0), 0, k);
  }

  lemma WholeSlice(t: string)
    ensures Fits(t, Span(0, |t|)) && SpansFit(t, [Span(0, |t|)]) && Slices(t, [Span(0, |t|)]) == [t]
  {
    NoSlices(t, [Span(0, |t|)]);
    SlicesStep(t, [], Span(0, |t|));
  }

  const DE: string := "\U{7684}"

  /** A part with a blank at its end, and what splitting it again makes of it. */
  method ResplitTrims() returns (parts: seq<string>, again: seq<string>)
    ensures parts == ["a ", " b"] && again == ["a"]
  {
    var s := "a " + DE + " b";
    ExampleSpans(s);
    ExampleAgain();
    hide SplitSpansAt, TrimSpace;
    parts := SplitHanAtStopwords(s, [DE]);
    again := SplitHanAtStopwords("a ", [DE]);
  }

  lemma ExampleBest(t: string, i: nat)
    requires i < |t|
    ensures Best(t, [DE], i) == if t[i] == DE[0] then 1 else 0
  {
    assert BestOf(t, [DE], i, 0) == 0;
    assert t[i..i + 1] == [t[i]];
  }

  lemma ExampleSpans(s: string)
    requires s == "a " + DE + " b"
    ensures TrimSpace(s) == s && SplitSpansAt(s, [DE]) == [Span(0, 2), Span(3, 5)]
    ensures SpansFit(s, [Span(0, 2), Span(3, 5)]) && Slices(s, [Span(0, 2), Span(3, 5)]) == ["a ", " b"]
  {
    assert TrimSpace(s) == s;
    ExampleSlices(s);
    hide TrimSpace;
    ExampleParts(s);
  }

  lemma ExampleParts(s: string)
    requires s == "a " + DE + " b"
    ensures Parts(Pieces(s, [DE], 0, 0)) == [Span(0, 2), Span(3, 5)]
  {
    forall i | 0 <= i < 5 ensures Best(s, [DE], i) == if i == 2 then 1 else 0 {
      assert s[2] == DE[0];
      ExampleBest(s, i);
    }
    hide Best, Pieces, Parts;
    PiecesStep(s, [DE], 0, 0);
    PiecesStep(s, [DE], 0, 1);
    PiecesStep(s, [DE], 0, 2);
    PiecesStep(s, [DE], 3, 3);
    PiecesStep(s, [DE], 3, 4);
    LastPart(s, [DE], 3);
  }

  lemma ExampleSlices(s: string)
    requires s == "a " + DE + " b"
    ensures SpansFit(s, [Span(0, 2), Span(3, 5)]) && Slices(s, [Span(0, 2), Span(3, 5)]) == ["a ", " b"]
  {
    NoSlices(s, []);
    SlicesStep(s, [], Span(0, 2));
    SlicesStep(s, [Span(0, 2)], Span(3, 5));
    assert [] + [Span(0, 2)] == [Span(0, 2)] && [Span(0, 2)] + [Span(3, 5)] == [Span(0, 2), Span(3, 5)];
    assert s[0..2] == "a " && s[3..5] == " b";
  }

  lemma ExampleAgain()
    ensures TrimSpace("a ") == "a" && SplitSpansAt("a ", [DE]) == [Span(0, 1)]
    ensures SpansFit("a", [Span(0, 1)]) && Slices("a", [Span(0, 1)]) == ["a"]
  {
    assert TrimSpace("a ") == "a";
    WholeSlice("a");
    hide TrimSpace, Best, Pieces, Slices, Parts;
    ExampleBest("a", 0);
    PiecesStep("a", [DE], 0, 0);
    LastPart("a", [DE], 0);
  }
}
