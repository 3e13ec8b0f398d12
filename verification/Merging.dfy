/**
 `mergeSplits`: pieces of a text are merged left to right into windows of at most `size` code points;
 when a window closes, pieces are popped from its front until the rest may open the next window.

 Pieces are spans of one text, so the running total of the source is a difference of two indices.
 `Groups` is the algorithm on piece numbers, `Plan` says the same without a recursion.
 */
module Merging {
  import opened Text

  datatype Limits = Limits(size: int, overlap: int)

  /** The pieces `[a, b)` joined in one window. */
  datatype Group = Group(a: nat, b: nat)

  predicate ShouldPop(overlap: int, size: int, total: int, splitLen: int, separatorLen: int, count: int) {
    count > 0
    && (total > overlap || (total + splitLen + (if count < 2 then 0 else separatorLen) > size && total > 0))
  }

  /** Length of pieces `[a, i)` joined: the text between the first start and the last end. */
  function Total(sp: seq<Span>, a: nat, i: nat): int
    requires a <= i <= |sp|
  {
    if a == i then 0 else sp[i - 1].hi - sp[a].lo
  }

  /** Piece `i` does not fit behind the non-empty window `[a, i)`. */
  predicate Overflows(sp: seq<Span>, gap: nat, lim: Limits, a: nat, i: nat)
    requires a <= i < |sp|
  {
    a < i && Total(sp, a, i) + sp[i].Len() + gap > lim.size
  }

  /** Piece `a` is popped from the closed window `[a, i)` when piece `i` waits. */
  predicate Pops(sp: seq<Span>, gap: nat, lim: Limits, a: nat, i: nat)
    requires a <= i < |sp|
  {
    ShouldPop(lim.overlap, lim.size, Total(sp, a, i), sp[i].Len(), gap, i - a)
  }

  /** Where popping from `[a, i)` stops. */
  function PopTo(sp: seq<Span>, gap: nat, lim: Limits, a: nat, i: nat): (r: nat)
    requires a <= i < |sp|
    ensures a <= r <= i && !Pops(sp, gap, lim, r, i)
    ensures forall x :: a <= x < r ==> Pops(sp, gap, lim, x, i)
    decreases i - a
  {
    if Pops(sp, gap, lim, a, i) then PopTo(sp, gap, lim, a + 1, i) else a
  }

  /** The windows still to come when `[a, i)` is the open window and piece `i` is next. */
  function Groups(sp: seq<Span>, gap: nat, lim: Limits, a: nat, i: nat): (r: seq<Group>)
    requires a < i <= |sp|
    ensures r != [] && r[0].a == a && i <= r[0].b <= |sp|
    ensures forall k :: 0 <= k < |r| ==> r[k].a < r[k].b <= |sp|
    decreases |sp| - i
  {
    if i == |sp| then [Group(a, i)]
    else if Overflows(sp, gap, lim, a, i) then [Group(a, i)] + Groups(sp, gap, lim, PopTo(sp, gap, lim, a, i), i + 1)
    else Groups(sp, gap, lim, a, i + 1)
  }

  /** All windows of a list of pieces. */
  function AllGroups(sp: seq<Span>, gap: nat, lim: Limits): (r: seq<Group>)
    ensures forall k :: 0 <= k < |r| ==> r[k].a < r[k].b <= |sp|
  {
    if sp == [] then [] else Groups(sp, gap, lim, 0, 1)
  }

  /** The text span of a window. */
  function GroupSpan(sp: seq<Span>, g: Group): (r: Span)
    requires g.a < g.b <= |sp|
  {
    Span(sp[g.a].lo, sp[g.b - 1].hi)
  }

  predicate Blank(t: string, s: Span)
    requires Fits(t, s)
  {
    var r := TrimSpan(t, s);
    r.lo == r.hi
  }

  /** The spans of the windows that are not all white space. */
  function Kept(t: string, sp: seq<Span>, gs: seq<Group>): (r: seq<Span>)
    requires forall k :: 0 <= k < |gs| ==> gs[k].a < gs[k].b <= |sp| && Fits(t, GroupSpan(sp, gs[k]))
    ensures forall k :: 0 <= k < |r| ==> Fits(t, r[k]) && !Blank(t, r[k])
  {
    if gs == [] then []
    else
      var s := GroupSpan(sp, gs[|gs| - 1]);
      Kept(t, sp, gs[..|gs| - 1]) + if Blank(t, s) then [] else [s]
  }

  /** The trimmed texts of a list of spans. */
  function Trimmed(t: string, spans: seq<Span>): (r: seq<string>)
    requires forall k :: 0 <= k < |spans| ==> Fits(t, spans[k])
    ensures |r| == |spans|
    ensures forall k :: 0 <= k < |r| ==> r[k] == TrimSpace(Slice(t, spans[k]))
  {
    seq(|spans|, k requires 0 <= k < |spans| => TrimSpace(Slice(t, spans[k])))
  }

  lemma GroupFits(t: string, sp: seq<Span>, sep: string, g: Group)
    requires Tiles(t, sp, sep) && g.a < g.b <= |sp|
    ensures Fits(t, GroupSpan(sp, g))
  {
    ChainOrder(sp, |sep|, g.a, g.b - 1);
    assert Fits(t, sp[g.b - 1]);
  }

  /** The spans of the windows of a tiled text. */
  function MergedSpans(t: string, sp: seq<Span>, sep: string, lim: Limits): (r: seq<Span>)
    requires Tiles(t, sp, sep)
    ensures forall k :: 0 <= k < |r| ==> Fits(t, r[k]) && !Blank(t, r[k])
  {
    var gs := AllGroups(sp, |sep|, lim);
    assert forall k :: 0 <= k < |gs| ==> Fits(t, GroupSpan(sp, gs[k])) by {
      forall k | 0 <= k < |gs| ensures Fits(t, GroupSpan(sp, gs[k])) {
        GroupFits(t, sp, sep, gs[k]);
      }
    }
    Kept(t, sp, gs)
  }

  function JoinDocs(docs: seq<string>, separator: string): string {
    TrimSpace(Join(docs, separator))
  }

  /** `currentDoc` holds the pieces `[a, i)` and `total` is their joined length. */
  ghost predicate Holds(t: string, sp: seq<Span>, sep: string, currentDoc: seq<string>, total: int, a: nat, i: nat)
    requires Tiles(t, sp, sep)
  {
    a <= i <= |sp| && |currentDoc| == i - a && total == Total(sp, a, i) && ArePieces(t, sp, sep, currentDoc, a, i)
  }

  ghost predicate ArePieces(t: string, sp: seq<Span>, sep: string, parts: seq<string>, a: nat, i: nat)
    requires Tiles(t, sp, sep)
  {
    a <= i <= |sp| && parts == Slices(t, sp)[a..i]
  }

  /** Dropping the first piece takes its length off the total, and the separator's unless nothing is left. */
  lemma HoldsAfterPop(t: string, sp: seq<Span>, sep: string, currentDoc: seq<string>, total: int, a: nat, i: nat)
    requires Tiles(t, sp, sep) && Holds(t, sp, sep, currentDoc, total, a, i) && a < i
    ensures var t' := total - |currentDoc[0]| - if |currentDoc| > 1 then |sep| else 0;
      Holds(t, sp, sep, currentDoc[1..], t', a + 1, i)
  {
    assert Fits(t, sp[a]) && currentDoc[0] == Slice(t, sp[a]);
    if a + 1 < i {
      assert Next(sp, |sep|, a);
    }
  }

  /** Taking the next piece adds its length, and the separator's if it is not the first. */
  lemma HoldsAfterPush(t: string, sp: seq<Span>, sep: string, currentDoc: seq<string>, total: int, a: nat, i: nat)
    requires Tiles(t, sp, sep) && Holds(t, sp, sep, currentDoc, total, a, i) && i < |sp|
    ensures var t' := total + |Slices(t, sp)[i]| + if |currentDoc| > 0 then |sep| else 0;
      Holds(t, sp, sep, currentDoc + [Slices(t, sp)[i]], t', a, i + 1)
  {
    assert Fits(t, sp[i]);
    if a < i {
      assert Next(sp, |sep|, i - 1);
    }
  }

  /** One window: joining and trimming its pieces gives the trimmed text of its span. */
  lemma JoinDocsOfGroup(t: string, sp: seq<Span>, sep: string, currentDoc: seq<string>, total: int, a: nat, i: nat)
    requires Tiles(t, sp, sep) && a < i && Holds(t, sp, sep, currentDoc, total, a, i)
    ensures var s := GroupSpan(sp, Group(a, i));
      && Fits(t, s) && JoinDocs(currentDoc, sep) == TrimSpace(Slice(t, s))
      && (JoinDocs(currentDoc, sep) == "" <==> Blank(t, s))
  {
    JoinGroup(t, sp, sep, a, i);
    TrimSpanIsTrimSpace(t, GroupSpan(sp, Group(a, i)));
  }

  lemma JoinDocsOfNothing(sep: string)
    ensures JoinDocs([], sep) == ""
  {
  }

  lemma JoinGroup(t: string, sp: seq<Span>, sep: string, a: nat, i: nat)
    requires Tiles(t, sp, sep) && a < i <= |sp|
    ensures var s := GroupSpan(sp, Group(a, i)); Fits(t, s) && Join(Slices(t, sp)[a..i], sep) == Slice(t, s)
  {
    SubTiles(t, sp, sep, a, i);
    SliceOfSlices(t, sp, a, i);
    JoinTiles(t, sp[a..i], sep, i - a);
  }

  /** The windows `done` are closed and `docs` holds their texts. */
  ghost predicate Emitted(t: string, sp: seq<Span>, done: seq<Group>, docs: seq<string>) {
    && (forall k :: 0 <= k < |done| ==> done[k].a < done[k].b <= |sp| && Fits(t, GroupSpan(sp, done[k])))
    && docs == Trimmed(t, Kept(t, sp, done))
  }

  lemma EmittedStep(t: string, sp: seq<Span>, done: seq<Group>, docs: seq<string>, g: Group)
    requires Emitted(t, sp, done, docs) && g.a < g.b <= |sp| && Fits(t, GroupSpan(sp, g))
    ensures var s := GroupSpan(sp, g);
      && (Blank(t, s) ==> Emitted(t, sp, done + [g], docs))
      && (!Blank(t, s) ==> Emitted(t, sp, done + [g], docs + [TrimSpace(Slice(t, s))]))
  {
    KeptStep(t, sp, done, g);
    if !Blank(t, GroupSpan(sp, g)) {
      TrimmedStep(t, Kept(t, sp, done), GroupSpan(sp, g));
    }
  }

  lemma KeptStep(t: string, sp: seq<Span>, done: seq<Group>, g: Group)
    requires forall k :: 0 <= k < |done| ==> done[k].a < done[k].b <= |sp| && Fits(t, GroupSpan(sp, done[k]))
    requires g.a < g.b <= |sp| && Fits(t, GroupSpan(sp, g))
    ensures forall k :: 0 <= k < |done + [g]| ==> (done + [g])[k].a < (done + [g])[k].b <= |sp|
    ensures forall k :: 0 <= k < |done + [g]| ==> Fits(t, GroupSpan(sp, (done + [g])[k]))
    ensures var s := GroupSpan(sp, g);
      Kept(t, sp, done + [g]) == if Blank(t, s) then Kept(t, sp, done) else Kept(t, sp, done) + [s]
  {
    assert (done + [g])[..|done + [g]| - 1] == done;
  }

  lemma TrimmedStep(t: string, spans: seq<Span>, s: Span)
    requires (forall k :: 0 <= k < |spans| ==> Fits(t, spans[k])) && Fits(t, s)
    ensures Trimmed(t, spans + [s]) == Trimmed(t, spans) + [TrimSpace(Slice(t, s))]
  {
  }

  /** `done` and the windows still to come from `(a, i)` are all the windows. */
  ghost predicate OnTrack(sp: seq<Span>, gap: nat, lim: Limits, done: seq<Group>, a: nat, i: nat) {
    && a <= i <= |sp| && (a == i <==> i == 0)
    && AllGroups(sp, gap, lim) == if i == 0 then done + AllGroups(sp, gap, lim) else done + Groups(sp, gap, lim, a, i)
  }

  lemma OnTrackStep(sp: seq<Span>, gap: nat, lim: Limits, done: seq<Group>, a: nat, i: nat)
    requires OnTrack(sp, gap, lim, done, a, i) && i < |sp|
    ensures !Overflows(sp, gap, lim, a, i) ==> OnTrack(sp, gap, lim, done, a, i + 1)
    ensures Overflows(sp, gap, lim, a, i) ==> OnTrack(sp, gap, lim, done + [Group(a, i)], PopTo(sp, gap, lim, a, i), i + 1)
  {
    if Overflows(sp, gap, lim, a, i) {
      var rest := Groups(sp, gap, lim, PopTo(sp, gap, lim, a, i), i + 1);
      assert done + ([Group(a, i)] + rest) == (done + [Group(a, i)]) + rest;
    } else if i == 0 {
      assert |done + AllGroups(sp, gap, lim)| == |AllGroups(sp, gap, lim)|;
      assert done == [];
    }
  }

  lemma Start(t: string, sp: seq<Span>, sep: string, lim: Limits)
    requires Tiles(t, sp, sep)
    ensures Holds(t, sp, sep, [], 0, 0, 0) && Emitted(t, sp, [], []) && OnTrack(sp, |sep|, lim, [], 0, 0)
  {
  }

  lemma Finish(t: string, sp: seq<Span>, sep: string, lim: Limits, docs: seq<string>)
    requires Tiles(t, sp, sep) && Emitted(t, sp, AllGroups(sp, |sep|, lim), docs)
    ensures docs == Trimmed(t, MergedSpans(t, sp, sep, lim))
  {
  }

  /** The test of the outer loop, in terms of the window. */
  lemma HoldsMeans(t: string, sp: seq<Span>, sep: string, lim: Limits, currentDoc: seq<string>, total: int, a: nat, i: nat)
    requires Tiles(t, sp, sep) && Holds(t, sp, sep, currentDoc, total, a, i) && i < |sp|
    ensures a <= i && |currentDoc| == i - a
    ensures Overflows(sp, |sep|, lim, a, i) <==> |currentDoc| > 0 && total + sp[i].Len() + |sep| > lim.size
  {
  }

  lemma PieceLength(t: string, sp: seq<Span>, sep: string, i: nat)
    requires Tiles(t, sp, sep) && i < |sp|
    ensures |Slices(t, sp)[i]| == sp[i].Len()
  {
    assert Fits(t, sp[i]);
  }

  lemma OnTrackEnds(sp: seq<Span>, gap: nat, lim: Limits, done: seq<Group>, a: nat)
    requires OnTrack(sp, gap, lim, done, a, |sp|)
    ensures if sp == [] then AllGroups(sp, gap, lim) == done == [] else a < |sp| && AllGroups(sp, gap, lim) == done + [Group(a, |sp|)]
  {
    assert sp == [] ==> |done + AllGroups(sp, gap, lim)| == |AllGroups(sp, gap, lim)|;
  }

  lemma NothingHeld(t: string, sp: seq<Span>, sep: string, currentDoc: seq<string>, total: int, a: nat, i: nat)
    requires Tiles(t, sp, sep) && Holds(t, sp, sep, currentDoc, total, a, i) && i == 0
    ensures currentDoc == []
  {
  }

  /** The inner loop of the source: pops pieces until the rest may open the next window. */
  method PopPieces(currentDoc: seq<string>, total: int, splitLen: nat, separator: string, chunkSize: int, chunkOverlap: int,
                   ghost t: string, ghost sp: seq<Span>, ghost a: nat, ghost i: nat)
    returns (rest: seq<string>, restTotal: int)
    requires Tiles(t, sp, separator) && i < |sp| && sp[i].Len() == splitLen
    requires Holds(t, sp, separator, currentDoc, total, a, i)
    ensures Holds(t, sp, separator, rest, restTotal, PopTo(sp, |separator|, Limits(chunkSize, chunkOverlap), a, i), i)
  {
    rest, restTotal := currentDoc, total;
    ghost var x, lim := a, Limits(chunkSize, chunkOverlap);
    while ShouldPop(chunkOverlap, chunkSize, restTotal, splitLen, |separator|, |rest|)
      invariant Holds(t, sp, separator, rest, restTotal, x, i)
      invariant PopTo(sp, |separator|, lim, x, i) == PopTo(sp, |separator|, lim, a, i)
      decreases |rest|
    {
      HoldsAfterPop(t, sp, separator, rest, restTotal, x, i);
      restTotal := restTotal - |rest[0]|;
      if |rest| > 1 {
        restTotal := restTotal - |separator|;
      }
      rest := rest[1..];
      x := x + 1;
    }
  }

  /** The outer loop of the source; `t` and `sp` say which stretch of which text the pieces `splits` are. */
  method MergeSplits(splits: seq<string>, separator: string, chunkSize: int, chunkOverlap: int, ghost t: string, ghost sp: seq<Span>)
    returns (docs: seq<string>)
    requires Tiles(t, sp, separator) && splits == Slices(t, sp)
    ensures docs == Trimmed(t, MergedSpans(t, sp, separator, Limits(chunkSize, chunkOverlap)))
  {
    hide ArePieces, Emitted, JoinDocs, Blank, TrimSpace, Holds, OnTrack, Overflows, AllGroups, Groups, PopTo, Tiles, Chain, Trimmed;
    hide Kept, Pops, ShouldPop, Slices, Slice, MergedSpans;
    docs := [];
    var currentDoc: seq<string> := [];
    var total := 0;
    ghost var gap, lim := |separator|, Limits(chunkSize, chunkOverlap);
    ghost var a := 0;
    ghost var done: seq<Group> := [];
    Start(t, sp, separator, lim);
    for i := 0 to |splits|
      invariant Holds(t, sp, separator, currentDoc, total, a, i)
      invariant Emitted(t, sp, done, docs)
      invariant OnTrack(sp, gap, lim, done, a, i)
    {
      var split := splits[i];
      PieceLength(t, sp, separator, i);
      HoldsMeans(t, sp, separator, lim, currentDoc, total, a, i);
      OnTrackStep(sp, gap, lim, done, a, i);
      var totalWithSplit := total + |split|;
      if |currentDoc| != 0 {
        totalWithSplit := totalWithSplit + |separator|;
      }
      if totalWithSplit > chunkSize && |currentDoc| > 0 {
        JoinDocsOfGroup(t, sp, separator, currentDoc, total, a, i);
        EmittedStep(t, sp, done, docs, Group(a, i));
        var doc := JoinDocs(currentDoc, separator);
        if doc != "" {
          docs := docs + [doc];
        }
        currentDoc, total := PopPieces(currentDoc, total, |split|, separator, chunkSize, chunkOverlap, t, sp, a, i);
        a, done := PopTo(sp, gap, lim, a, i), done + [Group(a, i)];
      }
      HoldsAfterPush(t, sp, separator, currentDoc, total, a, i);
      currentDoc := currentDoc + [split];
      total := total + |split|;
      if |currentDoc| > 1 {
        total := total + |separator|;
      }
    }
    OnTrackEnds(sp, gap, lim, done, a);
    if |splits| > 0 {
      JoinDocsOfGroup(t, sp, separator, currentDoc, total, a, |splits|);
      EmittedStep(t, sp, done, docs, Group(a, |splits|));
      done := done + [Group(a, |splits|)];
    } else {
      NothingHeld(t, sp, separator, currentDoc, total, a, 0);
      JoinDocsOfNothing(separator);
    }
    var doc := JoinDocs(currentDoc, separator);
    if doc != "" {
      docs := docs + [doc];
    }
    Finish(t, sp, separator, lim, docs);
  }
}
