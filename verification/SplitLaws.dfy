/**
 What the recursive splitter promises about its chunks, over every text and every separator list:
 order and overlap, length, and that no visible code point is lost.
 */
module SplitLaws {
  import opened Text
  import opened Merging
  import opened MergeLaws
  import opened RecursiveSplit

  /** Chunks inside `[lo, hi)`, none empty, in order; starts strictly increase when pieces keep separators. */
  ghost predicate Ordered(cuts: seq<Cut>, lo: nat, hi: nat, cfg: Config) {
    && (forall k :: 0 <= k < |cuts| ==> lo <= cuts[k].span.lo < cuts[k].span.hi <= hi)
    && forall k, l :: 0 <= k < l < |cuts| ==> InOrder(cuts[k].span, cuts[l].span, cfg.overlap, cfg.keep)
  }

  lemma OrderedConcat(a: seq<Cut>, b: seq<Cut>, lo: nat, mid: nat, hi: nat, cfg: Config)
    requires 0 <= cfg.overlap && lo <= mid <= hi && Ordered(a, lo, mid, cfg) && Ordered(b, mid, hi, cfg)
    ensures Ordered(a + b, lo, hi, cfg)
  {
    var c := a + b;
    forall k, l | 0 <= k < l < |c| ensures InOrder(c[k].span, c[l].span, cfg.overlap, cfg.keep) {
      if l < |a| {
        assert InOrder(a[k].span, a[l].span, cfg.overlap, cfg.keep);
      } else if k >= |a| {
        assert InOrder(b[k - |a|].span, b[l - |a|].span, cfg.overlap, cfg.keep);
      }
    }
  }

  lemma OrderedShift(cuts: seq<Cut>, s: Span, cfg: Config)
    requires s.lo <= s.hi && Ordered(cuts, 0, s.Len(), cfg)
    ensures Ordered(Shift(cuts, s.lo), s.lo, s.hi, cfg)
  {
    var c := Shift(cuts, s.lo);
    forall k, l | 0 <= k < l < |c| ensures InOrder(c[k].span, c[l].span, cfg.overlap, cfg.keep) {
      assert InOrder(cuts[k].span, cuts[l].span, cfg.overlap, cfg.keep);
    }
  }

  ghost predicate GroupsFit(t: string, sp: seq<Span>, gs: seq<Group>) {
    forall k :: 0 <= k < |gs| ==> gs[k].a < gs[k].b <= |sp| && Fits(t, GroupSpan(sp, gs[k]))
  }

  /** Every kept span is the span of a window. */
  lemma {:induction false} KeptOrigin(t: string, sp: seq<Span>, gs: seq<Group>, j: nat) returns (k: nat)
    requires GroupsFit(t, sp, gs) && j < |Kept(t, sp, gs)|
    ensures k < |gs| && Kept(t, sp, gs)[j] == GroupSpan(sp, gs[k])
    decreases |gs|
  {
    hide Blank;
    var m := |gs| - 1;
    assert gs[..m] <= gs && GroupsFit(t, sp, gs[..m]);
    if j < |Kept(t, sp, gs[..m])| {
      k := KeptOrigin(t, sp, gs[..m], j);
    } else {
      k := m;
    }
  }

  /** Every window that is not blank is kept. */
  lemma {:induction false} KeptHas(t: string, sp: seq<Span>, gs: seq<Group>, k: nat) returns (j: nat)
    requires GroupsFit(t, sp, gs) && k < |gs| && !Blank(t, GroupSpan(sp, gs[k]))
    ensures j < |Kept(t, sp, gs)| && Kept(t, sp, gs)[j] == GroupSpan(sp, gs[k])
    decreases |gs|
  {
    hide Blank;
    var m := |gs| - 1;
    assert gs[..m] <= gs && GroupsFit(t, sp, gs[..m]);
    if k < m {
      j := KeptHas(t, sp, gs[..m], k);
    } else {
      j := |Kept(t, sp, gs[..m])|;
    }
  }

  /** Two kept spans are the spans of two windows in the same order. */
  lemma {:induction false} KeptOrigins(t: string, sp: seq<Span>, gs: seq<Group>, i: nat, j: nat) returns (k: nat, l: nat)
    requires GroupsFit(t, sp, gs) && i < j < |Kept(t, sp, gs)|
    ensures k < l < |gs| && Kept(t, sp, gs)[i] == GroupSpan(sp, gs[k]) && Kept(t, sp, gs)[j] == GroupSpan(sp, gs[l])
    decreases |gs|
  {
    hide Blank;
    var m := |gs| - 1;
    assert gs[..m] <= gs && GroupsFit(t, sp, gs[..m]);
    if j < |Kept(t, sp, gs[..m])| {
      k, l := KeptOrigins(t, sp, gs[..m], i, j);
    } else {
      k := KeptOrigin(t, sp, gs[..m], i);
      l := m;
    }
  }

  lemma NonBlankNonEmpty(t: string, s: Span)
    requires Fits(t, s) && !Blank(t, s)
    ensures s.lo < s.hi
  {
  }

  /** Dropping blank windows keeps the others in order. */
  lemma KeptOrdered(t: string, sp: seq<Span>, gs: seq<Group>, lo: nat, hi: nat, cfg: Config)
    requires GroupsFit(t, sp, gs)
    requires forall k :: 0 <= k < |gs| ==> lo <= GroupSpan(sp, gs[k]).lo && GroupSpan(sp, gs[k]).hi <= hi
    requires forall k, l :: 0 <= k < l < |gs| ==> InOrder(GroupSpan(sp, gs[k]), GroupSpan(sp, gs[l]), cfg.overlap, cfg.keep)
    ensures Ordered(Merged(Kept(t, sp, gs)), lo, hi, cfg)
  {
    hide Kept, Merged, InOrder, Blank;
    var kept := Kept(t, sp, gs);
    forall k | 0 <= k < |kept| ensures lo <= kept[k].lo < kept[k].hi <= hi {
      var x := KeptOrigin(t, sp, gs, k);
      assert lo <= GroupSpan(sp, gs[x]).lo;
      NonBlankNonEmpty(t, kept[k]);
    }
    forall k, l | 0 <= k < l < |kept| ensures InOrder(kept[k], kept[l], cfg.overlap, cfg.keep) {
      var x, y := KeptOrigins(t, sp, gs, k, l);
    }
  }

  /** Pieces `[g, i)` are short. */
  ghost predicate Short(sp: seq<Span>, cfg: Config, g: nat, i: nat)
    requires g <= i <= |sp|
  {
    forall x :: g <= x < i ==> sp[x].Len() < cfg.size
  }

  ghost predicate Sane(cfg: Config) {
    0 <= cfg.overlap < cfg.size
  }

  /** The windows of the pieces `[g, i)` and what they are made of. */
  lemma SubPieces(t: string, sp: seq<Span>, glue: string, cfg: Config, g: nat, i: nat)
    requires Tiles(t, sp, glue) && g < i <= |sp| && Short(sp, cfg, g, i)
    ensures var sub := sp[g..i];
      Tiles(t, sub, glue) && Small(sub, |glue|, cfg.Lim()) && sub[0] == sp[g] && sub[|sub| - 1] == sp[i - 1]
    ensures GroupsFit(t, sp[g..i], Groups(sp[g..i], |glue|, cfg.Lim(), 0, 1))
    ensures MergeCuts(t, sp, glue, cfg, g, i) == Merged(Kept(t, sp[g..i], Groups(sp[g..i], |glue|, cfg.Lim(), 0, 1)))
  {
    SubTiles(t, sp, glue, g, i);
    var sub := sp[g..i];
    var gs := Groups(sub, |glue|, cfg.Lim(), 0, 1);
    forall k | 0 <= k < |gs| ensures gs[k].a < gs[k].b <= |sub| && Fits(t, GroupSpan(sub, gs[k])) {
      GroupFits(t, sub, glue, gs[k]);
    }
  }

  /** The windows over a chain of short pieces lie inside it and are in order. */
  lemma WindowsOrdered(t: string, sp: seq<Span>, glue: string, lim: Limits, gs: seq<Group>, cfg: Config)
    requires Tiles(t, sp, glue) && sp != [] && Small(sp, |glue|, lim) && (cfg.keep ==> glue == "") && Sane(cfg)
    requires lim == cfg.Lim() && gs == Groups(sp, |glue|, lim, 0, 1) && GroupsFit(t, sp, gs)
    ensures forall k :: 0 <= k < |gs| ==> sp[0].lo <= GroupSpan(sp, gs[k]).lo && GroupSpan(sp, gs[k]).hi <= sp[|sp| - 1].hi
    ensures forall k, l :: 0 <= k < l < |gs| ==> InOrder(GroupSpan(sp, gs[k]), GroupSpan(sp, gs[l]), cfg.overlap, cfg.keep)
  {
    hide Groups, Chain, Small;
    forall k | 0 <= k < |gs| ensures sp[0].lo <= GroupSpan(sp, gs[k]).lo && GroupSpan(sp, gs[k]).hi <= sp[|sp| - 1].hi {
      GroupsWithin(sp, |glue|, lim, 0, 1, k);
    }
    forall k, l | 0 <= k < l < |gs| ensures InOrder(GroupSpan(sp, gs[k]), GroupSpan(sp, gs[l]), cfg.overlap, cfg.keep) {
      GroupsInOrder(sp, |glue|, lim, 0, 1, k, l);
    }
  }

  lemma MergeCutsOrdered(t: string, sp: seq<Span>, glue: string, cfg: Config, g: nat, i: nat)
    requires Tiles(t, sp, glue) && g < i <= |sp| && Short(sp, cfg, g, i) && Sane(cfg) && (cfg.keep ==> glue == "")
    ensures Ordered(MergeCuts(t, sp, glue, cfg, g, i), sp[g].lo, sp[i - 1].hi, cfg)
  {
    hide Groups, Kept, Merged, MergeCuts, Chain, Small, InOrder, AllFit, Ordered, Blank;
    SubPieces(t, sp, glue, cfg, g, i);
    var sub, gap, lim := sp[g..i], |glue|, cfg.Lim();
    var gs := Groups(sub, gap, lim, 0, 1);
    WindowsOrdered(t, sub, glue, lim, gs, cfg);
    KeptOrdered(t, sub, gs, sp[g].lo, sp[i - 1].hi, cfg);
  }

  /** Where piece `g` starts, or the end of the text behind the last piece. */
  function StartOf(t: string, sp: seq<Span>, g: nat): nat
    requires g <= |sp|
  {
    if g < |sp| then sp[g].lo else |t|
  }

  lemma {:induction false} WalkOrdered(t: string, sp: seq<Span>, glue: string, rest: seq<string>, cfg: Config, g: nat, i: nat)
    requires Tiles(t, sp, glue) && g <= i <= |sp| && Short(sp, cfg, g, i) && Sane(cfg) && (cfg.keep ==> glue == "")
    ensures Ordered(Walk(t, sp, glue, rest, cfg, g, i), StartOf(t, sp, g), |t|, cfg)
    decreases |rest|, 2, |sp| - i
  {
    hide MergeCuts, LongCuts, Ordered, Tiles, Chain, AllFit, InOrder;
    PieceBounds(t, sp, glue, g, i);
    if i == |sp| {
      PendingOrdered(t, sp, glue, cfg, g, i);
    } else if sp[i].Len() < cfg.size {
      WalkOrdered(t, sp, glue, rest, cfg, g, i + 1);
    } else {
      LongCutsOrdered(t, sp[i], rest, cfg);
      WalkOrdered(t, sp, glue, rest, cfg, i + 1, i + 1);
      WalkLongOrdered(t, sp, glue, rest, cfg, g, i);
    }
  }

  lemma WalkLongOrdered(t: string, sp: seq<Span>, glue: string, rest: seq<string>, cfg: Config, g: nat, i: nat)
    requires Tiles(t, sp, glue) && g <= i < |sp| && Short(sp, cfg, g, i) && Sane(cfg) && (cfg.keep ==> glue == "")
    requires sp[i].Len() >= cfg.size && Fits(t, sp[i])
    requires Ordered(LongCuts(t, sp[i], rest, cfg), sp[i].lo, sp[i].hi, cfg)
    requires Ordered(Walk(t, sp, glue, rest, cfg, i + 1, i + 1), StartOf(t, sp, i + 1), |t|, cfg)
    ensures Ordered(Walk(t, sp, glue, rest, cfg, g, i), StartOf(t, sp, g), |t|, cfg)
  {
    hide MergeCuts, LongCuts, Ordered, Tiles, Chain, AllFit, InOrder;
    var m, l, w := MergeCuts(t, sp, glue, cfg, g, i), LongCuts(t, sp[i], rest, cfg), Walk(t, sp, glue, rest, cfg, i + 1, i + 1);
    PendingOrdered(t, sp, glue, cfg, g, i);
    PieceBounds(t, sp, glue, g, i);
    OrderedRaise(w, sp[i].hi, StartOf(t, sp, i + 1), |t|, cfg);
    OrderedThree(m, l, w, sp[g].lo, sp[i].lo, sp[i].hi, |t|, cfg);
  }

  lemma OrderedThree(m: seq<Cut>, l: seq<Cut>, w: seq<Cut>, a: nat, b: nat, c: nat, d: nat, cfg: Config)
    requires Ordered(m, a, b, cfg) && Ordered(l, b, c, cfg) && Ordered(w, c, d, cfg) && a <= b <= c <= d && Sane(cfg)
    ensures Ordered(m + l + w, a, d, cfg)
  {
    hide Ordered;
    OrderedConcat(m, l, a, b, c, cfg);
    OrderedConcat(m + l, w, a, c, d, cfg);
  }

  /** Where pieces `g`, `i - 1`, `i` and `i + 1` lie. */
  lemma PieceBounds(t: string, sp: seq<Span>, glue: string, g: nat, i: nat)
    requires Tiles(t, sp, glue) && g <= i <= |sp|
    ensures g < i ==> sp[g].lo <= sp[i - 1].hi <= |t|
    ensures i < |sp| ==> Fits(t, sp[i]) && sp[g].lo <= sp[i].lo
    ensures g < i < |sp| ==> sp[i - 1].hi <= sp[i].lo
    ensures i + 1 < |sp| ==> Fits(t, sp[i + 1]) && sp[i].hi <= sp[i + 1].lo
  {
    if g < i {
      ChainOrder(sp, |glue|, g, i - 1);
      assert Fits(t, sp[i - 1]);
    }
    if i < |sp| {
      ChainOrder(sp, |glue|, g, i);
      assert Fits(t, sp[i]);
      if g < i {
        ChainOrder(sp, |glue|, i - 1, i);
      }
    }
    if i + 1 < |sp| {
      ChainOrder(sp, |glue|, i, i + 1);
      assert Fits(t, sp[i + 1]);
    }
  }

  lemma PendingOrdered(t: string, sp: seq<Span>, glue: string, cfg: Config, g: nat, i: nat)
    requires Tiles(t, sp, glue) && g <= i <= |sp| && Short(sp, cfg, g, i) && Sane(cfg) && (cfg.keep ==> glue == "")
    ensures Ordered(MergeCuts(t, sp, glue, cfg, g, i), StartOf(t, sp, g), StartOf(t, sp, i), cfg)
  {
    if g < i {
      MergeCutsOrdered(t, sp, glue, cfg, g, i);
      hide MergeCuts, Ordered, Tiles, Chain, AllFit, InOrder;
      PieceBounds(t, sp, glue, g, i);
      OrderedWiden(MergeCuts(t, sp, glue, cfg, g, i), sp[g].lo, sp[i - 1].hi, StartOf(t, sp, i), cfg);
    } else {
      NothingToMerge(t, sp, glue, cfg, g);
    }
  }

  lemma NothingToMerge(t: string, sp: seq<Span>, glue: string, cfg: Config, g: nat)
    requires Tiles(t, sp, glue) && g <= |sp|
    ensures MergeCuts(t, sp, glue, cfg, g, g) == []
  {
    assert sp[g..g] == [];
  }

  lemma OrderedWiden(cuts: seq<Cut>, lo: nat, hi: nat, hi': nat, cfg: Config)
    requires Ordered(cuts, lo, hi, cfg) && hi <= hi'
    ensures Ordered(cuts, lo, hi', cfg)
  {
  }

  lemma OrderedRaise(cuts: seq<Cut>, lo: nat, lo': nat, hi: nat, cfg: Config)
    requires Ordered(cuts, lo', hi, cfg) && lo <= lo'
    ensures Ordered(cuts, lo, hi, cfg)
  {
  }

  lemma {:induction false} LongCutsOrdered(t: string, s: Span, rest: seq<string>, cfg: Config)
    requires Fits(t, s) && s.Len() >= cfg.size && Sane(cfg)
    ensures Ordered(LongCuts(t, s, rest, cfg), s.lo, s.hi, cfg)
    decreases |rest|, 1, 0
  {
    if rest != [] {
      CutsOrdered(Slice(t, s), rest, cfg);
      OrderedShift(Cuts(Slice(t, s), rest, cfg), s, cfg);
    }
  }

  /** Across all recursion levels: chunks are non-empty spans of the text, in order. */
  lemma {:induction false} CutsOrdered(t: string, seps: seq<string>, cfg: Config)
    requires seps != [] && Sane(cfg)
    ensures Ordered(Cuts(t, seps, cfg), 0, |t|, cfg)
    decreases |seps|, 0, 0
  {
    hide Walk, Ordered;
    var sep := Separator(t, seps);
    PiecesTile(t, sep, cfg.keep);
    var sp := PieceSpans(t, sep, cfg.keep);
    WalkOrdered(t, sp, Glue(sep, cfg.keep), Remaining(t, seps), cfg, 0, 0);
  }

  // ---------------------------------------------------------------- length

  ghost predicate NoLonger(cuts: seq<Cut>, n: int) {
    forall k :: 0 <= k < |cuts| ==> cuts[k].span.Len() <= n
  }

  /** What a chunk may exceed `size` by: nothing if pieces keep their separators, else one separator. */
  function Slack(cfg: Config, m: nat): nat {
    if cfg.keep then 0 else m
  }

  /** `m` bounds the length of every separator. */
  ghost predicate Bounds(seps: seq<string>, m: nat) {
    forall j :: 0 <= j < |seps| ==> |seps[j]| <= m
  }

  lemma MergeCutsSize(t: string, sp: seq<Span>, glue: string, cfg: Config, g: nat, i: nat)
    requires Tiles(t, sp, glue) && g < i <= |sp| && Short(sp, cfg, g, i)
    ensures NoLonger(MergeCuts(t, sp, glue, cfg, g, i), cfg.size + |glue|)
  {
    SubPieces(t, sp, glue, cfg, g, i);
    var sub, gap, lim := sp[g..i], |glue|, cfg.Lim();
    var gs := Groups(sub, gap, lim, 0, 1);
    var kept := Kept(t, sub, gs);
    assert sub[0].Len() < cfg.size;
    hide Groups, Kept, Tiles, Chain, Small;
    forall k | 0 <= k < |kept| ensures kept[k].Len() <= cfg.size + gap {
      var x := KeptOrigin(t, sub, gs, k);
      GroupsWithinSize(sub, gap, lim, 0, 1, x);
    }
  }

  /** Every piece the walk meets is a single code point, or there is still the separator "" to come. */
  ghost predicate Divisible(sp: seq<Span>, rest: seq<string>) {
    "" in rest || forall i :: 0 <= i < |sp| ==> sp[i].Len() <= 1
  }

  lemma {:induction false} WalkSize(t: string, sp: seq<Span>, glue: string, rest: seq<string>, cfg: Config, m: nat, g: nat, i: nat)
    requires Tiles(t, sp, glue) && g <= i <= |sp| && Short(sp, cfg, g, i) && Sane(cfg)
    requires |glue| <= Slack(cfg, m) && Bounds(rest, m) && Divisible(sp, rest)
    ensures NoLonger(Walk(t, sp, glue, rest, cfg, g, i), cfg.size + Slack(cfg, m))
    decreases |rest|, 2, |sp| - i
  {
    hide MergeCuts, LongCuts, Tiles, Chain, Slack;
    if g < i {
      MergeCutsSize(t, sp, glue, cfg, g, i);
    } else {
      NothingToMerge(t, sp, glue, cfg, g);
    }
    if i < |sp| {
      if sp[i].Len() < cfg.size {
        WalkSize(t, sp, glue, rest, cfg, m, g, i + 1);
      } else {
        PieceBounds(t, sp, glue, i, i);
        LongCutsSize(t, sp[i], rest, cfg, m);
        WalkSize(t, sp, glue, rest, cfg, m, i + 1, i + 1);
      }
    }
  }

  lemma {:induction false} LongCutsSize(t: string, s: Span, rest: seq<string>, cfg: Config, m: nat)
    requires Fits(t, s) && Sane(cfg) && Bounds(rest, m) && ("" in rest || s.Len() <= 1)
    ensures NoLonger(LongCuts(t, s, rest, cfg), cfg.size + Slack(cfg, m))
    decreases |rest|, 1, 0
  {
    if rest != [] {
      hide Cuts, NoLonger, Ordered, Bounds, AllFit;
      var cuts := Cuts(Slice(t, s), rest, cfg);
      if "" in rest {
        CutsSize(Slice(t, s), rest, cfg, m);
      } else {
        CutsOrdered(Slice(t, s), rest, cfg);
        OrderedWithin(cuts, s.Len(), cfg, cfg.size + Slack(cfg, m));
      }
      ShiftKeepsLengths(cuts, s.lo, cfg.size + Slack(cfg, m));
    }
  }

  lemma OrderedWithin(cuts: seq<Cut>, len: nat, cfg: Config, n: nat)
    requires Ordered(cuts, 0, len, cfg) && len <= n
    ensures NoLonger(cuts, n)
  {
  }

  lemma ShiftKeepsLengths(cuts: seq<Cut>, off: nat, n: nat)
    requires NoLonger(cuts, n)
    ensures NoLonger(Shift(cuts, off), n)
  {
  }

  /** What is left after choosing a separator still bounds and divides. */
  lemma RestIsSane(t: string, seps: seq<string>, cfg: Config, m: nat)
    requires "" in seps && Bounds(seps, m)
    ensures Bounds(Remaining(t, seps), m) && |Glue(Separator(t, seps), cfg.keep)| <= Slack(cfg, m)
    ensures Divisible(PieceSpans(t, Separator(t, seps), cfg.keep), Remaining(t, seps))
  {
    var j :| 0 <= j < |seps| && seps[j] == "";
    var k := ChosenAt(t, seps);
    assert k <= j;
    if seps[k] != "" {
      assert seps[k + 1..][j - k - 1] == "";
    }
  }

  /** With "" among the separators no chunk is longer than `size`, plus one separator if these are not kept. */
  lemma {:induction false} CutsSize(t: string, seps: seq<string>, cfg: Config, m: nat)
    requires "" in seps && Sane(cfg) && Bounds(seps, m)
    ensures NoLonger(Cuts(t, seps, cfg), cfg.size + Slack(cfg, m))
    decreases |seps|, 0, 0
  {
    hide Walk, NoLonger, Bounds, Divisible, Remaining, Separator, Slack;
    var sep := Separator(t, seps);
    PiecesTile(t, sep, cfg.keep);
    var sp := PieceSpans(t, sep, cfg.keep);
    RestIsSane(t, seps, cfg, m);
    WalkSize(t, sp, Glue(sep, cfg.keep), Remaining(t, seps), cfg, m, 0, 0);
  }

  // ---------------------------------------------------------------- coverage

  ghost predicate Covered(cuts: seq<Cut>, p: int) {
    exists k :: 0 <= k < |cuts| && cuts[k].span.lo <= p < cuts[k].span.hi
  }

  /** Position `p` lies in an occurrence of the non-empty string `sep`. */
  ghost predicate InsideOf(t: string, sep: string, p: int) {
    exists q :: OccursAt(t, sep, q) && q <= p < q + |sep|
  }

  /** Position `p` lies in an occurrence of some separator. */
  ghost predicate InSeparator(t: string, seps: seq<string>, p: int) {
    exists j :: 0 <= j < |seps| && InsideOf(t, seps[j], p)
  }

  lemma CoveredConcat(a: seq<Cut>, b: seq<Cut>, p: int)
    requires Covered(a, p) || Covered(b, p)
    ensures Covered(a + b, p)
  {
    if Covered(a, p) {
      var k :| 0 <= k < |a| && a[k].span.lo <= p < a[k].span.hi;
      assert (a + b)[k] == a[k];
    } else {
      var k :| 0 <= k < |b| && b[k].span.lo <= p < b[k].span.hi;
      assert (a + b)[|a| + k] == b[k];
    }
  }

  lemma GapIsSeparator(t: string, sp: seq<Span>, glue: string, p: int)
    requires Tiles(t, sp, glue) && InGap(sp, |glue|, p)
    ensures InsideOf(t, glue, p)
  {
    var x :| 0 <= x < |sp| - 1 && sp[x].hi <= p < sp[x].hi + |glue|;
    assert OccursAt(t, glue, sp[x].hi);
  }

  /** A span that holds a visible code point is not blank. */
  lemma VisibleNotBlank(t: string, s: Span, p: nat)
    requires Fits(t, s) && s.lo <= p < s.hi && !IsSpace(t[p])
    ensures !Blank(t, s)
  {
    TrimSpanEnds(t, s);
  }

  lemma MergedCovers(t: string, sp: seq<Span>, gs: seq<Group>, k: nat, p: nat)
    requires GroupsFit(t, sp, gs) && k < |gs|
    requires var s := GroupSpan(sp, gs[k]); s.lo <= p < s.hi <= |t| && !IsSpace(t[p])
    ensures Covered(Merged(Kept(t, sp, gs)), p)
  {
    hide Kept, Merged, Blank, IsSpace;
    VisibleNotBlank(t, GroupSpan(sp, gs[k]), p);
    var j := KeptHas(t, sp, gs, k);
    assert Merged(Kept(t, sp, gs))[j].span == GroupSpan(sp, gs[k]);
  }

  lemma MergeCutsCover(t: string, sp: seq<Span>, glue: string, cfg: Config, g: nat, i: nat, p: nat)
    requires Tiles(t, sp, glue) && g < i <= |sp| && Short(sp, cfg, g, i)
    requires sp[g].lo <= p < sp[i - 1].hi <= |t| && !IsSpace(t[p])
    ensures Covered(MergeCuts(t, sp, glue, cfg, g, i), p) || InsideOf(t, glue, p)
  {
    hide Groups, Kept, Chain, Small, IsSpace, Blank, InGap, InsideOf, MergeCuts, Merged, Covered, AllFit;
    SubPieces(t, sp, glue, cfg, g, i);
    var sub, gap, lim := sp[g..i], |glue|, cfg.Lim();
    var gs := Groups(sub, gap, lim, 0, 1);
    var k := GroupsCover(sub, gap, lim, 0, 1, p);
    var s := GroupSpan(sub, gs[k]);
    if s.lo <= p < s.hi {
      MergedCovers(t, sub, gs, k, p);
    } else {
      GapIsSeparator(t, sub, glue, p);
    }
  }

  /** Position `p` is in a chunk, or is part of a separator that was cut out (never when separators are kept). */
  ghost predicate Found(t: string, cuts: seq<Cut>, glue: string, rest: seq<string>, cfg: Config, p: int) {
    Covered(cuts, p) || InsideOf(t, glue, p) || (!cfg.keep && InSeparator(t, rest, p))
  }

  lemma {:induction false} WalkCover(t: string, sp: seq<Span>, glue: string, rest: seq<string>, cfg: Config, g: nat, i: nat, p: nat)
    requires Tiles(t, sp, glue) && g <= i <= |sp| && Short(sp, cfg, g, i)
    requires g < |sp| && sp[|sp| - 1].hi == |t| && sp[g].lo <= p < |t| && !IsSpace(t[p])
    ensures Found(t, Walk(t, sp, glue, rest, cfg, g, i), glue, rest, cfg, p)
    decreases |rest|, 2, |sp| - i, 1
  {
    hide MergeCuts, LongCuts, Covered, InsideOf, InSeparator, IsSpace, Chain, Tiles;
    PieceBounds(t, sp, glue, g, i);
    if g < i && p < sp[i - 1].hi {
      MergeCutsCover(t, sp, glue, cfg, g, i, p);
    }
    if i < |sp| {
      if sp[i].Len() < cfg.size {
        WalkCover(t, sp, glue, rest, cfg, g, i + 1, p);
      } else {
        WalkLongCovers(t, sp, glue, rest, cfg, g, i, p);
      }
    }
  }

  /** A long piece: `p` is among the pending pieces, between two pieces, in the long one, or behind it. */
  lemma {:induction false} WalkLongCovers(t: string, sp: seq<Span>, glue: string, rest: seq<string>, cfg: Config, g: nat, i: nat,
                                          p: nat)
    requires Tiles(t, sp, glue) && g <= i < |sp| && sp[i].Len() >= cfg.size
    requires sp[|sp| - 1].hi == |t| && sp[g].lo <= p < |t| && !IsSpace(t[p])
    requires g < i && p < sp[i - 1].hi ==> Covered(MergeCuts(t, sp, glue, cfg, g, i), p) || InsideOf(t, glue, p)
    ensures Found(t, Walk(t, sp, glue, rest, cfg, g, i), glue, rest, cfg, p)
    decreases |rest|, 2, |sp| - i, 0
  {
    hide MergeCuts, LongCuts, Covered, InsideOf, InSeparator, IsSpace, Chain, Tiles;
    PieceBounds(t, sp, glue, g, i);
    PieceBounds(t, sp, glue, i, i + 1);
    var m, l, w := MergeCuts(t, sp, glue, cfg, g, i), LongCuts(t, sp[i], rest, cfg), Walk(t, sp, glue, rest, cfg, i + 1, i + 1);
    assert Walk(t, sp, glue, rest, cfg, g, i) == m + l + w;
    hide Walk;
    if g < i && p < sp[i].lo {
      if sp[i - 1].hi <= p {
        BetweenPieces(t, sp, glue, i - 1, p);
      }
    } else if p < sp[i].hi {
      LongCutsCover(t, sp[i], rest, cfg, p);
    } else if p < sp[i + 1].lo {
      BetweenPieces(t, sp, glue, i, p);
    } else {
      WalkCover(t, sp, glue, rest, cfg, i + 1, i + 1, p);
    }
    CoveredAny(m, l, w, p);
  }

  lemma CoveredAny(m: seq<Cut>, l: seq<Cut>, w: seq<Cut>, p: int)
    ensures Covered(m, p) || Covered(l, p) || Covered(w, p) ==> Covered(m + l + w, p)
  {
    hide Covered;
    if Covered(m, p) || Covered(l, p) {
      CoveredConcat(m, l, p);
      CoveredConcat(m + l, w, p);
    } else if Covered(w, p) {
      CoveredConcat(m + l, w, p);
    }
  }

  lemma BetweenPieces(t: string, sp: seq<Span>, glue: string, x: nat, p: int)
    requires Tiles(t, sp, glue) && x + 1 < |sp| && sp[x].hi <= p < sp[x + 1].lo
    ensures InsideOf(t, glue, p)
  {
    assert Next(sp, |glue|, x) && OccursAt(t, glue, sp[x].hi);
  }

  /** An occurrence in a slice is an occurrence in the text. */
  lemma InSeparatorOfSlice(t: string, s: Span, seps: seq<string>, p: int)
    requires Fits(t, s) && InSeparator(Slice(t, s), seps, p - s.lo)
    ensures InSeparator(t, seps, p)
  {
    var u := Slice(t, s);
    var j :| 0 <= j < |seps| && InsideOf(u, seps[j], p - s.lo);
    var q :| OccursAt(u, seps[j], q) && q <= p - s.lo < q + |seps[j]|;
    SliceSlice(t, s.lo, s.hi, q, q + |seps[j]|);
    assert OccursAt(t, seps[j], s.lo + q);
    assert InsideOf(t, seps[j], p);
  }

  lemma {:induction false} LongCutsCover(t: string, s: Span, rest: seq<string>, cfg: Config, p: nat)
    requires Fits(t, s) && s.lo <= p < s.hi && !IsSpace(t[p])
    ensures Covered(LongCuts(t, s, rest, cfg), p) || (!cfg.keep && InSeparator(t, rest, p))
    decreases |rest|, 1, 0
  {
    if rest == [] {
      assert LongCuts(t, s, rest, cfg)[0].span == s;
    } else {
      hide Cuts, InSeparator, IsSpace;
      var u := Slice(t, s);
      var cuts := Cuts(u, rest, cfg);
      CutsCover(u, rest, cfg, p - s.lo);
      if Covered(cuts, p - s.lo) {
        var k :| 0 <= k < |cuts| && cuts[k].span.lo <= p - s.lo < cuts[k].span.hi;
        assert Shift(cuts, s.lo)[k].span.lo <= p < Shift(cuts, s.lo)[k].span.hi;
      } else {
        InSeparatorOfSlice(t, s, rest, p);
      }
    }
  }

  lemma RemainingAreSeparators(t: string, seps: seq<string>, p: int)
    requires seps != []
    ensures InSeparator(t, Remaining(t, seps), p) || InsideOf(t, Separator(t, seps), p) ==> InSeparator(t, seps, p)
  {
    hide InsideOf;
    var k := ChosenAt(t, seps);
    if InSeparator(t, Remaining(t, seps), p) {
      var j :| 0 <= j < |Remaining(t, seps)| && InsideOf(t, Remaining(t, seps)[j], p);
      assert Remaining(t, seps)[j] == seps[k + 1 + j];
    } else if InsideOf(t, Separator(t, seps), p) {
      assert InsideOf(t, seps[if k < |seps| then k else |seps| - 1], p);
    }
  }

  /** Every visible code point is in some chunk; without kept separators it may instead be part of one. */
  lemma {:induction false} CutsCover(t: string, seps: seq<string>, cfg: Config, p: nat)
    requires seps != [] && p < |t| && !IsSpace(t[p])
    ensures Covered(Cuts(t, seps, cfg), p) || (!cfg.keep && InSeparator(t, seps, p))
    decreases |seps|, 0, 0
  {
    hide Walk, Covered, InSeparator, IsSpace;
    var sep := Separator(t, seps);
    PiecesTile(t, sep, cfg.keep);
    var sp := PieceSpans(t, sep, cfg.keep);
    WalkCover(t, sp, Glue(sep, cfg.keep), Remaining(t, seps), cfg, 0, 0, p);
    RemainingAreSeparators(t, seps, p);
  }
}
