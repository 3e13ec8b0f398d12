/**
 Which pieces the recursive splitter keeps together.  The chunks of a text are, in text order: the merged windows
 of every run of short pieces, and for every long piece the chunks of that piece under the separators that are
 left.  So a stretch between two neighbouring cuts, at any level, is never torn if it is short, and never shares
 a chunk with its surroundings if it is long.
 */
module SplitStructure {
  import opened Text
  import opened Merging
  import opened MergeLaws
  import opened RecursiveSplit
  import opened SplitLaws

  /** `mid` stands in `all` between cuts that end at or before `lo` and cuts that start at or behind `hi`. */
  ghost predicate StandsBetween(all: seq<Cut>, mid: seq<Cut>, before: seq<Cut>, after: seq<Cut>, lo: nat, hi: nat) {
    && all == before + mid + after
    && (forall k :: 0 <= k < |before| ==> before[k].span.hi <= lo)
    && forall k :: 0 <= k < |after| ==> hi <= after[k].span.lo
  }

  /** More cuts in front. */
  lemma StandsBehind(all: seq<Cut>, mid: seq<Cut>, before: seq<Cut>, after: seq<Cut>, lo: nat, hi: nat, first: seq<Cut>, cfg: Config,
                     from: nat, to: nat)
    requires StandsBetween(all, mid, before, after, lo, hi) && Ordered(first, from, to, cfg) && to <= lo
    ensures StandsBetween(first + all, mid, first + before, after, lo, hi)
  {
    assert first + (before + mid + after) == (first + before) + mid + after;
  }

  lemma StandsFirst(first: seq<Cut>, mid: seq<Cut>, after: seq<Cut>, lo: nat, hi: nat, cfg: Config, from: nat, a: nat, to: nat)
    requires Ordered(first, from, lo, cfg) && Ordered(after, a, to, cfg) && hi <= a
    ensures StandsBetween(first + mid + after, mid, first, after, lo, hi)
  {
  }

  /** Pieces `[x, y)` are a run: short pieces between two long ones, or the ends. */
  ghost predicate Run(sp: seq<Span>, cfg: Config, x: nat, y: nat) {
    && x < y <= |sp| && Short(sp, cfg, x, y)
    && (x == 0 || sp[x - 1].Len() >= cfg.size)
    && (y == |sp| || sp[y].Len() >= cfg.size)
  }

  /** The windows of a run stand together among all chunks. */
  lemma {:induction false} WalkRun(t: string, sp: seq<Span>, glue: string, rest: seq<string>, cfg: Config, g: nat, i: nat, x: nat, y: nat)
    returns (before: seq<Cut>, after: seq<Cut>)
    requires Tiles(t, sp, glue) && Sane(cfg) && (cfg.keep ==> glue == "")
    requires g <= x && i <= y && g <= i && Run(sp, cfg, x, y) && Short(sp, cfg, g, i)
    ensures Fits(t, sp[x]) && Fits(t, sp[y - 1])
    ensures StandsBetween(Walk(t, sp, glue, rest, cfg, g, i), MergeCuts(t, sp, glue, cfg, x, y), before, after, sp[x].lo, sp[y - 1].hi)
    decreases |sp| - i
  {
    hide MergeCuts, LongCuts, Ordered, Tiles, Chain, AllFit, StandsBetween, Walk, Short, Run;
    RunBounds(t, sp, glue, cfg, x, y);
    RunIsNext(sp, cfg, g, i, x, y);
    if i < y && sp[i].Len() < cfg.size {
      WalkShort(t, sp, glue, rest, cfg, g, i);
      before, after := WalkRun(t, sp, glue, rest, cfg, g, i + 1, x, y);
    } else if i < y {
      NothingPending(sp, cfg, i + 1);
      before, after := WalkRun(t, sp, glue, rest, cfg, i + 1, i + 1, x, y);
      var first := FirstPart(t, sp, glue, rest, cfg, g, i);
      PieceOrder(t, sp, glue, i, x);
      StandsBehind(Walk(t, sp, glue, rest, cfg, i + 1, i + 1), MergeCuts(t, sp, glue, cfg, x, y), before, after, sp[x].lo, sp[y - 1].hi,
        first, cfg, sp[g].lo, sp[i].hi);
      before := first + before;
    } else {
      before := [];
      after := LastPart(t, sp, glue, rest, cfg, x, y);
    }
  }

  lemma RunBounds(t: string, sp: seq<Span>, glue: string, cfg: Config, x: nat, y: nat)
    requires Tiles(t, sp, glue) && Run(sp, cfg, x, y)
    ensures x < y <= |sp| && Fits(t, sp[x]) && Fits(t, sp[y - 1]) && sp[x].lo <= sp[y - 1].hi
  {
    ChainOrder(sp, |glue|, x, y - 1);
  }

  /** A long piece in front of the end of a run is in front of the run, and at its end it is all that is pending. */
  lemma RunIsNext(sp: seq<Span>, cfg: Config, g: nat, i: nat, x: nat, y: nat)
    requires Run(sp, cfg, x, y) && g <= i <= |sp| && Short(sp, cfg, g, i) && g <= x
    ensures i < y && sp[i].Len() >= cfg.size ==> i < x
    ensures i == y ==> g == x
  {
    assert x > 0 ==> sp[x - 1].Len() >= cfg.size;
  }

  lemma WalkShort(t: string, sp: seq<Span>, glue: string, rest: seq<string>, cfg: Config, g: nat, i: nat)
    requires Tiles(t, sp, glue) && g <= i < |sp| && Short(sp, cfg, g, i) && sp[i].Len() < cfg.size
    ensures Walk(t, sp, glue, rest, cfg, g, i) == Walk(t, sp, glue, rest, cfg, g, i + 1) && Short(sp, cfg, g, i + 1)
  {
    hide MergeCuts, LongCuts, Tiles;
  }

  lemma WalkLongStep(t: string, sp: seq<Span>, glue: string, rest: seq<string>, cfg: Config, g: nat, i: nat)
    requires Tiles(t, sp, glue) && g <= i < |sp| && sp[i].Len() >= cfg.size && Fits(t, sp[i])
    ensures Walk(t, sp, glue, rest, cfg, g, i)
         == MergeCuts(t, sp, glue, cfg, g, i) + LongCuts(t, sp[i], rest, cfg) + Walk(t, sp, glue, rest, cfg, i + 1, i + 1)
  {
    hide MergeCuts, LongCuts, Tiles;
  }

  lemma NothingPending(sp: seq<Span>, cfg: Config, i: nat)
    requires i <= |sp|
    ensures Short(sp, cfg, i, i)
  {
  }

  lemma PieceOrder(t: string, sp: seq<Span>, glue: string, i: nat, x: nat)
    requires Tiles(t, sp, glue) && i < x < |sp|
    ensures sp[i].hi <= sp[x].lo
  {
    ChainOrder(sp, |glue|, i, x);
  }

  /** The chunks up to a long piece. */
  lemma FirstPart(t: string, sp: seq<Span>, glue: string, rest: seq<string>, cfg: Config, g: nat, i: nat) returns (first: seq<Cut>)
    requires Tiles(t, sp, glue) && Sane(cfg) && (cfg.keep ==> glue == "")
    requires g <= i < |sp| && Short(sp, cfg, g, i) && sp[i].Len() >= cfg.size
    ensures Ordered(first, sp[g].lo, sp[i].hi, cfg)
    ensures Walk(t, sp, glue, rest, cfg, g, i) == first + Walk(t, sp, glue, rest, cfg, i + 1, i + 1)
  {
    hide MergeCuts, LongCuts, Ordered, Tiles, Chain, AllFit;
    PieceBounds(t, sp, glue, g, i);
    PendingOrdered(t, sp, glue, cfg, g, i);
    LongCutsOrdered(t, sp[i], rest, cfg);
    OrderedConcat(MergeCuts(t, sp, glue, cfg, g, i), LongCuts(t, sp[i], rest, cfg), sp[g].lo, sp[i].lo, sp[i].hi, cfg);
    first := MergeCuts(t, sp, glue, cfg, g, i) + LongCuts(t, sp[i], rest, cfg);
  }

  /** What stands behind a run. */
  lemma LastPart(t: string, sp: seq<Span>, glue: string, rest: seq<string>, cfg: Config, x: nat, y: nat) returns (after: seq<Cut>)
    requires Tiles(t, sp, glue) && Sane(cfg) && (cfg.keep ==> glue == "") && Run(sp, cfg, x, y)
    ensures StandsBetween(Walk(t, sp, glue, rest, cfg, x, y), MergeCuts(t, sp, glue, cfg, x, y), [], after, sp[x].lo, sp[y - 1].hi)
  {
    hide MergeCuts, LongCuts, Ordered, Tiles, Chain, AllFit, StandsBetween;
    var m := MergeCuts(t, sp, glue, cfg, x, y);
    if y < |sp| {
      PieceBounds(t, sp, glue, x, y);
      PieceBounds(t, sp, glue, y, y);
      var l, w := LongCuts(t, sp[y], rest, cfg), Walk(t, sp, glue, rest, cfg, y + 1, y + 1);
      LongCutsOrdered(t, sp[y], rest, cfg);
      WalkOrdered(t, sp, glue, rest, cfg, y + 1, y + 1);
      OrderedRaise(w, sp[y].hi, StartOf(t, sp, y + 1), |t|, cfg);
      OrderedConcat(l, w, sp[y].lo, sp[y].hi, |t|, cfg);
      after := l + w;
      NothingBefore(cfg, sp[x].lo);
      StandsFirst([], m, after, sp[x].lo, sp[y - 1].hi, cfg, 0, sp[y].lo, |t|);
      assert [] + m + after == m + l + w;
    } else {
      after := [];
      NothingBefore(cfg, sp[x].lo);
      NothingBetween(cfg, sp[y - 1].hi);
      StandsFirst([], m, [], sp[x].lo, sp[y - 1].hi, cfg, 0, sp[y - 1].hi, sp[y - 1].hi);
      assert [] + m + [] == m;
    }
  }

  lemma NothingBefore(cfg: Config, to: nat)
    ensures Ordered([], 0, to, cfg)
  {
  }

  lemma NothingBetween(cfg: Config, p: nat)
    ensures Ordered([], p, p, cfg)
  {
  }

  /** The chunks of a long piece stand together among all chunks. */
  lemma {:induction false} WalkLong(t: string, sp: seq<Span>, glue: string, rest: seq<string>, cfg: Config, g: nat, i: nat, x: nat)
    returns (before: seq<Cut>, after: seq<Cut>)
    requires Tiles(t, sp, glue) && Sane(cfg) && (cfg.keep ==> glue == "")
    requires g <= i <= x < |sp| && sp[x].Len() >= cfg.size && Short(sp, cfg, g, i)
    ensures Fits(t, sp[x])
    ensures StandsBetween(Walk(t, sp, glue, rest, cfg, g, i), LongCuts(t, sp[x], rest, cfg), before, after, sp[x].lo, sp[x].hi)
    decreases |sp| - i
  {
    hide MergeCuts, LongCuts, Ordered, Tiles, Chain, AllFit, StandsBetween, Walk, Short;
    PieceBounds(t, sp, glue, g, x);
    if sp[i].Len() < cfg.size {
      WalkShort(t, sp, glue, rest, cfg, g, i);
      before, after := WalkLong(t, sp, glue, rest, cfg, g, i + 1, x);
    } else if i < x {
      NothingPending(sp, cfg, i + 1);
      before, after := WalkLong(t, sp, glue, rest, cfg, i + 1, i + 1, x);
      var first := FirstPart(t, sp, glue, rest, cfg, g, i);
      PieceOrder(t, sp, glue, i, x);
      StandsBehind(Walk(t, sp, glue, rest, cfg, i + 1, i + 1), LongCuts(t, sp[x], rest, cfg), before, after, sp[x].lo, sp[x].hi,
        first, cfg, sp[g].lo, sp[i].hi);
      before := first + before;
    } else {
      before, after := MergeCuts(t, sp, glue, cfg, g, x), Walk(t, sp, glue, rest, cfg, x + 1, x + 1);
      WalkLongStep(t, sp, glue, rest, cfg, g, x);
      NothingPending(sp, cfg, x + 1);
      PieceBounds(t, sp, glue, x, x);
      PendingOrdered(t, sp, glue, cfg, g, x);
      WalkOrdered(t, sp, glue, rest, cfg, x + 1, x + 1);
      StandsFirst(before, LongCuts(t, sp[x], rest, cfg), after, sp[x].lo, sp[x].hi, cfg, sp[g].lo, StartOf(t, sp, x + 1), |t|);
    }
  }

  // ---------------------------------------------------------------- the chunks of a text

  /** All chunks of a text are those of its pieces at the chosen separator. */
  lemma CutsOfPieces(t: string, seps: seq<string>, cfg: Config, sep: string, rest: seq<string>)
    requires seps != [] && Chosen(t, seps, sep, rest)
    ensures var sp, glue := PieceSpans(t, sep, cfg.keep), Glue(sep, cfg.keep);
      Tiles(t, sp, glue) && Cuts(t, seps, cfg) == Walk(t, sp, glue, rest, cfg, 0, 0)
  {
    hide Cuts, Walk, PieceSpans, Glue, Chosen, Tiles, Separator, Remaining;
    ChosenIsUnique(t, seps, sep, rest);
    CutsAreWalk(t, seps, cfg);
  }

  /** A run of short pieces is merged as a whole, with the size and the overlap of the configuration, and with nothing else. */
  lemma CutsOfRun(t: string, seps: seq<string>, cfg: Config, sep: string, rest: seq<string>, x: nat, y: nat)
    returns (before: seq<Cut>, after: seq<Cut>)
    requires seps != [] && Sane(cfg) && Chosen(t, seps, sep, rest) && Run(PieceSpans(t, sep, cfg.keep), cfg, x, y)
    ensures var sp, glue := PieceSpans(t, sep, cfg.keep), if cfg.keep then "" else sep;
      && Tiles(t, sp[x..y], glue)
      && StandsBetween(Cuts(t, seps, cfg), Merged(MergedSpans(t, sp[x..y], glue, Limits(cfg.size, cfg.overlap))),
                       before, after, sp[x].lo, sp[y - 1].hi)
  {
    hide Cuts, Walk, PieceSpans, Chosen, Tiles, Run, StandsBetween, MergedSpans, Merged;
    CutsOfPieces(t, seps, cfg, sep, rest);
    var sp, glue := PieceSpans(t, sep, cfg.keep), Glue(sep, cfg.keep);
    NothingPending(sp, cfg, 0);
    RunBounds(t, sp, glue, cfg, x, y);
    SubTiles(t, sp, glue, x, y);
    before, after := WalkRun(t, sp, glue, rest, cfg, 0, 0, x, y);
  }

  /** A piece that is too long is cut on its own: at the separators behind the chosen one, or not at all if none is left. */
  lemma CutsOfLongPiece(t: string, seps: seq<string>, cfg: Config, sep: string, rest: seq<string>, x: nat)
    returns (before: seq<Cut>, after: seq<Cut>)
    requires seps != [] && Sane(cfg) && Chosen(t, seps, sep, rest)
    requires x < |PieceSpans(t, sep, cfg.keep)| && PieceSpans(t, sep, cfg.keep)[x].Len() >= cfg.size
    ensures var s := PieceSpans(t, sep, cfg.keep)[x];
      && Fits(t, s)
      && StandsBetween(Cuts(t, seps, cfg), if rest == [] then [Cut(s, false)] else Shift(Cuts(Slice(t, s), rest, cfg), s.lo),
                       before, after, s.lo, s.hi)
  {
    hide Cuts, Walk, PieceSpans, Chosen, Tiles, StandsBetween;
    CutsOfPieces(t, seps, cfg, sep, rest);
    var sp, glue := PieceSpans(t, sep, cfg.keep), Glue(sep, cfg.keep);
    NothingPending(sp, cfg, 0);
    before, after := WalkLong(t, sp, glue, rest, cfg, 0, 0, x);
  }

  // ---------------------------------------------------------------- what is kept together

  /** A chunk does not tear `s` if `s` is short; if `s` is long the chunk lies in it or outside of it. */
  ghost predicate Whole(s: Span, c: Span, size: int) {
    if s.Len() < size then !(s.lo < c.lo < s.hi) && !(s.lo < c.hi < s.hi)
    else c.hi <= s.lo || s.hi <= c.lo || (s.lo <= c.lo && c.hi <= s.hi)
  }

  /** A window starts where a piece starts and ends where one ends. */
  lemma WindowsTearNothing(t: string, sp: seq<Span>, glue: string, lim: Limits, p: nat, j: nat)
    requires Tiles(t, sp, glue) && p < |sp| && j < |MergedSpans(t, sp, glue, lim)|
    ensures var c := MergedSpans(t, sp, glue, lim)[j];
      !(sp[p].lo < c.lo < sp[p].hi) && !(sp[p].lo < c.hi < sp[p].hi)
  {
    hide AllGroups, Kept, Chain;
    var gs := AllGroups(sp, |glue|, lim);
    forall k | 0 <= k < |gs| ensures Fits(t, GroupSpan(sp, gs[k])) {
      GroupFits(t, sp, glue, gs[k]);
    }
    var k := KeptOrigin(t, sp, gs, j);
    var a, b := gs[k].a, gs[k].b - 1;
    if a <= p {
      ChainOrder(sp, |glue|, a, p);
    } else {
      ChainOrder(sp, |glue|, p, a);
    }
    if b <= p {
      ChainOrder(sp, |glue|, b, p);
      assert b < p ==> sp[b].hi <= sp[p].lo;
    } else {
      ChainOrder(sp, |glue|, p, b);
    }
  }

  /** Every short piece lies in a run. */
  lemma RunAround(sp: seq<Span>, cfg: Config, p: nat) returns (x: nat, y: nat)
    requires p < |sp| && sp[p].Len() < cfg.size
    ensures x <= p < y && Run(sp, cfg, x, y)
  {
    x, y := p, p + 1;
    while x > 0 && sp[x - 1].Len() < cfg.size
      invariant x <= p < y <= |sp| && Short(sp, cfg, x, y)
    {
      x := x - 1;
    }
    while y < |sp| && sp[y].Len() < cfg.size
      invariant x <= p < y <= |sp| && Short(sp, cfg, x, y) && (x == 0 || sp[x - 1].Len() >= cfg.size)
    {
      y := y + 1;
    }
  }

  /** Where a chunk stands that is one of three consecutive parts. */
  lemma WhichPart(all: seq<Cut>, mid: seq<Cut>, before: seq<Cut>, after: seq<Cut>, lo: nat, hi: nat, j: nat)
    requires StandsBetween(all, mid, before, after, lo, hi) && j < |all|
    ensures all[j].span.hi <= lo || hi <= all[j].span.lo || (|before| <= j < |before| + |mid| && all[j] == mid[j - |before|])
  {
    if j < |before| {
      assert all[j] == before[j];
    } else if j >= |before| + |mid| {
      assert all[j] == after[j - |before| - |mid|];
    }
  }

  /** No chunk tears a short piece. */
  lemma ShortPieceIsWhole(t: string, seps: seq<string>, cfg: Config, sep: string, rest: seq<string>, p: nat, j: nat)
    requires seps != [] && Sane(cfg) && Chosen(t, seps, sep, rest) && j < |Cuts(t, seps, cfg)|
    requires p < |PieceSpans(t, sep, cfg.keep)| && PieceSpans(t, sep, cfg.keep)[p].Len() < cfg.size
    ensures Whole(PieceSpans(t, sep, cfg.keep)[p], Cuts(t, seps, cfg)[j].span, cfg.size)
  {
    hide Cuts, PieceSpans, Chosen, Tiles, Run, StandsBetween, MergedSpans, Merged, Ordered;
    var cuts, sp, glue := Cuts(t, seps, cfg), PieceSpans(t, sep, cfg.keep), if cfg.keep then "" else sep;
    var x, y := RunAround(sp, cfg, p);
    CutsOfPieces(t, seps, cfg, sep, rest);
    RunBounds(t, sp, Glue(sep, cfg.keep), cfg, x, y);
    PieceInRun(t, sp, Glue(sep, cfg.keep), x, y, p);
    var before, after := CutsOfRun(t, seps, cfg, sep, rest, x, y);
    var windows := MergedSpans(t, sp[x..y], glue, Limits(cfg.size, cfg.overlap));
    WhichPart(cuts, Merged(windows), before, after, sp[x].lo, sp[y - 1].hi, j);
    CutsForward(t, seps, cfg, j);
    if sp[x].lo < cuts[j].span.hi && cuts[j].span.lo < sp[y - 1].hi {
      WindowsTearNothing(t, sp[x..y], glue, Limits(cfg.size, cfg.overlap), p - x, j - |before|);
      assert sp[x..y][p - x] == sp[p];
    }
  }

  lemma PieceInRun(t: string, sp: seq<Span>, glue: string, x: nat, y: nat, p: nat)
    requires Tiles(t, sp, glue) && x <= p < y <= |sp|
    ensures sp[x].lo <= sp[p].lo && sp[p].hi <= sp[y - 1].hi
  {
    ChainOrder(sp, |glue|, x, p);
    ChainOrder(sp, |glue|, p, y - 1);
  }

  lemma CutsForward(t: string, seps: seq<string>, cfg: Config, j: nat)
    requires seps != [] && Sane(cfg) && j < |Cuts(t, seps, cfg)|
    ensures 0 <= Cuts(t, seps, cfg)[j].span.lo < Cuts(t, seps, cfg)[j].span.hi <= |t|
  {
    hide Cuts;
    CutsOrdered(t, seps, cfg);
  }

  /** A text shorter than the size is one chunk, or none if nothing in it is visible. */
  lemma ShortTextIsOneChunk(t: string, seps: seq<string>, cfg: Config)
    requires seps != [] && Sane(cfg) && |t| < cfg.size
    ensures Cuts(t, seps, cfg) == if Blank(t, Span(0, |t|)) then [] else [Cut(Span(0, |t|), true)]
  {
    hide Cuts, PieceSpans, Chosen, Tiles, StandsBetween, MergedSpans, Merged, Ordered, Walk, Run, Blank;
    var sep, rest := Separator(t, seps), Remaining(t, seps);
    hide Separator, Remaining;
    ChoiceIsChosen(t, seps);
    PiecesTile(t, sep, cfg.keep);
    CutsOfPieces(t, seps, cfg, sep, rest);
    var sp, glue := PieceSpans(t, sep, cfg.keep), if cfg.keep then "" else sep;
    if sp == [] {
      NoPieces(t, glue, rest, cfg);
    } else {
      WholeRun(t, sp, glue, cfg);
      var before, after := CutsOfRun(t, seps, cfg, sep, rest, 0, |sp|);
      assert sp[0..|sp|] == sp;
      NothingAround(t, seps, cfg, Merged(MergedSpans(t, sp, glue, cfg.Lim())), before, after);
      OneWindow(t, sp, glue, cfg.Lim());
    }
  }

  lemma NoPieces(t: string, glue: string, rest: seq<string>, cfg: Config)
    requires Tiles(t, [], glue) && t == ""
    ensures Walk(t, [], glue, rest, cfg, 0, 0) == [] && Blank(t, Span(0, |t|))
  {
    NothingToMerge(t, [], glue, cfg, 0);
  }

  lemma WholeRun(t: string, sp: seq<Span>, glue: string, cfg: Config)
    requires Tiles(t, sp, glue) && sp != [] && |t| < cfg.size
    ensures Run(sp, cfg, 0, |sp|)
  {
    forall x | 0 <= x < |sp| ensures sp[x].Len() < cfg.size {
      assert Fits(t, sp[x]);
    }
  }

  lemma NothingAround(t: string, seps: seq<string>, cfg: Config, mid: seq<Cut>, before: seq<Cut>, after: seq<Cut>)
    requires seps != [] && Sane(cfg) && StandsBetween(Cuts(t, seps, cfg), mid, before, after, 0, |t|)
    ensures Cuts(t, seps, cfg) == mid
  {
    hide Cuts, Ordered;
    var cuts := Cuts(t, seps, cfg);
    assert before != [] ==> cuts[0] == before[0];
    assert after != [] ==> cuts[|cuts| - 1] == after[|after| - 1];
    if cuts != [] {
      CutsForward(t, seps, cfg, 0);
      CutsForward(t, seps, cfg, |cuts| - 1);
    }
    assert [] + mid + [] == mid;
  }

  /** Pieces that are together within the size make one window. */
  lemma OneWindow(t: string, sp: seq<Span>, glue: string, lim: Limits)
    requires Tiles(t, sp, glue) && sp != [] && sp[0].lo == 0 && sp[|sp| - 1].hi == |t| && |t| <= lim.size
    ensures var w := Span(0, |t|);
      Merged(MergedSpans(t, sp, glue, lim)) == if Blank(t, w) then [] else [Cut(w, true)]
  {
    var gs := [Group(0, |sp|)];
    assert AreWindows(sp, |glue|, lim, gs) by {
      forall i | 1 < i <= |sp| ensures Total(sp, 0, i) <= lim.size {
        ChainOrder(sp, |glue|, i - 1, |sp| - 1);
      }
    }
    hide AreWindows, AllGroups, Chain, Blank;
    WindowsAreUnique(sp, |glue|, lim, gs);
    GroupFits(t, sp, glue, gs[0]);
    assert GroupSpan(sp, gs[0]) == Span(0, |t|);
    KeptStep(t, sp, [], gs[0]);
    assert [] + gs == gs;
  }

  /** `s` lies between two neighbouring cuts of `t` at each of the separators in turn, the pieces of one cut at the next. */
  ghost predicate Stretch(t: string, seps: seq<string>, keep: bool, s: Span)
    decreases |seps|
  {
    if seps == [] then s == Span(0, |t|)
    else exists i :: 0 <= i < |PieceSpans(t, seps[0], keep)| && InPiece(t, PieceSpans(t, seps[0], keep)[i], seps, keep, s)
  }

  /** `s` is such a stretch of piece `p` under the separators behind the first. */
  ghost predicate InPiece(t: string, p: Span, seps: seq<string>, keep: bool, s: Span)
    requires seps != []
    decreases |seps|, 0
  {
    && Fits(t, p) && p.lo <= s.lo <= s.hi <= p.hi
    && Stretch(Slice(t, p), seps[1..], keep, Span(s.lo - p.lo, s.hi - p.lo))
  }

  lemma WholeNarrowed(p: Span, s: Span, c: Span, size: int)
    requires Whole(p, c, size) && p.Len() < size && p.lo <= s.lo && s.hi <= p.hi
    ensures Whole(s, c, size)
  {
  }

  /** The whole text is torn by no chunk. */
  lemma TextIsWhole(t: string, seps: seq<string>, cfg: Config, j: nat)
    requires seps != [] && Sane(cfg) && j < |Cuts(t, seps, cfg)|
    ensures Whole(Span(0, |t|), Cuts(t, seps, cfg)[j].span, cfg.size)
  {
    hide Cuts, Blank;
    CutsForward(t, seps, cfg, j);
    if |t| < cfg.size {
      ShortTextIsOneChunk(t, seps, cfg);
    }
  }

  /** An absent separator cuts nothing and changes no chunk. */
  lemma AbsentSeparator(t: string, seps: seq<string>, cfg: Config)
    requires seps != [] && !Usable(t, seps[0])
    ensures PieceSpans(t, seps[0], cfg.keep) == [Span(0, |t|)]
    ensures |seps| > 1 ==> Cuts(t, seps, cfg) == Cuts(t, seps[1..], cfg)
  {
    ContainsMeans(t, seps[0]);
    assert Index(t, seps[0], 0) < 0;
    assert PieceSpans(t, seps[0], cfg.keep) == [Span(0, |t|)];
    hide Cuts, PieceSpans, OccursAt;
    if |seps| > 1 {
      SameChoice(t, seps);
      CutsAreWalk(t, seps, cfg);
      CutsAreWalk(t, seps[1..], cfg);
    }
  }

  lemma StretchOfOnePiece(t: string, seps: seq<string>, keep: bool, s: Span)
    requires seps != [] && PieceSpans(t, seps[0], keep) == [Span(0, |t|)] && Stretch(t, seps, keep, s)
    ensures Stretch(t, seps[1..], keep, s)
  {
    hide PieceSpans;
    assert Slice(t, Span(0, |t|)) == t;
    assert InPiece(t, Span(0, |t|), seps, keep, s);
  }

  lemma SameChoice(t: string, seps: seq<string>)
    requires |seps| > 1 && !Usable(t, seps[0])
    ensures Separator(t, seps) == Separator(t, seps[1..]) && Remaining(t, seps) == Remaining(t, seps[1..])
  {
    ContainsMeans(t, seps[0]);
  }

  /**
   A stretch between two neighbouring cuts at the separators `seps[..n]` that is shorter than the size is torn by
   no chunk; a longer one shares no chunk with what surrounds it.
   */
  lemma {:induction false} StretchesAreWhole(t: string, seps: seq<string>, cfg: Config, n: nat, s: Span, j: nat)
    requires seps != [] && Sane(cfg) && n <= |seps| && Stretch(t, seps[..n], cfg.keep, s) && j < |Cuts(t, seps, cfg)|
    ensures Whole(s, Cuts(t, seps, cfg)[j].span, cfg.size)
    decreases |seps|
  {
    hide Cuts, PieceSpans, Chosen, Usable, Whole, StandsBetween;
    if n == 0 {
      TextIsWhole(t, seps, cfg, j);
    } else {
      assert seps[..n][1..] == seps[1..][..n - 1] && seps[..n][0] == seps[0];
      if Usable(t, seps[0]) {
        FirstIsChosen(t, seps);
        var i :| 0 <= i < |PieceSpans(t, seps[0], cfg.keep)| && InPiece(t, PieceSpans(t, seps[0], cfg.keep)[i], seps[..n], cfg.keep, s);
        var p := PieceSpans(t, seps[0], cfg.keep)[i];
        if p.Len() < cfg.size {
          ShortPieceIsWhole(t, seps, cfg, seps[0], seps[1..], i, j);
          WholeNarrowed(p, s, Cuts(t, seps, cfg)[j].span, cfg.size);
        } else {
          LongPieceIsWhole(t, seps, cfg, n, i, s, j);
        }
      } else {
        AbsentSeparator(t, seps, cfg);
        StretchOfOnePiece(t, seps[..n], cfg.keep, s);
        if |seps| == 1 {
          TextIsWhole(t, seps, cfg, j);
        } else {
          StretchesAreWhole(t, seps[1..], cfg, n - 1, s, j);
        }
      }
    }
  }

  lemma FirstIsChosen(t: string, seps: seq<string>)
    requires seps != [] && Usable(t, seps[0])
    ensures Chosen(t, seps, seps[0], seps[1..])
  {
    hide Usable;
    var k := 0;
    assert seps[1..] == seps[k + 1..];
  }

  lemma {:induction false} LongPieceIsWhole(t: string, seps: seq<string>, cfg: Config, n: nat, i: nat, s: Span, j: nat)
    requires seps != [] && Sane(cfg) && 0 < n <= |seps| && Chosen(t, seps, seps[0], seps[1..]) && j < |Cuts(t, seps, cfg)|
    requires i < |PieceSpans(t, seps[0], cfg.keep)| && PieceSpans(t, seps[0], cfg.keep)[i].Len() >= cfg.size
    requires InPiece(t, PieceSpans(t, seps[0], cfg.keep)[i], seps[..n], cfg.keep, s)
    ensures Whole(s, Cuts(t, seps, cfg)[j].span, cfg.size)
    decreases |seps|, 0
  {
    hide Cuts, PieceSpans, Chosen, StandsBetween;
    assert seps[..n][1..] == seps[1..][..n - 1];
    var cuts, p, rest := Cuts(t, seps, cfg), PieceSpans(t, seps[0], cfg.keep)[i], seps[1..];
    var before, after := CutsOfLongPiece(t, seps, cfg, seps[0], rest, i);
    var mid := if rest == [] then [Cut(p, false)] else Shift(Cuts(Slice(t, p), rest, cfg), p.lo);
    WhichPart(cuts, mid, before, after, p.lo, p.hi, j);
    CutsForward(t, seps, cfg, j);
    if p.lo < cuts[j].span.hi && cuts[j].span.lo < p.hi && rest != [] {
      StretchesAreWhole(Slice(t, p), rest, cfg, n - 1, Span(s.lo - p.lo, s.hi - p.lo), j - |before|);
    }
  }
}
