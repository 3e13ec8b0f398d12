/**
 What the structure of the splitter means for the chunks of a text: no chunk tears a short stretch between two
 separators, and a text without separators and white space is cut into windows of one size and one overlap.
 */
module ChunkStructure {
  import opened Text
  import opened Decimal
  import opened Merging
  import opened MergeLaws
  import opened RecursiveSplit
  import opened SplitLaws
  import opened SplitStructure
  import opened Chunker

  /**
   Whatever the options: a stretch between two neighbouring cuts at the first `n` separators that is shorter than the
   chunk size is torn by no window, and a longer one shares none with what surrounds it.
   */
  lemma WindowsTearNoStretch(text: string, o: Options, nd: char -> bool, n: nat, s: Span, i: nat)
    requires Accepted(o) && n <= |EffectiveSeparators(o)| && i < |Windows(text, o, nd)|
    requires Stretch(Protect(text, nd), EffectiveSeparators(o)[..n], o.keepSeparator, s)
    ensures Whole(s, Windows(text, o, nd)[i], EffectiveSize(o))
  {
    hide Cuts, Stretch, Whole;
    var p, u := Protect(text, nd), Unprotect(text);
    var cuts := Cuts(p, EffectiveSeparators(o), Cfg(o));
    AllFitSameLength(p, u, cuts);
    var k, l := VisibleOrigins(u, cuts, |cuts|, i, i);
    StretchesAreWhole(p, EffectiveSeparators(o), Cfg(o), n, s, k);
  }

  // ---------------------------------------------------------------- windows of one size

  /** Nothing to drop: every window is kept. */
  lemma {:induction false} AllKept(t: string, sp: seq<Span>, gs: seq<Group>)
    requires GroupsFit(t, sp, gs) && forall k :: 0 <= k < |gs| ==> !Blank(t, GroupSpan(sp, gs[k]))
    ensures |Kept(t, sp, gs)| == |gs|
    ensures forall k :: 0 <= k < |gs| ==> Kept(t, sp, gs)[k] == GroupSpan(sp, gs[k])
    decreases |gs|
  {
    hide Blank;
    if gs != [] {
      var m := |gs| - 1;
      assert gs[..m] <= gs && GroupsFit(t, sp, gs[..m]);
      AllKept(t, sp, gs[..m]);
    }
  }

  lemma {:induction false} AllVisible(u: string, cuts: seq<Cut>, n: nat)
    requires n <= |cuts| && AllFit(u, cuts) && forall k :: 0 <= k < |cuts| ==> !Blank(u, cuts[k].span)
    ensures |VisibleFirst(u, cuts, n)| == n && forall k :: 0 <= k < n ==> VisibleFirst(u, cuts, n)[k] == cuts[k].span
  {
    hide Blank;
    if n > 0 {
      AllVisible(u, cuts, n - 1);
    }
  }

  lemma PointsOfText(n: nat)
    ensures SinglePoints(RuneSpans(n)) && |RuneSpans(n)| == n
  {
    var sp := RuneSpans(n);
    forall i | 0 <= i < |sp| - 1 ensures Next(sp, 0, i) {
    }
  }

  lemma EmptySeparatorIsChosen(t: string)
    ensures Chosen(t, [""], "", [])
  {
    var seps := [""];
    assert Usable(t, seps[0]) && seps[0 + 1..] == [];
  }

  lemma SpanOfPoints(n: nat, g: Group)
    requires g.a < g.b <= n
    ensures GroupSpan(RuneSpans(n), g) == Span(g.a, g.b)
  {
  }

  /** The chunks of a text cut at every code point are its windows of points. */
  lemma CutsOfPoints(t: string, cfg: Config)
    requires t != "" && Sane(cfg) && cfg.size > 1
    ensures Tiles(t, RuneSpans(|t|), "")
    ensures Cuts(t, [""], cfg) == Merged(MergedSpans(t, RuneSpans(|t|), "", cfg.Lim()))
  {
    hide Cuts, Chosen, Tiles, StandsBetween, MergedSpans, Merged, Run, RuneSpans, SinglePoints;
    var sp := RuneSpans(|t|);
    RuneTiles(t);
    EmptySeparatorIsChosen(t);
    PointsOfText(|t|);
    PointsRun(sp, cfg);
    var before, after := CutsOfRun(t, [""], cfg, "", [], 0, |sp|);
    assert sp[0..|sp|] == sp;
    NothingAround(t, [""], cfg, Merged(MergedSpans(t, sp, "", cfg.Lim())), before, after);
  }

  lemma PointsRun(sp: seq<Span>, cfg: Config)
    requires SinglePoints(sp) && sp != [] && cfg.size > 1
    ensures Run(sp, cfg, 0, |sp|)
  {
  }

  /** No white space anywhere. */
  ghost predicate Solid(t: string) {
    forall i :: 0 <= i < |t| ==> !IsSpace(t[i])
  }

  /** No stretch of such a text is blank. */
  lemma NothingBlank(t: string, s: Span)
    requires Fits(t, s) && s.lo < s.hi && Solid(t)
    ensures !Blank(t, s)
  {
    hide IsSpace, Blank;
    VisibleNotBlank(t, s, s.lo);
  }

  lemma ProtectedVisible(text: string, nd: char -> bool)
    requires Solid(text)
    ensures |Protect(text, nd)| == |text| && Solid(Protect(text, nd))
  {
    UnprotectProtect(text, nd);
    PlaceholderIsNoSpace();
    hide IsSpace;
  }

  /** The chunks of a text without white space that is cut at every code point, as groups of code points. */
  lemma CutsAreGroups(t: string, cfg: Config) returns (gs: seq<Group>)
    requires t != "" && Sane(cfg) && cfg.size > 1 && Solid(t)
    ensures gs == AllGroups(RuneSpans(|t|), 0, cfg.Lim())
    ensures |Cuts(t, [""], cfg)| == |gs|
    ensures forall k :: 0 <= k < |gs| ==> gs[k].a < gs[k].b <= |t| && Cuts(t, [""], cfg)[k].span == Span(gs[k].a, gs[k].b)
  {
    hide Solid, Blank, Cuts, AllGroups, RuneSpans, Kept, Tiles;
    var sp := RuneSpans(|t|);
    CutsOfPoints(t, cfg);
    gs := AllGroups(sp, 0, cfg.Lim());
    forall k | 0 <= k < |gs| ensures Fits(t, GroupSpan(sp, gs[k])) && GroupSpan(sp, gs[k]) == Span(gs[k].a, gs[k].b) {
      GroupFits(t, sp, "", gs[k]);
      SpanOfPoints(|t|, gs[k]);
    }
    forall k | 0 <= k < |gs| ensures !Blank(t, GroupSpan(sp, gs[k])) {
      NothingBlank(t, GroupSpan(sp, gs[k]));
    }
    AllKept(t, sp, gs);
  }

  /** And so are its windows. */
  lemma WindowsAreGroups(text: string, o: Options, nd: char -> bool) returns (gs: seq<Group>)
    requires Accepted(o) && o.separators == [""] && EffectiveSize(o) > 1 && text != ""
    requires PLACEHOLDER !in text && Solid(text)
    ensures gs == AllGroups(RuneSpans(|text|), 0, Limits(EffectiveSize(o), EffectiveOverlap(o)))
    ensures |Windows(text, o, nd)| == |gs|
    ensures forall k :: 0 <= k < |gs| ==> Windows(text, o, nd)[k] == Span(gs[k].a, gs[k].b)
  {
    RestoredText(text, nd);
    ProtectedVisible(text, nd);
    hide Solid, Blank, Cuts, AllGroups, RuneSpans, VisibleFirst, Protect, Unprotect;
    var p := Protect(text, nd);
    var cuts := Cuts(p, [""], Cfg(o));
    gs := CutsAreGroups(p, Cfg(o));
    AllFitSameLength(p, text, cuts);
    forall k | 0 <= k < |cuts| ensures !Blank(text, cuts[k].span) {
      NothingBlank(text, cuts[k].span);
    }
    AllVisible(text, cuts, |cuts|);
  }

  /**
   Cut at every code point, a text without white space gives windows of exactly the chunk size, the last one perhaps
   shorter, each sharing exactly the overlap with the one before.
   */
  lemma FixedWindows(text: string, o: Options, nd: char -> bool, k: nat)
    requires o.separators == [""] && 0 <= o.chunkOverlap < o.chunkSize && o.chunkSize > 1 && text != ""
    requires PLACEHOLDER !in text && Solid(text)
    requires k < |Windows(text, o, nd)|
    ensures var w := Windows(text, o, nd);
      && w[0].lo == 0 && w[|w| - 1].hi == |text|
      && if k + 1 < |w| then w[k].hi == w[k].lo + o.chunkSize && w[k + 1].lo == w[k].hi - o.chunkOverlap
         else w[k].hi <= w[k].lo + o.chunkSize
  {
    hide *;
    OptionsAsGiven(o);
    var gs := WindowsAreGroups(text, o, nd);
    GroupsOfPoints(|text|, o.chunkSize, o.chunkOverlap, k);
    SameAsGroups(Windows(text, o, nd), gs, |text|, o.chunkSize, o.chunkOverlap, k);
  }

  lemma GroupsOfPoints(n: nat, size: int, overlap: int, k: nat)
    requires n > 0 && 0 <= overlap < size && k < |AllGroups(RuneSpans(n), 0, Limits(size, overlap))|
    ensures var gs := AllGroups(RuneSpans(n), 0, Limits(size, overlap));
      && gs[0].a == 0 && gs[|gs| - 1].b == n
      && if k + 1 < |gs| then gs[k].b == gs[k].a + size && gs[k + 1].a == gs[k].b - overlap else gs[k].b <= gs[k].a + size
  {
    hide *;
    PointsOfText(n);
    RuneSpansEmpty(n);
    WindowsOfPoints(RuneSpans(n), Limits(size, overlap), k);
  }

  lemma SameAsGroups(w: seq<Span>, gs: seq<Group>, n: nat, size: int, overlap: int, k: nat)
    requires |w| == |gs| && k < |gs| && forall i :: 0 <= i < |gs| ==> w[i] == Span(gs[i].a, gs[i].b)
    requires gs[0].a == 0 && gs[|gs| - 1].b == n
    requires if k + 1 < |gs| then gs[k].b == gs[k].a + size && gs[k + 1].a == gs[k].b - overlap else gs[k].b <= gs[k].a + size
    ensures w[0].lo == 0 && w[|w| - 1].hi == n
    ensures if k + 1 < |w| then w[k].hi == w[k].lo + size && w[k + 1].lo == w[k].hi - overlap else w[k].hi <= w[k].lo + size
  {
  }

  lemma OptionsAsGiven(o: Options)
    requires 0 <= o.chunkOverlap < o.chunkSize
    ensures Accepted(o) && EffectiveSize(o) == o.chunkSize && EffectiveOverlap(o) == o.chunkOverlap
  {
  }

  lemma RuneSpansEmpty(n: nat)
    ensures RuneSpans(n) == [] <==> n == 0
  {
  }
}
