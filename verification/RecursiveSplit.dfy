/**
 `splitText`: the recursive splitter over the separator list.  `Cuts` is its specification on spans of
 the text; the method works on strings as the source does and is proved to return the texts of `Cuts`.
 */
module RecursiveSplit {
  import opened Text
  import opened Merging

  datatype Config = Config(size: int, overlap: int, keep: bool) {
    function Lim(): Limits {
      Limits(size, overlap)
    }
  }

  /** A chunk: a span of the text, trimmed when it came out of `mergeSplits`. */
  datatype Cut = Cut(span: Span, trimmed: bool)

  function CutText(t: string, c: Cut): string
    requires Fits(t, c.span)
  {
    if c.trimmed then TrimSpace(Slice(t, c.span)) else Slice(t, c.span)
  }

  ghost predicate AllFit(t: string, cuts: seq<Cut>) {
    forall k :: 0 <= k < |cuts| ==> Fits(t, cuts[k].span)
  }

  /** `chunks` are the texts of `cuts`. */
  ghost predicate Texts(t: string, cuts: seq<Cut>, chunks: seq<string>)
    requires AllFit(t, cuts)
  {
    && |chunks| == |cuts|
    && forall k :: 0 <= k < |cuts| ==> chunks[k] == CutText(t, cuts[k])
  }

  /** Index of the first separator that is empty or occurs in `t`; `|seps|` if there is none. */
  function ChosenAt(t: string, seps: seq<string>): (k: nat)
    ensures k <= |seps|
    ensures k < |seps| ==> seps[k] == "" || Contains(t, seps[k])
    ensures forall j :: 0 <= j < k ==> seps[j] != "" && !Contains(t, seps[j])
  {
    if seps == [] || seps[0] == "" || Contains(t, seps[0]) then 0 else 1 + ChosenAt(t, seps[1..])
  }

  /** The separator to split at: the chosen one, or the last. */
  function Separator(t: string, seps: seq<string>): string
    requires seps != []
  {
    var k := ChosenAt(t, seps);
    if k < |seps| then seps[k] else seps[|seps| - 1]
  }

  /** The separators left for longer pieces. */
  function Remaining(t: string, seps: seq<string>): (r: seq<string>)
    requires seps != []
    ensures |r| < |seps|
  {
    var k := ChosenAt(t, seps);
    if k < |seps| then seps[k + 1..] else []
  }

  /** A separator to split `t` at: the empty one always, another one if it occurs in `t`. */
  ghost predicate Usable(t: string, sep: string) {
    sep == "" || exists p :: OccursAt(t, sep, p)
  }

  /** `sep` is the first usable separator and `rest` are those behind it, or `sep` is the last and none is left. */
  ghost predicate Chosen(t: string, seps: seq<string>, sep: string, rest: seq<string>) {
    || (exists k :: 0 <= k < |seps| && Usable(t, seps[k]) && (forall j :: 0 <= j < k ==> !Usable(t, seps[j]))
                    && sep == seps[k] && rest == seps[k + 1..])
    || ((forall j :: 0 <= j < |seps| ==> !Usable(t, seps[j])) && seps != [] && sep == seps[|seps| - 1] && rest == [])
  }

  lemma ContainsMeans(t: string, sep: string)
    ensures Contains(t, sep) <==> exists p :: OccursAt(t, sep, p)
  {
    hide OccursAt;
    if p :| OccursAt(t, sep, p) {
      assert p >= 0 by { OccursInside(t, sep, p); }
      assert Index(t, sep, 0) >= 0;
    }
  }

  lemma OccursInside(t: string, sep: string, p: int)
    requires OccursAt(t, sep, p)
    ensures 0 <= p
  {
  }

  lemma ChoiceIsChosen(t: string, seps: seq<string>)
    requires seps != []
    ensures Chosen(t, seps, Separator(t, seps), Remaining(t, seps))
  {
    hide Contains, Usable;
    AllUsable(t, seps);
    assert ChosenAt(t, seps) < |seps| ==> Usable(t, seps[ChosenAt(t, seps)]);
  }

  lemma AllUsable(t: string, seps: seq<string>)
    ensures forall j :: 0 <= j < |seps| ==> (Usable(t, seps[j]) <==> seps[j] == "" || Contains(t, seps[j]))
  {
    hide Contains, OccursAt;
    forall j | 0 <= j < |seps| ensures Usable(t, seps[j]) <==> seps[j] == "" || Contains(t, seps[j]) {
      ContainsMeans(t, seps[j]);
    }
  }

  /** There is only one choice. */
  lemma ChosenIsUnique(t: string, seps: seq<string>, sep: string, rest: seq<string>)
    requires seps != []
    ensures Chosen(t, seps, sep, rest) <==> sep == Separator(t, seps) && rest == Remaining(t, seps)
  {
    hide Usable, Separator, Remaining;
    ChoiceIsChosen(t, seps);
  }

  function RuneSpans(n: nat): (r: seq<Span>)
    ensures |r| == n && forall i :: 0 <= i < n ==> r[i] == Span(i, i + 1)
  {
    if n == 0 then [] else RuneSpans(n - 1) + [Span(n - 1, n)]
  }

  /** Span `i` with its start moved back over the separator before it. */
  function PrefixedAt(sp: seq<Span>, i: nat): Span
    requires i < |sp|
  {
    if i == 0 then sp[0] else Span(sp[i - 1].hi, sp[i].hi)
  }

  /** The first `n` spans, each but the first starting where the one before it ends. */
  function PrefixedFirst(sp: seq<Span>, n: nat): (r: seq<Span>)
    requires n <= |sp|
    ensures |r| == n
    ensures forall i :: 0 <= i < n ==> r[i] == PrefixedAt(sp, i)
  {
    if n == 0 then [] else PrefixedFirst(sp, n - 1) + [PrefixedAt(sp, n - 1)]
  }

  /** Moves the start of every span but the first back over the separator before it. */
  function Prefixed(sp: seq<Span>): (r: seq<Span>)
    ensures |r| == |sp|
    ensures forall i :: 0 <= i < |r| ==> r[i] == PrefixedAt(sp, i)
  {
    PrefixedFirst(sp, |sp|)
  }

  /** The separator that still stands between two pieces: none when pieces keep it, none between runes. */
  function Glue(sep: string, keep: bool): string {
    if keep then "" else sep
  }

  /** The pieces of `t`. */
  function PieceSpans(t: string, sep: string, keep: bool): seq<Span> {
    if sep == "" then RuneSpans(|t|)
    else if keep then Prefixed(SplitSpans(t, sep, 0))
    else SplitSpans(t, sep, 0)
  }

  lemma OccursEmpty(t: string, i: nat)
    requires i <= |t|
    ensures OccursAt(t, "", i)
  {
  }

  lemma RuneTiles(t: string)
    ensures Tiles(t, RuneSpans(|t|), "")
  {
    hide OccursAt, RuneSpans;
    var sp := RuneSpans(|t|);
    forall i | 0 <= i < |sp| - 1 ensures Next(sp, 0, i) && OccursAt(t, "", sp[i].hi) {
      OccursEmpty(t, sp[i].hi);
    }
  }

  lemma PrefixedTiles(t: string, sp: seq<Span>, sep: string)
    requires Tiles(t, sp, sep)
    ensures Tiles(t, Prefixed(sp), "")
  {
    var r := Prefixed(sp);
    forall i | 0 <= i < |r| ensures Fits(t, r[i]) {
      assert Fits(t, sp[i]) && r[i] == PrefixedAt(sp, i);
      if i > 0 {
        ChainOrder(sp, |sep|, i - 1, i);
      }
    }
    forall i | 0 <= i < |r| - 1 ensures Next(r, 0, i) && OccursAt(t, "", r[i].hi) {
      assert Fits(t, r[i]) && r[i] == PrefixedAt(sp, i) && r[i + 1] == PrefixedAt(sp, i + 1);
      OccursEmpty(t, r[i].hi);
    }
  }

  /** The pieces tile the whole text. */
  lemma PiecesTile(t: string, sep: string, keep: bool)
    ensures var sp := PieceSpans(t, sep, keep);
      && Tiles(t, sp, Glue(sep, keep))
      && (sp == [] ==> t == "")
      && (sp != [] ==> sp[0].lo == 0 && sp[|sp| - 1].hi == |t|)
  {
    if sep == "" {
      RuneTiles(t);
    } else {
      hide SplitSpans, Prefixed, Tiles;
      var sp := SplitSpans(t, sep, 0);
      PrefixedTiles(t, sp, sep);
      assert Prefixed(sp)[0] == PrefixedAt(sp, 0) && Prefixed(sp)[|sp| - 1] == PrefixedAt(sp, |sp| - 1);
    }
  }

  function Merged(spans: seq<Span>): (r: seq<Cut>)
    ensures |r| == |spans| && forall k :: 0 <= k < |r| ==> r[k] == Cut(spans[k], true)
  {
    if spans == [] then [] else Merged(spans[..|spans| - 1]) + [Cut(spans[|spans| - 1], true)]
  }

  /** The chunks merged out of the pieces `[g, i)`. */
  function MergeCuts(t: string, sp: seq<Span>, glue: string, cfg: Config, g: nat, i: nat): (r: seq<Cut>)
    requires Tiles(t, sp, glue) && g <= i <= |sp|
    ensures AllFit(t, r)
  {
    SubTiles(t, sp, glue, g, i);
    Merged(MergedSpans(t, sp[g..i], glue, cfg.Lim()))
  }

  function Shift(cuts: seq<Cut>, off: nat): (r: seq<Cut>)
    ensures |r| == |cuts|
    ensures forall k :: 0 <= k < |r| ==>
      r[k] == Cut(Span(cuts[k].span.lo + off, cuts[k].span.hi + off), cuts[k].trimmed)
  {
    if cuts == [] then []
    else
      var c := cuts[|cuts| - 1];
      Shift(cuts[..|cuts| - 1], off) + [Cut(Span(c.span.lo + off, c.span.hi + off), c.trimmed)]
  }

  /** The chunks of one piece that is too long to be merged. */
  function LongCuts(t: string, s: Span, rest: seq<string>, cfg: Config): (r: seq<Cut>)
    requires Fits(t, s)
    ensures AllFit(t, r)
    decreases |rest|, 1, 0
  {
    if rest == [] then [Cut(s, false)] else Shift(Cuts(Slice(t, s), rest, cfg), s.lo)
  }

  /** The chunks of the pieces from `g` on, when `[g, i)` are short pieces waiting to be merged. */
  function Walk(t: string, sp: seq<Span>, glue: string, rest: seq<string>, cfg: Config, g: nat, i: nat): (r: seq<Cut>)
    requires Tiles(t, sp, glue) && g <= i <= |sp|
    ensures AllFit(t, r)
    decreases |rest|, 2, |sp| - i
  {
    if i == |sp| then MergeCuts(t, sp, glue, cfg, g, i)
    else if sp[i].Len() < cfg.size then Walk(t, sp, glue, rest, cfg, g, i + 1)
    else MergeCuts(t, sp, glue, cfg, g, i) + LongCuts(t, sp[i], rest, cfg) + Walk(t, sp, glue, rest, cfg, i + 1, i + 1)
  }

  /** The chunks of `t` under the separators `seps`, in order. */
  function Cuts(t: string, seps: seq<string>, cfg: Config): (r: seq<Cut>)
    requires seps != []
    ensures AllFit(t, r)
    decreases |seps|, 0, 0
  {
    var sep := Separator(t, seps);
    PiecesTile(t, sep, cfg.keep);
    Walk(t, PieceSpans(t, sep, cfg.keep), Glue(sep, cfg.keep), Remaining(t, seps), cfg, 0, 0)
  }

  // ---------------------------------------------------------------- the methods of the source

  method SplitByRunes(s: string) returns (out: seq<string>)
    ensures out == Slices(s, (RuneTiles(s); RuneSpans(|s|)))
    ensures |out| == |s| && forall k :: 0 <= k < |s| ==> out[k] == [s[k]]
  {
    out := [];
    RuneTiles(s);
    for i := 0 to |s|
      invariant |out| == i && forall k :: 0 <= k < i ==> out[k] == [s[k]]
    {
      out := out + [[s[i]]];
    }
    forall k | 0 <= k < |s| ensures out[k] == Slices(s, RuneSpans(|s|))[k] {
      assert s[k..k + 1] == [s[k]];
    }
  }

  method AddSeparatorPrefixToSplits(splits: seq<string>, separator: string) returns (out: seq<string>)
    ensures |out| == |splits|
    ensures forall k :: 0 <= k < |splits| ==> out[k] == if k == 0 then splits[0] else separator + splits[k]
  {
    out := [];
    for i := 0 to |splits|
      invariant |out| == i
      invariant forall k :: 0 <= k < i ==> out[k] == if k == 0 then splits[0] else separator + splits[k]
    {
      var p := splits[i];
      if i > 0 {
        p := separator + p;
      }
      out := out + [p];
    }
  }

  /** Prefixing the separator to the pieces is moving their spans back. */
  lemma PrefixIsPrefixed(t: string, sep: string, out: seq<string>)
    requires sep != ""
    requires var splits := Split(t, sep);
      |out| == |splits| && forall k :: 0 <= k < |splits| ==> out[k] == if k == 0 then splits[0] else sep + splits[k]
    ensures Tiles(t, PieceSpans(t, sep, true), "") && out == Slices(t, PieceSpans(t, sep, true))
  {
    var sp := SplitSpans(t, sep, 0);
    PrefixedTiles(t, sp, sep);
    forall k | 0 <= k < |out| ensures out[k] == Slices(t, Prefixed(sp))[k] {
      PrefixedSlice(t, sp, sep, k);
    }
  }

  lemma PrefixedSlice(t: string, sp: seq<Span>, sep: string, k: nat)
    requires Tiles(t, sp, sep) && k < |sp|
    ensures Fits(t, sp[k]) && Fits(t, Prefixed(sp)[k])
    ensures Slice(t, Prefixed(sp)[k]) == if k == 0 then Slice(t, sp[k]) else sep + Slice(t, sp[k])
  {
    assert Fits(t, sp[k]) && Prefixed(sp)[k] == PrefixedAt(sp, k);
    if k > 0 {
      assert Next(sp, |sep|, k - 1) && OccursAt(t, sep, sp[k - 1].hi);
      ConcatSlices(t, sp[k - 1].hi, sp[k].lo, sp[k].hi);
    }
  }

  /** Cutting a text into pieces loses nothing: joining them gives it back. */
  lemma JoinPieces(t: string, sep: string, keep: bool)
    ensures Tiles(t, PieceSpans(t, sep, keep), Glue(sep, keep))
    ensures Join(Slices(t, PieceSpans(t, sep, keep)), Glue(sep, keep)) == t
  {
    hide PieceSpans, Tiles, Glue;
    PiecesTile(t, sep, keep);
    if PieceSpans(t, sep, keep) != [] {
      JoinWhole(t, PieceSpans(t, sep, keep), Glue(sep, keep));
    }
  }

  /**
   `t` cut at `sep`: into its code points, or where `strings.Split` cuts it, each piece but the first with the
   separator in front if that is kept.  Joining the pieces gives `t` back.
   */
  ghost predicate IsCutInto(t: string, sep: string, keep: bool, splits: seq<string>, glue: string) {
    && glue == (if keep then "" else sep) && Join(splits, glue) == t
    && (sep == "" ==> |splits| == |t| && forall k :: 0 <= k < |t| ==> splits[k] == [t[k]])
    && (sep != "" ==> |splits| == |Split(t, sep)| && forall k :: 0 <= k < |splits| ==>
         splits[k] == if keep && k > 0 then sep + Split(t, sep)[k] else Split(t, sep)[k])
  }

  lemma RunesAreCut(t: string, keep: bool, splits: seq<string>)
    requires |splits| == |t| && forall k :: 0 <= k < |t| ==> splits[k] == [t[k]]
    requires Tiles(t, PieceSpans(t, "", keep), "") && splits == Slices(t, PieceSpans(t, "", keep))
    ensures IsCutInto(t, "", keep, splits, "")
  {
    hide Tiles, Slices, PieceSpans, Join;
    JoinPieces(t, "", keep);
  }

  lemma PiecesAreCut(t: string, sep: string, keep: bool, splits: seq<string>)
    requires sep != "" && |splits| == |Split(t, sep)|
    requires forall k :: 0 <= k < |splits| ==> splits[k] == if keep && k > 0 then sep + Split(t, sep)[k] else Split(t, sep)[k]
    requires Tiles(t, PieceSpans(t, sep, keep), Glue(sep, keep)) && splits == Slices(t, PieceSpans(t, sep, keep))
    ensures IsCutInto(t, sep, keep, splits, Glue(sep, keep))
  {
    hide Tiles, Slices, PieceSpans, Join, Split;
    JoinPieces(t, sep, keep);
  }

  /** Cutting `t` into pieces, as the source does it. */
  method CutIntoPieces(t: string, separator: string, keep: bool) returns (splits: seq<string>, glue: string)
    ensures glue == Glue(separator, keep) && Tiles(t, PieceSpans(t, separator, keep), glue)
    ensures splits == Slices(t, PieceSpans(t, separator, keep))
    ensures IsCutInto(t, separator, keep, splits, glue)
  {
    hide Tiles, SplitSpans, RuneSpans, Prefixed, Slices, Split, IsCutInto;
    PiecesTile(t, separator, keep);
    glue := separator;
    if separator == "" {
      splits := SplitByRunes(t);
      RunesAreCut(t, keep, splits);
    } else {
      SplitIsSlices(t, separator);
      splits := Split(t, separator);
      if keep {
        splits := AddSeparatorPrefixToSplits(splits, separator);
        PrefixIsPrefixed(t, separator, splits);
        glue := "";
      }
      PiecesAreCut(t, separator, keep, splits);
    }
  }

  lemma SplitIsSlices(t: string, sep: string)
    requires sep != ""
    ensures Tiles(t, PieceSpans(t, sep, false), sep) && Split(t, sep) == Slices(t, PieceSpans(t, sep, false))
  {
  }

  method ChooseSeparator(t: string, separators: seq<string>) returns (separator: string, newSeparators: seq<string>)
    requires separators != []
    ensures separator == Separator(t, separators) && newSeparators == Remaining(t, separators)
    ensures Chosen(t, separators, separator, newSeparators)
  {
    hide Chosen, Contains, OccursAt, ChosenAt;
    ChoiceIsChosen(t, separators);
    separator, newSeparators := separators[|separators| - 1], [];
    for i := 0 to |separators|
      invariant separator == separators[|separators| - 1] && newSeparators == []
      invariant ChosenAt(t, separators) >= i
    {
      var c := separators[i];
      if c == "" || Contains(t, c) {
        return c, separators[i + 1..];
      }
    }
  }

  lemma TextsConcat(t: string, a: seq<Cut>, b: seq<Cut>, ca: seq<string>, cb: seq<string>)
    requires AllFit(t, a) && AllFit(t, b) && Texts(t, a, ca) && Texts(t, b, cb)
    ensures AllFit(t, a + b) && Texts(t, a + b, ca + cb)
  {
    hide CutText;
  }

  lemma TextsOfMerge(t: string, sp: seq<Span>, glue: string, cfg: Config, g: nat, i: nat, docs: seq<string>)
    requires Tiles(t, sp, glue) && g <= i <= |sp| && Tiles(t, sp[g..i], glue)
    requires docs == Trimmed(t, MergedSpans(t, sp[g..i], glue, cfg.Lim()))
    ensures Texts(t, MergeCuts(t, sp, glue, cfg, g, i), docs)
  {
  }

  lemma TextsOfPiece(t: string, s: Span, rest: seq<string>, cfg: Config, other: seq<string>)
    requires Fits(t, s) && rest != [] && Texts(Slice(t, s), Cuts(Slice(t, s), rest, cfg), other)
    ensures Texts(t, LongCuts(t, s, rest, cfg), other)
  {
    var cuts := Cuts(Slice(t, s), rest, cfg);
    hide CutText, Cuts;
    forall k | 0 <= k < |cuts| ensures other[k] == CutText(t, Shift(cuts, s.lo)[k]) {
      ShiftedText(t, s, cuts, k);
    }
  }

  lemma ShiftedText(t: string, s: Span, cuts: seq<Cut>, k: nat)
    requires Fits(t, s) && AllFit(Slice(t, s), cuts) && k < |cuts|
    ensures Fits(t, Shift(cuts, s.lo)[k].span)
    ensures CutText(t, Shift(cuts, s.lo)[k]) == CutText(Slice(t, s), cuts[k])
  {
    assert Fits(Slice(t, s), cuts[k].span);
    hide AllFit, Shift, CutText, Slice;
    TextOfShifted(t, s, cuts[k], Shift(cuts, s.lo)[k]);
  }

  lemma TextOfShifted(t: string, s: Span, c: Cut, d: Cut)
    requires Fits(t, s) && Fits(Slice(t, s), c.span) && d == Cut(Span(c.span.lo + s.lo, c.span.hi + s.lo), c.trimmed)
    ensures Fits(t, d.span) && CutText(t, d) == CutText(Slice(t, s), c)
  {
    hide TrimSpace;
    SliceShifted(t, s, c.span);
    hide Slice;
  }

  lemma SliceShifted(t: string, s: Span, c: Span)
    requires Fits(t, s) && Fits(Slice(t, s), c)
    ensures var d := Span(c.lo + s.lo, c.hi + s.lo); Fits(t, d) && Slice(t, d) == Slice(Slice(t, s), c)
  {
    SliceSlice(t, s.lo, s.hi, c.lo, c.hi);
  }

  /** `fin` and the chunks still to come from `(g, i)` are all the chunks of `t`. */
  ghost predicate OnWalk(t: string, sp: seq<Span>, glue: string, rest: seq<string>, cfg: Config, fin: seq<Cut>, g: nat, i: nat)
    requires Tiles(t, sp, glue)
  {
    g <= i <= |sp| && AllFit(t, fin)
    && fin + Walk(t, sp, glue, rest, cfg, g, i) == Walk(t, sp, glue, rest, cfg, 0, 0)
  }

  lemma OnWalkStep(t: string, sp: seq<Span>, glue: string, rest: seq<string>, cfg: Config, fin: seq<Cut>, g: nat, i: nat)
    requires Tiles(t, sp, glue) && OnWalk(t, sp, glue, rest, cfg, fin, g, i)
    ensures i < |sp| && sp[i].Len() < cfg.size ==> OnWalk(t, sp, glue, rest, cfg, fin, g, i + 1)
    ensures i < |sp| && sp[i].Len() >= cfg.size ==>
      OnWalk(t, sp, glue, rest, cfg, (fin + MergeCuts(t, sp, glue, cfg, g, i)) + LongCuts(t, sp[i], rest, cfg), i + 1, i + 1)
    ensures i == |sp| ==> fin + MergeCuts(t, sp, glue, cfg, g, i) == Walk(t, sp, glue, rest, cfg, 0, 0)
  {
    assert i < |sp| ==> Fits(t, sp[i]);
    hide MergeCuts, LongCuts, AllFit, Tiles;
    if i < |sp| && sp[i].Len() >= cfg.size {
      var m, l, w := MergeCuts(t, sp, glue, cfg, g, i), LongCuts(t, sp[i], rest, cfg), Walk(t, sp, glue, rest, cfg, i + 1, i + 1);
      Regroup(fin, m, l, w);
      AllFitConcat(t, fin, m);
      AllFitConcat(t, fin + m, l);
    }
  }

  lemma Regroup<T>(fin: seq<T>, m: seq<T>, l: seq<T>, w: seq<T>)
    ensures fin + (m + l + w) == ((fin + m) + l) + w
  {
  }

  lemma AllFitConcat(t: string, a: seq<Cut>, b: seq<Cut>)
    requires AllFit(t, a) && AllFit(t, b)
    ensures AllFit(t, a + b)
  {
  }

  /** The short pieces `[g, i)` merged, or nothing if there are none. */
  method MergePending(goodSplits: seq<string>, glue: string, cfg: Config, ghost t: string, ghost sp: seq<Span>, ghost g: nat, ghost i: nat)
    returns (merged: seq<string>)
    requires Tiles(t, sp, glue) && ArePieces(t, sp, glue, goodSplits, g, i)
    ensures Texts(t, MergeCuts(t, sp, glue, cfg, g, i), merged)
  {
    SubTiles(t, sp, glue, g, i);
    SliceOfSlices(t, sp, g, i);
    merged := [];
    if |goodSplits| > 0 {
      merged := MergeSplits(goodSplits, glue, cfg.size, cfg.overlap, t, sp[g..i]);
      TextsOfMerge(t, sp, glue, cfg, g, i, merged);
    }
  }

  /** The recursive splitter of the source. */
  method SplitText(t: string, separators: seq<string>, cfg: Config) returns (finalChunks: seq<string>)
    requires separators != []
    ensures Texts(t, Cuts(t, separators, cfg), finalChunks)
    decreases |separators|
  {
    hide Texts, AllFit, MergeCuts, LongCuts, OnWalk, ArePieces, Cuts, Walk, Tiles, Fits, Slices, Slice, PieceSpans, Separator;
    hide Remaining, Chosen, IsCutInto, Glue;
    CutsAreWalk(t, separators, cfg);
    var separator, newSeparators := ChooseSeparator(t, separators);
    var splits, glue := CutIntoPieces(t, separator, cfg.keep);
    ghost var sp := PieceSpans(t, separator, cfg.keep);
    ghost var g, fin := 0, [];
    finalChunks := [];
    StartWalk(t, sp, glue, newSeparators, cfg);
    var goodSplits: seq<string> := [];
    for i := 0 to |splits|
      invariant g <= i && AllFit(t, fin) && OnWalk(t, sp, glue, newSeparators, cfg, fin, g, i)
      invariant Texts(t, fin, finalChunks)
      invariant ArePieces(t, sp, glue, goodSplits, g, i)
    {
      var part := splits[i];
      PieceFits(t, sp, glue, i);
      OnWalkStep(t, sp, glue, newSeparators, cfg, fin, g, i);
      PendingStep(t, sp, glue, goodSplits, g, i);
      if |part| < cfg.size {
        goodSplits := goodSplits + [part];
      } else {
        var merged := MergePending(goodSplits, glue, cfg, t, sp, g, i);
        TextsConcat(t, fin, MergeCuts(t, sp, glue, cfg, g, i), finalChunks, merged);
        fin, finalChunks, goodSplits := fin + MergeCuts(t, sp, glue, cfg, g, i), finalChunks + merged, [];
        var other;
        if |newSeparators| == 0 {
          other := [part];
          TextsOfRawPiece(t, sp[i], cfg);
        } else {
          other := SplitText(part, newSeparators, cfg);
          TextsOfPiece(t, sp[i], newSeparators, cfg, other);
        }
        TextsConcat(t, fin, LongCuts(t, sp[i], newSeparators, cfg), finalChunks, other);
        fin, finalChunks := fin + LongCuts(t, sp[i], newSeparators, cfg), finalChunks + other;
        g := i + 1;
      }
    }
    OnWalkStep(t, sp, glue, newSeparators, cfg, fin, g, |splits|);
    var merged := MergePending(goodSplits, glue, cfg, t, sp, g, |splits|);
    TextsConcat(t, fin, MergeCuts(t, sp, glue, cfg, g, |splits|), finalChunks, merged);
    finalChunks := finalChunks + merged;
  }

  lemma CutsAreWalk(t: string, seps: seq<string>, cfg: Config)
    requires seps != []
    ensures var sep := Separator(t, seps);
      && Tiles(t, PieceSpans(t, sep, cfg.keep), Glue(sep, cfg.keep))
      && Cuts(t, seps, cfg) == Walk(t, PieceSpans(t, sep, cfg.keep), Glue(sep, cfg.keep), Remaining(t, seps), cfg, 0, 0)
  {
    PiecesTile(t, Separator(t, seps), cfg.keep);
  }

  lemma PieceFits(t: string, sp: seq<Span>, glue: string, i: nat)
    requires Tiles(t, sp, glue) && i < |sp|
    ensures Fits(t, sp[i]) && Slices(t, sp)[i] == Slice(t, sp[i]) && |Slices(t, sp)[i]| == sp[i].Len()
  {
  }

  lemma StartWalk(t: string, sp: seq<Span>, glue: string, rest: seq<string>, cfg: Config)
    requires Tiles(t, sp, glue)
    ensures AllFit(t, []) && Texts(t, [], []) && OnWalk(t, sp, glue, rest, cfg, [], 0, 0) && ArePieces(t, sp, glue, [], 0, 0)
  {
  }

  lemma PendingStep(t: string, sp: seq<Span>, glue: string, goodSplits: seq<string>, g: nat, i: nat)
    requires Tiles(t, sp, glue) && ArePieces(t, sp, glue, goodSplits, g, i) && i < |sp|
    ensures ArePieces(t, sp, glue, goodSplits + [Slices(t, sp)[i]], g, i + 1) && ArePieces(t, sp, glue, [], i + 1, i + 1)
  {
  }

  lemma TextsOfRawPiece(t: string, s: Span, cfg: Config)
    requires Fits(t, s)
    ensures Texts(t, LongCuts(t, s, [], cfg), [Slice(t, s)])
  {
  }
}
