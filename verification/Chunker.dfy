/**
 `ChunkTextRecursively`: protect decimal points, split, restore them, trim, drop blank chunks.
 The chunks are described by windows of the text; the laws below are about every text and all options.
 */
module Chunker {
  import opened Text
  import opened Decimal
  import opened Merging
  import opened MergeLaws
  import opened RecursiveSplit
  import opened SplitLaws

  datatype Options = Options(chunkSize: int, chunkOverlap: int, separators: seq<string>, keepSeparator: bool)

  datatype ChunkError = OverlapNotBelowSize(overlap: int, size: int)

  const DEFAULT_SEPARATORS: seq<string> := [
    "\n\n", "\n", ".", "?", "!", "\U{3002}", "\U{FF1F}", "\U{FF01}", " ", ""
  ]

  function EffectiveSize(o: Options): (r: int)
    ensures r > 0 && (o.chunkSize > 0 ==> r == o.chunkSize) && (o.chunkSize <= 0 ==> r == 768)
  {
    if o.chunkSize <= 0 then 768 else o.chunkSize
  }

  function EffectiveOverlap(o: Options): (r: int)
    ensures r >= 0 && (o.chunkOverlap >= 0 ==> r == o.chunkOverlap) && (o.chunkOverlap < 0 ==> r == 0)
  {
    if o.chunkOverlap < 0 then 0 else o.chunkOverlap
  }

  function EffectiveSeparators(o: Options): (r: seq<string>)
    ensures r != [] && (o.separators != [] ==> r == o.separators)
  {
    if o.separators == [] then DEFAULT_SEPARATORS else o.separators
  }

  function Cfg(o: Options): Config {
    Config(EffectiveSize(o), EffectiveOverlap(o), o.keepSeparator)
  }

  /** The spans of the cuts `[0, n)` that show something once the placeholders are full stops again. */
  function VisibleFirst(u: string, cuts: seq<Cut>, n: nat): (r: seq<Span>)
    requires n <= |cuts| && AllFit(u, cuts)
    ensures |r| <= n && forall k :: 0 <= k < |r| ==> Fits(u, r[k]) && !Blank(u, r[k])
  {
    if n == 0 then []
    else VisibleFirst(u, cuts, n - 1) + if Blank(u, cuts[n - 1].span) then [] else [cuts[n - 1].span]
  }

  lemma AllFitSameLength(t: string, u: string, cuts: seq<Cut>)
    requires |t| == |u| && AllFit(t, cuts)
    ensures AllFit(u, cuts)
  {
    forall k | 0 <= k < |cuts| ensures Fits(u, cuts[k].span) {
      assert Fits(t, cuts[k].span);
    }
  }

  /** The windows of a text: one for each chunk. */
  function Windows(text: string, o: Options, nd: char -> bool): (r: seq<Span>)
    ensures forall k :: 0 <= k < |r| ==> Fits(Unprotect(text), r[k]) && !Blank(Unprotect(text), r[k])
  {
    var cuts := Cuts(Protect(text, nd), EffectiveSeparators(o), Cfg(o));
    AllFitSameLength(Protect(text, nd), Unprotect(text), cuts);
    VisibleFirst(Unprotect(text), cuts, |cuts|)
  }

  /** The chunks of a text: its windows, trimmed. */
  function Chunks(text: string, o: Options, nd: char -> bool): seq<string> {
    Trimmed(Unprotect(text), Windows(text, o, nd))
  }

  // ---------------------------------------------------------------- the method of the source

  lemma PlaceholderIsNoSpace()
    ensures !IsSpace(PLACEHOLDER) && !IsSpace('.')
  {
  }

  /** Restoring full stops moves no white space. */
  lemma {:induction false} SameSkip(p: string, lo: nat, hi: nat)
    requires lo <= hi <= |p|
    ensures SkipSpaces(p, lo, hi) == SkipSpaces(Unprotect(p), lo, hi)
    decreases hi - lo
  {
    PlaceholderIsNoSpace();
    if lo < hi {
      SameSkip(p, lo + 1, hi);
    }
  }

  lemma {:induction false} SameDrop(p: string, lo: nat, hi: nat)
    requires lo <= hi <= |p|
    ensures DropSpaces(p, lo, hi) == DropSpaces(Unprotect(p), lo, hi)
    decreases hi - lo
  {
    PlaceholderIsNoSpace();
    if lo < hi {
      SameDrop(p, lo, hi - 1);
    }
  }

  lemma SameTrim(p: string, s: Span)
    requires Fits(p, s)
    ensures TrimSpan(p, s) == TrimSpan(Unprotect(p), s)
  {
    SameSkip(p, s.lo, s.hi);
    SameDrop(p, SkipSpaces(p, s.lo, s.hi), s.hi);
  }

  lemma UnprotectSlice(p: string, s: Span)
    requires Fits(p, s)
    ensures Unprotect(Slice(p, s)) == Slice(Unprotect(p), s)
  {
  }

  /** A trimmed span has nothing left to trim. */
  lemma TrimSpanTwice(t: string, s: Span)
    requires Fits(t, s)
    ensures TrimSpan(t, TrimSpan(t, s)) == TrimSpan(t, s)
  {
    hide IsSpace;
    TrimSpanEnds(t, s);
  }

  /** Restoring full stops in a chunk and trimming it gives the trimmed window of the restored text. */
  lemma RestoreChunk(p: string, c: Cut)
    requires Fits(p, c.span)
    ensures TrimSpace(Unprotect(CutText(p, c))) == TrimSpace(Slice(Unprotect(p), c.span))
  {
    hide TrimSpan, TrimSpace, Unprotect;
    var u := Unprotect(p);
    UnprotectLength(p);
    if c.trimmed {
      var r := TrimSpan(p, c.span);
      TrimSpanIsTrimSpace(p, c.span);
      UnprotectSlice(p, r);
      SameTrim(p, c.span);
      TrimSpanIsTrimSpace(u, c.span);
      TrimSpanIsTrimSpace(u, r);
      TrimSpanTwice(u, c.span);
    } else {
      UnprotectSlice(p, c.span);
    }
  }

  lemma UnprotectLength(p: string)
    ensures |Unprotect(p)| == |p|
  {
  }

  /** A trimmed text is empty exactly when its span is blank. */
  lemma EmptyIffBlank(t: string, s: Span)
    requires Fits(t, s)
    ensures TrimSpace(Slice(t, s)) == "" <==> Blank(t, s)
  {
    TrimSpanIsTrimSpace(t, s);
  }

  method ChunkTextRecursively(text: string, o: Options, nd: char -> bool) returns (r: Result<seq<string>, ChunkError>)
    ensures r == if EffectiveOverlap(o) >= EffectiveSize(o) then Err(OverlapNotBelowSize(EffectiveOverlap(o), EffectiveSize(o)))
                 else Ok(Chunks(text, o, nd))
  {
    var size := o.chunkSize;
    if size <= 0 {
      size := 768;
    }
    var overlap := o.chunkOverlap;
    if overlap < 0 {
      overlap := 0;
    }
    if overlap >= size {
      return Err(OverlapNotBelowSize(overlap, size));
    }
    var seps := o.separators;
    if |seps| == 0 {
      seps := DEFAULT_SEPARATORS;
    }
    var protected := Protect(text, nd);
    var raw := SplitText(protected, seps, Config(size, overlap, o.keepSeparator));
    ghost var cuts := Cuts(protected, seps, Config(size, overlap, o.keepSeparator));
    UnprotectProtect(text, nd);
    UnprotectLength(protected);
    AllFitSameLength(protected, Unprotect(protected), cuts);
    var out := RestoreChunks(protected, raw, cuts);
    r := Ok(out);
  }

  /** The last loop of the source: restore, trim, drop what is empty. */
  method RestoreChunks(protected: string, raw: seq<string>, ghost cuts: seq<Cut>) returns (out: seq<string>)
    requires AllFit(protected, cuts) && AllFit(Unprotect(protected), cuts) && Texts(protected, cuts, raw)
    ensures out == Trimmed(Unprotect(protected), VisibleFirst(Unprotect(protected), cuts, |cuts|))
  {
    hide TrimSpace, Blank, CutText, Unprotect;
    ghost var u := Unprotect(protected);
    out := [];
    TrimmedNothing(u);
    for i := 0 to |raw|
      invariant out == Trimmed(u, VisibleFirst(u, cuts, i))
    {
      assert Fits(protected, cuts[i].span) && Fits(u, cuts[i].span) && raw[i] == CutText(protected, cuts[i]);
      RestoreChunk(protected, cuts[i]);
      EmptyIffBlank(u, cuts[i].span);
      var c := TrimSpace(Unprotect(raw[i]));
      if c != "" {
        TrimmedStep(u, VisibleFirst(u, cuts, i), cuts[i].span);
        out := out + [c];
      } else {
        assert VisibleFirst(u, cuts, i) + [] == VisibleFirst(u, cuts, i);
      }
    }
  }

  lemma TrimmedNothing(t: string)
    ensures Trimmed(t, []) == []
  {
  }

  // ---------------------------------------------------------------- laws

  predicate Accepted(o: Options) {
    EffectiveOverlap(o) < EffectiveSize(o)
  }

  /** Visible windows come from cuts, two of them in the same order. */
  lemma {:induction false} VisibleOrigins(u: string, cuts: seq<Cut>, n: nat, i: nat, j: nat) returns (k: nat, l: nat)
    requires n <= |cuts| && AllFit(u, cuts) && i <= j < |VisibleFirst(u, cuts, n)|
    ensures k <= l < n && (i < j ==> k < l)
    ensures VisibleFirst(u, cuts, n)[i] == cuts[k].span && VisibleFirst(u, cuts, n)[j] == cuts[l].span
  {
    hide Blank;
    var m := |VisibleFirst(u, cuts, n - 1)|;
    if j < m {
      k, l := VisibleOrigins(u, cuts, n - 1, i, j);
    } else if i < m {
      k, l := VisibleOrigins(u, cuts, n - 1, i, i);
      l := n - 1;
    } else {
      k, l := n - 1, n - 1;
    }
  }

  lemma {:induction false} VisibleHas(u: string, cuts: seq<Cut>, n: nat, k: nat) returns (j: nat)
    requires n <= |cuts| && AllFit(u, cuts) && k < n && !Blank(u, cuts[k].span)
    ensures j < |VisibleFirst(u, cuts, n)| && VisibleFirst(u, cuts, n)[j] == cuts[k].span
  {
    hide Blank;
    if k < n - 1 {
      j := VisibleHas(u, cuts, n - 1, k);
    } else {
      j := |VisibleFirst(u, cuts, n - 1)|;
    }
  }

  /** With no placeholder in the text, the windows are windows of the text itself. */
  lemma RestoredText(text: string, nd: char -> bool)
    ensures |Unprotect(text)| == |Protect(text, nd)| == |text|
    ensures Unprotect(text) == text <==> PLACEHOLDER !in text
  {
    UnprotectProtect(text, nd);
  }

  /**
   Any two windows are in order: neither start nor end goes back, at most `overlap` code points are shared,
   and starts strictly increase when separators are kept.
   */
  lemma WindowsInOrder(text: string, o: Options, nd: char -> bool, i: nat, j: nat)
    requires Accepted(o) && i < j < |Windows(text, o, nd)|
    ensures var w := Windows(text, o, nd); InOrder(w[i], w[j], EffectiveOverlap(o), o.keepSeparator)
  {
    hide Cuts;
    var p, u := Protect(text, nd), Unprotect(text);
    var cuts := Cuts(p, EffectiveSeparators(o), Cfg(o));
    AllFitSameLength(p, u, cuts);
    CutsOrdered(p, EffectiveSeparators(o), Cfg(o));
    var k, l := VisibleOrigins(u, cuts, |cuts|, i, j);
    assert InOrder(cuts[k].span, cuts[l].span, EffectiveOverlap(o), o.keepSeparator);
  }

  function LongestSeparator(seps: seq<string>): (m: nat)
    ensures Bounds(seps, m) && (seps != [] ==> exists j :: 0 <= j < |seps| && |seps[j]| == m)
  {
    if seps == [] then 0
    else
      var m := LongestSeparator(seps[..|seps| - 1]);
      var n := |seps[|seps| - 1]|;
      assert Bounds(seps, if n > m then n else m) by {
        forall j | 0 <= j < |seps| ensures |seps[j]| <= if n > m then n else m {
          if j < |seps| - 1 {
            assert |seps[..|seps| - 1][j]| <= m;
          }
        }
      }
      if n > m || |seps| == 1 then n
      else
        assert exists j :: 0 <= j < |seps| && |seps[j]| == m by {
          var j :| 0 <= j < |seps| - 1 && |seps[..|seps| - 1][j]| == m;
          assert |seps[j]| == m;
        }
        m
  }

  /** No chunk is longer than the chunk size; without kept separators, plus the longest separator. */
  lemma ChunksWithinSize(text: string, o: Options, nd: char -> bool, i: nat)
    requires Accepted(o) && "" in EffectiveSeparators(o) && i < |Chunks(text, o, nd)|
    ensures |Chunks(text, o, nd)[i]| <=
            EffectiveSize(o) + if o.keepSeparator then 0 else LongestSeparator(EffectiveSeparators(o))
  {
    hide Cuts, TrimSpace, LongestSeparator;
    var p, u := Protect(text, nd), Unprotect(text);
    var cuts := Cuts(p, EffectiveSeparators(o), Cfg(o));
    AllFitSameLength(p, u, cuts);
    var m := LongestSeparator(EffectiveSeparators(o));
    CutsSize(p, EffectiveSeparators(o), Cfg(o), m);
    var k, l := VisibleOrigins(u, cuts, |cuts|, i, i);
    assert cuts[k].span.Len() <= EffectiveSize(o) + Slack(Cfg(o), m);
    TrimSpanIsTrimSpace(u, cuts[k].span);
  }

  /** What the chunk of window `w` shows: the span of the text that it spells. */
  function Body(text: string, w: Span): (b: Span)
    requires Fits(Unprotect(text), w)
    ensures Fits(Unprotect(text), b)
  {
    TrimSpan(Unprotect(text), w)
  }

  /** Every chunk is exactly the stretch of the restored text at its body, and is not empty. */
  lemma ChunkIsBody(text: string, o: Options, nd: char -> bool, i: nat)
    requires i < |Windows(text, o, nd)|
    ensures var w := Windows(text, o, nd)[i]; var b := Body(text, w);
      && Chunks(text, o, nd)[i] == Slice(Unprotect(text), b)
      && w.lo <= b.lo < b.hi <= w.hi
  {
    hide Windows, TrimSpace;
    TrimSpanIsTrimSpace(Unprotect(text), Windows(text, o, nd)[i]);
    assert !Blank(Unprotect(text), Windows(text, o, nd)[i]);
  }

  /** Every visible code point is in some chunk; without kept separators it may be part of one that was cut out. */
  lemma EveryVisibleCodePointKept(text: string, o: Options, nd: char -> bool, p: nat)
    requires p < |text| && !IsSpace(Unprotect(text)[p])
    ensures (exists i :: 0 <= i < |Windows(text, o, nd)| &&
              var b := Body(text, Windows(text, o, nd)[i]); b.lo <= p < b.hi)
         || (!o.keepSeparator && InSeparator(Protect(text, nd), EffectiveSeparators(o), p))
  {
    hide Cuts, IsSpace, InSeparator;
    var t, u := Protect(text, nd), Unprotect(text);
    var cuts := Cuts(t, EffectiveSeparators(o), Cfg(o));
    AllFitSameLength(t, u, cuts);
    UnprotectProtect(text, nd);
    PlaceholderIsNoSpace();
    assert !IsSpace(t[p]);
    CutsCover(t, EffectiveSeparators(o), Cfg(o), p);
    if Covered(cuts, p) {
      var k :| 0 <= k < |cuts| && cuts[k].span.lo <= p < cuts[k].span.hi;
      VisibleNotBlank(u, cuts[k].span, p);
      var j := VisibleHas(u, cuts, |cuts|, k);
      TrimSpanEnds(u, cuts[k].span);
      assert Windows(text, o, nd)[j] == cuts[k].span;
    }
  }

  /** With no overlap, chunks are disjoint: each body starts after the one before it ends. */
  lemma NoOverlapBodiesAdvance(text: string, o: Options, nd: char -> bool, i: nat, j: nat)
    requires Accepted(o) && EffectiveOverlap(o) == 0 && i < j < |Windows(text, o, nd)|
    ensures var w := Windows(text, o, nd); Body(text, w[i]).hi <= Body(text, w[j]).lo
  {
    hide Windows;
    WindowsInOrder(text, o, nd, i, j);
  }
}
