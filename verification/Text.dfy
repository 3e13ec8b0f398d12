/**
 Strings as sequences of code points, and the library string operations the chunker relies on:
 leftmost search, `Split`, `Join`, `TrimSpace`.  Every operation is described both on strings and on
 spans (index ranges) of one fixed text, so that later proofs are about indices only.
 */
module Text {

  datatype Result<+T, +E> = Ok(value: T) | Err(error: E)

  /** The half-open index range `[lo, hi)`. */
  datatype Span = Span(lo: nat, hi: nat) {
    function Len(): int {
      hi - lo
    }
  }

  /** Unicode `White_Space`. */
  predicate IsSpace(c: char) {
    var n := c as int;
    || 0x09 <= n <= 0x0D || n == 0x20 || n == 0x85 || n == 0xA0 || n == 0x1680 || 0x2000 <= n <= 0x200A
    || n == 0x2028 || n == 0x2029 || n == 0x202F || n == 0x205F || n == 0x3000
  }

  ghost predicate Fits(t: string, s: Span) {
    s.lo <= s.hi <= |t|
  }

  function Slice(t: string, s: Span): (r: string)
    requires Fits(t, s)
    ensures |r| == s.Len()
    ensures r == t[s.lo..s.hi]
  {
    t[s.lo..s.hi]
  }

  /** The first position in `[lo, hi)` that is not white space, or `hi`. */
  function SkipSpaces(t: string, lo: nat, hi: nat): (r: nat)
    requires lo <= hi <= |t|
    ensures lo <= r <= hi
    ensures forall p :: lo <= p < r ==> IsSpace(t[p])
    ensures r < hi ==> !IsSpace(t[r])
    decreases hi - lo
  {
    if lo < hi && IsSpace(t[lo]) then SkipSpaces(t, lo + 1, hi) else lo
  }

  /** One past the last position in `[lo, hi)` that is not white space, or `lo`. */
  function DropSpaces(t: string, lo: nat, hi: nat): (r: nat)
    requires lo <= hi <= |t|
    ensures lo <= r <= hi
    ensures forall p :: r <= p < hi ==> IsSpace(t[p])
    ensures lo < r ==> !IsSpace(t[r - 1])
    decreases hi - lo
  {
    if lo < hi && IsSpace(t[hi - 1]) then DropSpaces(t, lo, hi - 1) else hi
  }

  /** Narrows a span past the white space at both of its ends. */
  function TrimSpan(t: string, s: Span): (r: Span)
    requires Fits(t, s)
    ensures s.lo <= r.lo <= r.hi <= s.hi
  {
    var lo := SkipSpaces(t, s.lo, s.hi);
    Span(lo, DropSpaces(t, lo, s.hi))
  }

  /** Trimming removes white space only, and all of it at both ends. */
  lemma TrimSpanEnds(t: string, s: Span)
    requires Fits(t, s)
    ensures var r := TrimSpan(t, s);
      && (forall p :: s.lo <= p < r.lo || r.hi <= p < s.hi ==> IsSpace(t[p]))
      && (r.lo < r.hi ==> !IsSpace(t[r.lo]) && !IsSpace(t[r.hi - 1]))
  {
  }

  /** `strings.TrimSpace`. */
  function TrimSpace(s: string): string {
    Slice(s, TrimSpan(s, Span(0, |s|)))
  }

  /** A field, or its default if it is blank. */
  function OrDefault(own: string, fallback: string): string {
    if TrimSpace(own) == "" then TrimSpace(fallback) else TrimSpace(own)
  }

  lemma {:induction false} SkipSpacesShift(t: string, w: Span, lo: nat, hi: nat)
    requires Fits(t, w) && lo <= hi <= w.Len()
    ensures SkipSpaces(t, w.lo + lo, w.lo + hi) == w.lo + SkipSpaces(Slice(t, w), lo, hi)
    decreases hi - lo
  {
    if lo < hi {
      assert Slice(t, w)[lo] == t[w.lo + lo];
      SkipSpacesShift(t, w, lo + 1, hi);
    }
  }

  lemma {:induction false} DropSpacesShift(t: string, w: Span, lo: nat, hi: nat)
    requires Fits(t, w) && lo <= hi <= w.Len()
    ensures DropSpaces(t, w.lo + lo, w.lo + hi) == w.lo + DropSpaces(Slice(t, w), lo, hi)
    decreases hi - lo
  {
    if lo < hi {
      assert Slice(t, w)[hi - 1] == t[w.lo + hi - 1];
      DropSpacesShift(t, w, lo, hi - 1);
    }
  }

  /** Trimming the text of a span is taking the text of the trimmed span. */
  lemma TrimSpanIsTrimSpace(t: string, s: Span)
    requires Fits(t, s)
    ensures TrimSpace(Slice(t, s)) == Slice(t, TrimSpan(t, s))
  {
    hide IsSpace, SkipSpaces, DropSpaces;
    var r := TrimSpan(Slice(t, s), Span(0, s.Len()));
    SkipSpacesShift(t, s, 0, s.Len());
    DropSpacesShift(t, s, r.lo, s.Len());
    SliceSlice(t, s.lo, s.hi, r.lo, r.hi);
  }

  lemma TrimTwice(s: string)
    ensures TrimSpace(TrimSpace(s)) == TrimSpace(s)
  {
    hide IsSpace;
    var r := TrimSpan(s, Span(0, |s|));
    TrimSpanEnds(s, Span(0, |s|));
    TrimSpanIsTrimSpace(s, r);
    assert TrimSpan(s, r) == r;
  }

  lemma PrefixStep<T>(s: seq<T>, n: nat)
    requires n < |s|
    ensures s[..n + 1] == s[..n] + [s[n]]
  {
  }

  lemma SliceSlice<T>(t: seq<T>, lo: nat, hi: nat, a: nat, b: nat)
    requires lo <= hi <= |t| && a <= b <= hi - lo
    ensures t[lo..hi][a..b] == t[lo + a..lo + b]
  {
    assert |t[lo..hi][a..b]| == |t[lo + a..lo + b]|;
    assert forall i :: 0 <= i < b - a ==> t[lo..hi][a..b][i] == t[lo + a..lo + b][i];
  }

  /** The first `n` elements, or all of them. */
  function Take<T>(s: seq<T>, n: nat): (r: seq<T>)
    ensures r <= s && |r| <= n && (|r| < n ==> r == s)
  {
    if |s| <= n then s else s[..n]
  }

  /** The batch of at most `size` elements from `start` on. */
  function Batch<T>(s: seq<T>, size: nat, start: nat): (r: seq<T>)
    requires start <= |s|
    ensures |r| == if start + size <= |s| then size else |s| - start
  {
    s[start..if start + size <= |s| then start + size else |s|]
  }

  /** `pat` stands in `t` at index `i`. */
  ghost predicate OccursAt<T>(t: seq<T>, pat: seq<T>, i: int) {
    0 <= i <= i + |pat| <= |t| && t[i..i + |pat|] == pat
  }

  /** Leftmost occurrence at or after `from`, or -1. */
  function Index<T(==)>(t: seq<T>, pat: seq<T>, from: nat): (r: int)
    ensures r >= 0 ==> from <= r && OccursAt(t, pat, r)
    ensures r >= 0 ==> forall j :: from <= j < r ==> !OccursAt(t, pat, j)
    ensures r < 0 ==> forall j :: from <= j ==> !OccursAt(t, pat, j)
    decreases |t| - from
  {
    if from + |pat| > |t| then -1
    else if t[from..from + |pat|] == pat then from
    else Index(t, pat, from + 1)
  }

  predicate Contains(t: string, pat: string) {
    Index(t, pat, 0) >= 0
  }

  /** `strings.Join` of the first `n` parts. */
  function JoinFirst(parts: seq<string>, n: nat, sep: string): string
    requires n <= |parts|
  {
    if n == 0 then ""
    else if n == 1 then parts[0]
    else JoinFirst(parts, n - 1, sep) + (sep + parts[n - 1])
  }

  function Join(parts: seq<string>, sep: string): string {
    JoinFirst(parts, |parts|, sep)
  }

  function SlicesFirst(t: string, spans: seq<Span>, n: nat): (r: seq<string>)
    requires n <= |spans| && forall i :: 0 <= i < |spans| ==> Fits(t, spans[i])
    ensures |r| == n
    ensures forall i :: 0 <= i < n ==> r[i] == Slice(t, spans[i])
  {
    if n == 0 then [] else SlicesFirst(t, spans, n - 1) + [Slice(t, spans[n - 1])]
  }

  /** The texts of a sequence of spans. */
  function Slices(t: string, spans: seq<Span>): (r: seq<string>)
    requires forall i :: 0 <= i < |spans| ==> Fits(t, spans[i])
    ensures |r| == |spans|
    ensures forall i :: 0 <= i < |r| ==> r[i] == Slice(t, spans[i])
  {
    SlicesFirst(t, spans, |spans|)
  }

  /** Span `i + 1` starts `gap` positions after span `i` ends. */
  ghost predicate Next(spans: seq<Span>, gap: nat, i: nat)
    requires i + 1 < |spans|
  {
    spans[i + 1].lo == spans[i].hi + gap
  }

  /** Spans laid side by side, `gap` positions apart. */
  ghost predicate Chain(spans: seq<Span>, gap: nat) {
    && (forall i :: 0 <= i < |spans| ==> spans[i].lo <= spans[i].hi)
    && forall i :: 0 <= i < |spans| - 1 ==> Next(spans, gap, i)
  }

  /** A chain of spans of `t` whose gaps are occurrences of `sep`. */
  ghost predicate Tiles(t: string, spans: seq<Span>, sep: string) {
    && Chain(spans, |sep|)
    && (forall i :: 0 <= i < |spans| ==> Fits(t, spans[i]))
    && forall i :: 0 <= i < |spans| - 1 ==> OccursAt(t, sep, spans[i].hi)
  }

  lemma {:induction false} ChainOrder(spans: seq<Span>, gap: nat, i: nat, j: nat)
    requires Chain(spans, gap) && i <= j < |spans|
    ensures spans[i].lo <= spans[j].lo && spans[i].hi <= spans[j].hi
    ensures i < j ==> spans[i].hi + gap <= spans[j].lo
    decreases j - i
  {
    assert spans[j].lo <= spans[j].hi;
    if i < j {
      ChainOrder(spans, gap, i, j - 1);
      assert Next(spans, gap, j - 1);
    }
  }

  lemma SliceOfSlices(t: string, spans: seq<Span>, a: nat, b: nat)
    requires (forall i :: 0 <= i < |spans| ==> Fits(t, spans[i])) && a <= b <= |spans|
    ensures Slices(t, spans[a..b]) == Slices(t, spans)[a..b]
  {
  }

  lemma SubTiles(t: string, spans: seq<Span>, sep: string, a: nat, b: nat)
    requires Tiles(t, spans, sep) && a <= b <= |spans|
    ensures Tiles(t, spans[a..b], sep)
  {
    var sub := spans[a..b];
    forall i | 0 <= i < |sub| - 1 ensures Next(sub, |sep|, i) {
      assert Next(spans, |sep|, a + i);
    }
  }

  lemma ConcatSlices<T>(t: seq<T>, a: nat, b: nat, c: nat)
    requires a <= b <= c <= |t|
    ensures t[a..b] + t[b..c] == t[a..c]
  {
  }

  /** Joining the first `n` pieces gives back the stretch of text they came from. */
  lemma {:induction false} JoinTiles(t: string, spans: seq<Span>, sep: string, n: nat)
    requires Tiles(t, spans, sep) && 0 < n <= |spans|
    ensures spans[0].lo <= spans[n - 1].hi <= |t|
    ensures JoinFirst(Slices(t, spans), n, sep) == t[spans[0].lo..spans[n - 1].hi]
  {
    assert Fits(t, spans[n - 1]);
    if n > 1 {
      JoinTiles(t, spans, sep, n - 1);
      assert Next(spans, |sep|, n - 2) && OccursAt(t, sep, spans[n - 2].hi);
      var x, y := spans[n - 2], spans[n - 1];
      ConcatSlices(t, x.hi, y.lo, y.hi);
      ConcatSlices(t, spans[0].lo, x.hi, y.hi);
    }
  }

  lemma JoinWhole(t: string, spans: seq<Span>, sep: string)
    requires Tiles(t, spans, sep) && spans != [] && spans[0].lo == 0 && spans[|spans| - 1].hi == |t|
    ensures Join(Slices(t, spans), sep) == t
  {
    JoinTiles(t, spans, sep, |spans|);
  }

  /** The spans between the leftmost non-overlapping occurrences of `sep` at or after `from`. */
  function SplitSpans(t: string, sep: string, from: nat): (r: seq<Span>)
    requires sep != "" && from <= |t|
    ensures r != [] && r[0].lo == from && r[|r| - 1].hi == |t|
    ensures Tiles(t, r, sep)
    decreases |t| - from
  {
    var j := Index(t, sep, from);
    if j < 0 then [Span(from, |t|)]
    else
      var rest := SplitSpans(t, sep, j + |sep|);
      var r := [Span(from, j)] + rest;
      assert forall i :: 0 <= i < |r| - 1 ==> Next(r, |sep|, i) && OccursAt(t, sep, r[i].hi) by {
        forall i | 0 <= i < |r| - 1 ensures Next(r, |sep|, i) && OccursAt(t, sep, r[i].hi) {
          if i > 0 {
            assert Next(rest, |sep|, i - 1) && OccursAt(t, sep, rest[i - 1].hi);
          }
        }
      }
      r
  }

  /** `strings.Split` for a non-empty separator. */
  function Split(t: string, sep: string): seq<string>
    requires sep != ""
  {
    Slices(t, SplitSpans(t, sep, 0))
  }

  /** No occurrence of the separator starts in a piece of a split: it is cut at the leftmost ones. */
  lemma {:induction false} SplitPiecesFree(t: string, sep: string, from: nat, i: nat, p: nat)
    requires sep != "" && from <= |t|
    requires i < |SplitSpans(t, sep, from)|
    requires var s := SplitSpans(t, sep, from)[i]; s.lo <= p < s.hi
    ensures !OccursAt(t, sep, p)
    decreases |t| - from
  {
    hide Tiles;
    var j := Index(t, sep, from);
    if j >= 0 && i > 0 {
      SplitPiecesFree(t, sep, j + |sep|, i - 1, p);
    }
  }

  /** Spans of `t` from `from` to its end, with the separator between any two and starting in none of them. */
  ghost predicate LeftmostCut(t: string, sep: string, from: nat, spans: seq<Span>) {
    && Tiles(t, spans, sep)
    && spans != [] && spans[0].lo == from && spans[|spans| - 1].hi == |t|
    && forall i, p :: 0 <= i < |spans| && spans[i].lo <= p < spans[i].hi ==> !OccursAt(t, sep, p)
  }

  lemma SplitIsLeftmostCut(t: string, sep: string, from: nat)
    requires sep != "" && from <= |t|
    ensures LeftmostCut(t, sep, from, SplitSpans(t, sep, from))
  {
    hide Tiles, OccursAt;
    var spans := SplitSpans(t, sep, from);
    forall i, p | 0 <= i < |spans| && spans[i].lo <= p < spans[i].hi ensures !OccursAt(t, sep, p) {
      SplitPiecesFree(t, sep, from, i, p);
    }
  }

  /** Those properties leave one way to cut a text at a separator: the one of `strings.Split`. */
  lemma {:induction false} SplitIsUnique(t: string, sep: string, from: nat, spans: seq<Span>)
    requires sep != "" && from <= |t|
    ensures LeftmostCut(t, sep, from, spans) <==> spans == SplitSpans(t, sep, from)
    decreases |t| - from
  {
    hide LeftmostCut, Tiles, OccursAt;
    SplitIsLeftmostCut(t, sep, from);
    if LeftmostCut(t, sep, from, spans) {
      FirstOfLeftmostCut(t, sep, from, spans);
      if |spans| > 1 {
        SplitIsUnique(t, sep, spans[0].hi + |sep|, spans[1..]);
        assert spans == [spans[0]] + spans[1..];
      } else {
        assert spans == [spans[0]];
      }
    }
  }

  /** The first span ends at the leftmost occurrence, and the others cut what is behind it. */
  lemma FirstOfLeftmostCut(t: string, sep: string, from: nat, spans: seq<Span>)
    requires sep != "" && from <= |t| && LeftmostCut(t, sep, from, spans)
    ensures spans != [] && spans[0].lo == from && (|spans| == 1 ==> spans[0].hi == |t|)
    ensures if |spans| > 1 then Index(t, sep, from) == spans[0].hi else Index(t, sep, from) < 0
    ensures |spans| > 1 ==> spans[0].hi + |sep| <= |t| && from <= spans[0].hi && LeftmostCut(t, sep, spans[0].hi + |sep|, spans[1..])
  {
    assert spans[0].lo <= spans[0].hi;
    var j := Index(t, sep, from);
    if |spans| > 1 {
      assert OccursAt(t, sep, spans[0].hi) && Next(spans, |sep|, 0);
      var rest := spans[1..];
      assert spans[1..|spans|] == rest;
      SubTiles(t, spans, sep, 1, |spans|);
      hide Tiles;
      forall i, p | 0 <= i < |rest| && rest[i].lo <= p < rest[i].hi ensures !OccursAt(t, sep, p) {
        assert rest[i] == spans[i + 1];
      }
    }
  }

  /** `strings.Join` undoes `strings.Split`. */
  lemma JoinSplit(t: string, sep: string)
    requires sep != ""
    ensures Join(Split(t, sep), sep) == t
  {
    JoinWhole(t, SplitSpans(t, sep, 0), sep);
  }
}
