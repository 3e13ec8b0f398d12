/**
 The batch side of the rewriter: code fences, JSON, lines; and how what was streamed relates to what is parsed.
 JSON decoding is a parameter.
 */
module QueryParsing {
  import opened Text
  import opened QueryLines

  const FENCE: string := "```"

  /** `strings.LastIndex` below `below`. */
  function LastIndex(t: string, pat: string, below: nat): (r: int)
    ensures r >= 0 ==> r < below && OccursAt(t, pat, r) && forall j :: r < j < below ==> !OccursAt(t, pat, j)
    ensures r < 0 ==> forall j :: 0 <= j < below ==> !OccursAt(t, pat, j)
  {
    if below == 0 then -1
    else if below - 1 + |pat| <= |t| && t[below - 1..below - 1 + |pat|] == pat then below - 1
    else LastIndex(t, pat, below - 1)
  }

  predicate Fenced(raw: string) {
    FENCE <= TrimSpace(raw)
  }

  function StripCodeFence(raw: string): string {
    var s := TrimSpace(raw);
    if !(FENCE <= s) then s
    else
      var t := s[|FENCE|..];
      var i := Index(t, "\n", 0);
      var u := if i >= 0 then TrimSpace(t[i + 1..]) else TrimSpace(t);
      var j := LastIndex(u, FENCE, |u| + 1);
      TrimSpace(if j >= 0 then TrimSpace(u[..j]) else u)
  }

  datatype NoQueries = NoQueries

  /** JSON if it looks like it, then lines, then JSON whatever it looks like. */
  function Parsed(raw: string, parseJSON: string -> seq<string>): Result<seq<string>, NoQueries> {
    var s := StripCodeFence(TrimSpace(raw));
    var lines := Take(CleanLines(Lines(s), false), 5);
    if LooksLikeQueriesJSON(s) && parseJSON(s) != [] then Ok(parseJSON(s))
    else if lines != [] then Ok(lines)
    else if parseJSON(s) != [] then Ok(parseJSON(s))
    else Err(NoQueries)
  }

  method ParseQueriesFromModel(raw: string, parseJSON: string -> seq<string>) returns (r: Result<seq<string>, NoQueries>)
    ensures r == Parsed(raw, parseJSON)
  {
    hide TrimSpace, CleanLines, Lines, Take, LooksLikeQueriesJSON, StripCodeFence;
    var s := StripCodeFence(TrimSpace(raw));
    if LooksLikeQueriesJSON(s) {
      var qs := parseJSON(s);
      if |qs| > 0 {
        return Ok(qs);
      }
    }
    var lines := TryParseLines(s);
    if |lines| > 0 {
      return Ok(lines);
    }
    var qs := parseJSON(s);
    if |qs| > 0 {
      return Ok(qs);
    }
    r := Err(NoQueries);
  }

  // ---------------------------------------------------------------- code fences

  /** A text that begins and ends visibly is not trimmed. */
  lemma VisibleEnds(s: string)
    requires s != "" && !IsSpace(s[0]) && !IsSpace(s[|s| - 1])
    ensures TrimSpace(s) == s
  {
    hide IsSpace;
    assert SkipSpaces(s, 0, |s|) == 0;
    assert DropSpaces(s, 0, |s|) == |s|;
  }

  lemma TrimIsSlice(s: string, lo: nat, hi: nat)
    requires lo == SkipSpaces(s, 0, |s|) && hi == DropSpaces(s, lo, |s|)
    ensures TrimSpace(s) == s[lo..hi]
  {
  }

  /** In front of something visible only the start is trimmed. */
  lemma TrimBefore(b: string, e: string, k: nat)
    requires e != "" && !IsSpace(e[0]) && !IsSpace(e[|e| - 1]) && k == SkipSpaces(b, 0, |b|)
    ensures TrimSpace(b + e) == b[k..] + e
  {
    hide IsSpace, SkipSpaces, DropSpaces, TrimSpace;
    var u := b + e;
    SkipTo(b, e, 0);
    assert u[|u| - 1] == e[|e| - 1];
    NothingDropped(u, k);
    TrimIsSlice(u, k, |u|);
    assert u[k..|u|] == b[k..] + e;
  }

  lemma NothingDropped(u: string, k: nat)
    requires k < |u| && !IsSpace(u[|u| - 1])
    ensures DropSpaces(u, k, |u|) == |u|
  {
    hide IsSpace;
  }

  lemma NothingSkipped(b: string)
    ensures var k := SkipSpaces(b, 0, |b|); SkipSpaces(b, k, |b|) == k
  {
    hide IsSpace;
  }

  lemma {:induction false} SkipTo(b: string, e: string, lo: nat)
    requires e != "" && !IsSpace(e[0]) && lo <= |b|
    ensures SkipSpaces(b + e, lo, |b + e|) == SkipSpaces(b, lo, |b|)
    decreases |b| - lo
  {
    hide IsSpace;
    var u := b + e;
    if lo < |b| {
      assert u[lo] == b[lo];
      SkipTo(b, e, lo + 1);
    } else {
      assert u[lo] == e[0];
    }
  }

  lemma FenceIsVisible()
    ensures !IsSpace('`') && |FENCE| == 3 && FENCE[0] == FENCE[1] == FENCE[2] == '`'
  {
  }

  /** The last fence of a text that ends in one. */
  lemma LastFence(u: string)
    ensures LastIndex(u + FENCE, FENCE, |u + FENCE| + 1) == |u|
  {
    var w := u + FENCE;
    assert w[|u|..|u| + |FENCE|] == FENCE;
    assert OccursAt(w, FENCE, |u|);
    forall j | |u| < j ensures !OccursAt(w, FENCE, j) {
    }
  }

  /** Trimming what skipping the front leaves is trimming. */
  lemma TrimSkipped(b: string, k: nat)
    requires k == SkipSpaces(b, 0, |b|)
    ensures TrimSpace(b[k..]) == TrimSpace(b)
  {
    NothingSkipped(b);
    hide IsSpace, SkipSpaces, DropSpaces, TrimSpace;
    TrimSpanIsTrimSpace(b, Span(k, |b|));
    assert b[k..|b|] == b[k..];
    TrimIsSlice(b, k, DropSpaces(b, k, |b|));
  }

  /** A fenced block gives what is in it, trimmed, whatever the tag behind the opening fence. */
  lemma FenceIsStripped(tag: string, b: string)
    requires '\n' !in tag
    ensures StripCodeFence(FENCE + tag + "\n" + b + FENCE) == TrimSpace(b)
  {
    FenceIsVisible();
    var s := FENCE + tag + "\n" + b + FENCE;
    hide IsSpace, TrimSpace, OccursAt;
    assert TrimSpace(s) == s by {
      assert s[0] == '`' && s[|s| - 1] == '`';
      VisibleEnds(s);
    }
    var t := s[3..];
    assert t == (tag + "\n") + (b + FENCE);
    FirstNewline(tag, b + FENCE, t);
    assert t[|tag| + 1..] == b + FENCE;
    FencedBody(b);
    assert FENCE <= s;
  }

  lemma FirstNewline(tag: string, rest: string, t: string)
    requires '\n' !in tag && t == (tag + "\n") + rest
    ensures Index(t, "\n", 0) == |tag|
  {
    assert t[|tag|..|tag| + 1] == "\n";
    assert OccursAt(t, "\n", |tag|);
    forall j | 0 <= j < |tag| ensures !OccursAt(t, "\n", j) {
      assert t[j] == tag[j];
      assert t[j..j + 1][0] == tag[j];
    }
  }

  /** What is done with the text behind the line of the opening fence, if it ends in a fence. */
  lemma FencedBody(b: string)
    ensures var u := TrimSpace(b + FENCE);
      var j := LastIndex(u, FENCE, |u| + 1);
      j >= 0 && TrimSpace(TrimSpace(u[..j])) == TrimSpace(b)
  {
    FenceIsVisible();
    hide IsSpace, TrimSpace, SkipSpaces, LastIndex;
    var k := SkipSpaces(b, 0, |b|);
    TrimBefore(b, FENCE, k);
    LastFence(b[k..]);
    var u := b[k..] + FENCE;
    assert u[..|b[k..]|] == b[k..];
    TrimSkipped(b, k);
    TrimTwice(b);
  }

  /** On one line there is no tag: what stands between the fences is the text. */
  lemma InlineFenceIsStripped(b: string)
    requires '\n' !in b
    ensures StripCodeFence(FENCE + b + FENCE) == TrimSpace(b)
  {
    FenceIsVisible();
    var s := FENCE + b + FENCE;
    hide IsSpace, TrimSpace, OccursAt;
    assert TrimSpace(s) == s by {
      assert s[0] == '`' && s[|s| - 1] == '`';
      VisibleEnds(s);
    }
    var t := s[3..];
    assert t == b + FENCE;
    NoNewlineIn(t);
    FencedBody(b);
    assert FENCE <= s;
  }

  lemma NoNewlineIn(t: string)
    requires '\n' !in t
    ensures Index(t, "\n", 0) < 0
  {
    forall j ensures !OccursAt(t, "\n", j) {
      assert 0 <= j < |t| ==> t[j..j + 1][0] == t[j];
    }
  }

  /** No fence stands in `u`. */
  ghost predicate FenceFree(u: string) {
    forall j :: !OccursAt(u, FENCE, j)
  }

  lemma NoLastFence(u: string)
    requires FenceFree(u)
    ensures LastIndex(u, FENCE, |u| + 1) < 0
  {
    hide OccursAt;
  }

  /** A fence that is never closed gives what is behind its line, if anything is visible there. */
  lemma OpenFenceIsStripped(tag: string, b: string)
    requires '\n' !in tag && TrimSpace(b) != "" && FenceFree(TrimSpace(b))
    ensures StripCodeFence(FENCE + tag + "\n" + b) == TrimSpace(b)
  {
    FenceIsVisible();
    hide IsSpace, SkipSpaces, DropSpaces, TrimSpace, FenceFree, StripCodeFence, OccursAt;
    var k := SkipSpaces(b, 0, |b|);
    var hi := DropSpaces(b, k, |b|);
    TrimIsSlice(b, k, hi);
    var head, t := FENCE + tag + "\n", (tag + "\n") + b[..hi];
    TrimBehind(head, b, k, hi);
    assert head + b[..hi] == FENCE + t;
    FirstNewline(tag, b[..hi], t);
    assert t[|tag| + 1..] == b[..hi];
    TrimCut(b, k, hi);
    BehindFence(t);
    OpenFence(head + b, FENCE + t, t, |tag|, TrimSpace(b));
  }

  /** The last steps, when the text behind the line of the opening fence holds no other fence. */
  lemma OpenFence(raw: string, s: string, t: string, i: nat, u: string)
    requires TrimSpace(raw) == s && FENCE <= s && t == s[|FENCE|..]
    requires Index(t, "\n", 0) == i && i < |t| && u == TrimSpace(t[i + 1..]) && FenceFree(u)
    ensures StripCodeFence(raw) == u
  {
    hide IsSpace, OccursAt, TrimSpace, Index, LastIndex, FenceFree;
    NoLastFence(u);
    TrimTwice(t[i + 1..]);
  }

  lemma BehindFence(t: string)
    ensures FENCE <= FENCE + t && (FENCE + t)[|FENCE|..] == t
  {
  }

  /** Behind a visible start only the end is trimmed. */
  lemma TrimBehind(a: string, b: string, k: nat, hi: nat)
    requires a != "" && !IsSpace(a[0])
    requires k == SkipSpaces(b, 0, |b|) && hi == DropSpaces(b, k, |b|) && k < hi
    ensures TrimSpace(a + b) == a + b[..hi]
  {
    EndIsVisible(b, k, hi);
    hide IsSpace, SkipSpaces, DropSpaces, TrimSpace;
    var u := a + b;
    NothingInFront(u);
    DropTo(a, b, hi, |b|);
    TrimIsSlice(u, 0, |a| + hi);
    assert u[0..|a| + hi] == a + b[..hi];
  }

  lemma NothingInFront(u: string)
    requires u != "" && !IsSpace(u[0])
    ensures SkipSpaces(u, 0, |u|) == 0
  {
    hide IsSpace;
  }

  lemma EndIsVisible(b: string, k: nat, hi: nat)
    requires k <= |b| && hi == DropSpaces(b, k, |b|) && k < hi
    ensures hi <= |b| && !IsSpace(b[hi - 1]) && forall p :: hi <= p < |b| ==> IsSpace(b[p])
  {
    hide IsSpace, DropSpaces;
  }

  lemma {:induction false} DropTo(a: string, b: string, hi: nat, n: nat)
    requires 0 < hi <= n <= |b| && !IsSpace(b[hi - 1]) && forall p :: hi <= p < n ==> IsSpace(b[p])
    ensures DropSpaces(a + b, 0, |a| + n) == |a| + hi
    decreases n
  {
    hide IsSpace;
    assert (a + b)[|a| + n - 1] == b[n - 1];
    if hi < n {
      DropTo(a, b, hi, n - 1);
    }
  }

  /** Trimming what dropping the end leaves is trimming. */
  lemma TrimCut(b: string, k: nat, hi: nat)
    requires k == SkipSpaces(b, 0, |b|) && hi == DropSpaces(b, k, |b|) && k < hi
    ensures TrimSpace(b[..hi]) == TrimSpace(b)
  {
    EndIsVisible(b, k, hi);
    SkipWithin(b, 0, hi);
    NothingDroppedWithin(b, k, hi);
    hide IsSpace, TrimSpace, SkipSpaces, DropSpaces;
    TrimSpanIsTrimSpace(b, Span(0, hi));
    assert b[0..hi] == b[..hi];
    TrimIsSlice(b, k, hi);
  }

  lemma NothingDroppedWithin(b: string, k: nat, hi: nat)
    requires k < hi <= |b| && !IsSpace(b[hi - 1])
    ensures DropSpaces(b, k, hi) == hi
  {
    hide IsSpace;
  }

  lemma {:induction false} SkipWithin(b: string, lo: nat, hi: nat)
    requires lo < hi <= |b| && !IsSpace(b[hi - 1])
    ensures SkipSpaces(b, lo, hi) == SkipSpaces(b, lo, |b|) < hi
    decreases hi - lo
  {
    hide IsSpace;
    if IsSpace(b[lo]) {
      SkipWithin(b, lo + 1, hi);
    }
  }

  /** A fence around a text that has none of its own changes nothing in how it is parsed. */
  lemma FenceIsIgnored(tag: string, b: string, parseJSON: string -> seq<string>)
    requires '\n' !in tag && !Fenced(b)
    ensures Parsed(FENCE + tag + "\n" + b + FENCE, parseJSON) == Parsed(b, parseJSON)
  {
    FenceIsVisible();
    var s := FENCE + tag + "\n" + b + FENCE;
    hide IsSpace, TrimSpace, CleanLines, Lines, Take, LooksLikeQueriesJSON;
    assert TrimSpace(s) == s by {
      assert s[0] == '`' && s[|s| - 1] == '`';
      VisibleEnds(s);
    }
    FenceIsStripped(tag, b);
    TrimTwice(b);
    assert StripCodeFence(TrimSpace(b)) == TrimSpace(b);
    hide StripCodeFence;
  }

  /**
   Without a fence: queries JSON wins over lines, lines win over any other JSON, and there is an error exactly when
   the text has neither a clean line nor JSON with queries in it.
   */
  lemma WhichWins(raw: string, parseJSON: string -> seq<string>)
    requires !Fenced(raw)
    ensures var json, lines := parseJSON(TrimSpace(raw)), Take(CleanLines(Lines(TrimSpace(raw)), false), 5);
      && (json != [] && LooksLikeQueriesJSON(TrimSpace(raw)) ==> Parsed(raw, parseJSON) == Ok(json))
      && (lines != [] && !(json != [] && LooksLikeQueriesJSON(TrimSpace(raw))) ==> Parsed(raw, parseJSON) == Ok(lines))
      && (lines == [] && json != [] ==> Parsed(raw, parseJSON) == Ok(json))
      && (Parsed(raw, parseJSON).Err? <==> lines == [] && json == [])
  {
    TrimTwice(raw);
    hide TrimSpace, CleanLines, Lines, Take, LooksLikeQueriesJSON;
    assert StripCodeFence(TrimSpace(raw)) == TrimSpace(raw);
    hide StripCodeFence;
  }

  // ---------------------------------------------------------------- outer white space does not matter

  lemma SpacesAreSpace()
    ensures IsSpace('\n') && IsSpace('\r')
  {
  }

  lemma TrimLeading(c: char, l: string)
    requires IsSpace(c)
    ensures TrimSpace([c] + l) == TrimSpace(l)
  {
    hide IsSpace;
    var u := [c] + l;
    TrimSpanIsTrimSpace(u, Span(1, |u|));
    assert Slice(u, Span(1, |u|)) == l;
    assert SkipSpaces(u, 0, |u|) == SkipSpaces(u, 1, |u|);
  }

  lemma {:induction false} SkipShorter(u: string, lo: nat, n: nat)
    requires lo <= n && n + 1 == |u| && IsSpace(u[n])
    ensures SkipSpaces(u, lo, n) < n ==> SkipSpaces(u, lo, n + 1) == SkipSpaces(u, lo, n)
    ensures SkipSpaces(u, lo, n) == n ==> SkipSpaces(u, lo, n + 1) == n + 1
    decreases n - lo
  {
    hide IsSpace;
    if lo < n {
      SkipShorter(u, lo + 1, n);
    } else {
      assert SkipSpaces(u, n + 1, n + 1) == n + 1;
    }
  }

  lemma TrimTrailing(l: string, c: char)
    requires IsSpace(c)
    ensures TrimSpace(l + [c]) == TrimSpace(l)
  {
    hide IsSpace;
    var u, n := l + [c], |l|;
    assert Slice(u, Span(0, n)) == l;
    TrimSpanIsTrimSpace(u, Span(0, n));
    SkipShorter(u, 0, n);
    var lo := SkipSpaces(u, 0, n);
    if lo < n {
      assert DropSpaces(u, lo, n + 1) == DropSpaces(u, lo, n);
    }
  }

  /** Cleaning looks at the trimmed line only. */
  lemma CleanOfTrimmed(raw: string)
    ensures Clean(raw) == TrimSpace(Stripped(TrimSpace(TrimSpace(raw))))
  {
    hide TrimSpace, Stripped, IsSpace;
    SpacesAreSpace();
    if raw != "" && raw[|raw| - 1] == '\r' {
      TrimTrailing(raw[..|raw| - 1], '\r');
      assert raw == raw[..|raw| - 1] + ['\r'];
    }
  }

  lemma CleanNothing()
    ensures Clean("") == ""
  {
  }

  lemma SameCleanLine(a: string, b: string, streamed: bool)
    requires Clean(a) == Clean(b)
    ensures CleanLines([a], streamed) == CleanLines([b], streamed)
  {
    hide Clean, ShouldStream;
    assert [a][..0] == [b][..0];
  }

  lemma BlankLineVanishes(streamed: bool)
    ensures CleanLines([""], streamed) == []
  {
    CleanNothing();
    hide Clean, ShouldStream;
    assert [""][..0] == [];
  }

  lemma LinesCons(c: char, t: string)
    ensures Lines([c] + t) == if c == '\n' then [""] + Lines(t) else [[c] + Lines(t)[0]] + Lines(t)[1..]
  {
    assert ([c] + t)[1..] == t;
  }

  lemma LeadIgnored(t: string, c: char, streamed: bool)
    requires IsSpace(c)
    ensures CleanLines(Lines([c] + t), streamed) == CleanLines(Lines(t), streamed)
  {
    LinesCons(c, t);
    var rest := Lines(t);
    hide IsSpace, Clean, ShouldStream, CleanLines, TrimSpace, Lines;
    if c == '\n' {
      CleanLinesConcat([""], rest, streamed);
      BlankLineVanishes(streamed);
    } else {
      var a, b := [c] + rest[0], rest[0];
      CleanOfTrimmed(a);
      CleanOfTrimmed(b);
      TrimLeading(c, b);
      SameCleanLine(a, b, streamed);
      CleanLinesConcat([a], rest[1..], streamed);
      CleanLinesConcat([b], rest[1..], streamed);
      assert rest == [b] + rest[1..];
    }
  }

  lemma TailIgnored(t: string, c: char, streamed: bool)
    requires IsSpace(c)
    ensures CleanLines(Lines(t + [c]), streamed) == CleanLines(Lines(t), streamed)
  {
    hide IsSpace, Clean, ShouldStream, Lines, CleanLines, TrimSpace;
    LinesConcat(t, [c]);
    LinesMean(t);
    var ls := Lines(t);
    var m := |ls| - 1;
    var l := ls[m];
    assert ls == ls[..m] + [l];
    CleanLinesConcat(ls[..m], [l], streamed);
    if c == '\n' {
      LineThenNewline(l);
      CleanLinesConcat(ls, [""], streamed);
      BlankLineVanishes(streamed);
      assert ls[..m] + [l, ""] == ls + [""];
    } else {
      OneLine(l + [c]);
      CleanOfTrimmed(l + [c]);
      CleanOfTrimmed(l);
      TrimTrailing(l, c);
      SameCleanLine(l + [c], l, streamed);
      CleanLinesConcat(ls[..m], [l + [c]], streamed);
    }
  }

  lemma LineThenNewline(l: string)
    requires '\n' !in l
    ensures Lines(l + ['\n']) == [l, ""]
  {
    var u := l + ['\n'];
    assert u[..|l|] == l;
    FirstLine(u, |l|);
    assert u[|l| + 1..] == "";
    OneLine("");
  }

  lemma {:induction false} SkipIgnored(t: string, lo: nat, hi: nat, streamed: bool)
    requires lo <= hi <= |t|
    ensures CleanLines(Lines(t[SkipSpaces(t, lo, hi)..hi]), streamed) == CleanLines(Lines(t[lo..hi]), streamed)
    decreases hi - lo
  {
    hide IsSpace, CleanLines, Lines;
    if lo < hi && IsSpace(t[lo]) {
      SkipIgnored(t, lo + 1, hi, streamed);
      LeadIgnored(t[lo + 1..hi], t[lo], streamed);
      assert t[lo..hi] == [t[lo]] + t[lo + 1..hi];
    }
  }

  lemma {:induction false} DropIgnored(t: string, lo: nat, hi: nat, streamed: bool)
    requires lo <= hi <= |t|
    ensures CleanLines(Lines(t[lo..DropSpaces(t, lo, hi)]), streamed) == CleanLines(Lines(t[lo..hi]), streamed)
    decreases hi - lo
  {
    hide IsSpace, CleanLines, Lines;
    if lo < hi && IsSpace(t[hi - 1]) {
      DropIgnored(t, lo, hi - 1, streamed);
      TailIgnored(t[lo..hi - 1], t[hi - 1], streamed);
      assert t[lo..hi] == t[lo..hi - 1] + [t[hi - 1]];
    }
  }

  /** White space around the whole text changes no clean line. */
  lemma TrimIgnored(t: string, streamed: bool)
    ensures CleanLines(Lines(TrimSpace(t)), streamed) == CleanLines(Lines(t), streamed)
  {
    hide IsSpace, CleanLines, Lines;
    SkipIgnored(t, 0, |t|, streamed);
    DropIgnored(t, SkipSpaces(t, 0, |t|), |t|, streamed);
    assert t[0..|t|] == t;
  }

  // ---------------------------------------------------------------- streamed lines and parsed lines

  ghost predicate AllStream(ls: seq<string>) {
    forall i :: 0 <= i < |ls| ==> ShouldStream(ls[i])
  }

  function Streamable(ls: seq<string>): (r: seq<string>)
    ensures AllStream(r) && |r| <= |ls|
  {
    if ls == [] then []
    else Streamable(ls[..|ls| - 1]) + if ShouldStream(ls[|ls| - 1]) then [ls[|ls| - 1]] else []
  }

  lemma {:induction false} StreamedAreStreamable(ls: seq<string>)
    ensures CleanLines(ls, true) == Streamable(CleanLines(ls, false))
  {
    hide Clean, ShouldStream;
    if ls != [] {
      StreamedAreStreamable(ls[..|ls| - 1]);
      var c := Clean(ls[|ls| - 1]);
      var all := CleanLines(ls[..|ls| - 1], false);
      if c != "" {
        assert (all + [c])[..|all|] == all;
      } else {
        assert all + [] == all;
      }
    }
  }

  lemma {:induction false} StreamableKeepsPrefix(ls: seq<string>, n: nat)
    requires n <= |ls| && AllStream(ls[..n])
    ensures ls[..n] <= Streamable(ls)
  {
    hide ShouldStream;
    if n < |ls| {
      assert ls[..|ls| - 1][..n] == ls[..n];
      StreamableKeepsPrefix(ls[..|ls| - 1], n);
    } else if n > 0 {
      assert ls[..n][n - 1] == ls[n - 1];
      assert forall i :: 0 <= i < n - 1 ==> ls[..n - 1][..n - 1][i] == ls[..n][i];
      StreamableKeepsPrefix(ls[..n - 1], n - 1);
      assert ls[..n] == ls[..n - 1] + [ls[n - 1]];
      StreamableIsNoLonger(ls[..n - 1]);
    }
  }

  lemma StreamableIsNoLonger(ls: seq<string>)
    requires ls <= Streamable(ls)
    ensures Streamable(ls) == ls
  {
  }

  /** The first `n` agree exactly when none of the first `n` lines looks like queries JSON. */
  lemma TakeStreamable(ls: seq<string>, n: nat)
    ensures Take(Streamable(ls), n) == Take(ls, n) <==> AllStream(Take(ls, n))
  {
    hide ShouldStream;
    if AllStream(Take(ls, n)) {
      var m := if |ls| <= n then |ls| else n;
      assert Take(ls, n) == ls[..m];
      StreamableKeepsPrefix(ls, m);
      if |ls| <= n {
        assert ls[..m] == ls;
        StreamableIsNoLonger(ls);
      }
    }
  }

  /** Without a fence the stream showed the first five clean lines if and only if none of them looks like queries JSON. */
  lemma StreamShowsFirstLines(raw: string)
    requires !Fenced(raw)
    ensures StripCodeFence(TrimSpace(raw)) == TrimSpace(raw)
    ensures Take(CleanLines(Lines(TrimSpace(raw)), false), 5) == Take(CleanLines(Lines(raw), false), 5)
    ensures Take(CleanLines(Lines(raw), true), 5) == Take(CleanLines(Lines(raw), false), 5)
       <==> AllStream(Take(CleanLines(Lines(raw), false), 5))
  {
    TrimTwice(raw);
    hide TrimSpace, CleanLines, Lines, Take, AllStream;
    TrimIgnored(raw, false);
    StreamedAreStreamable(Lines(raw));
    TakeStreamable(CleanLines(Lines(raw), false), 5);
  }

  /**
   For a text without a fence that has a clean line and is not taken for queries JSON as a whole: the parser returns the
   first five clean lines, and the stream showed just what it returns if and only if none of them looks like queries JSON.
   */
  lemma StreamShowsWhatIsParsed(raw: string, parseJSON: string -> seq<string>)
    requires !Fenced(raw) && CleanLines(Lines(raw), false) != []
    requires LooksLikeQueriesJSON(TrimSpace(raw)) ==> parseJSON(TrimSpace(raw)) == []
    ensures Parsed(raw, parseJSON) == Ok(Take(CleanLines(Lines(raw), false), 5))
    ensures Ok(Take(CleanLines(Lines(raw), true), 5)) == Parsed(raw, parseJSON)
       <==> AllStream(Take(CleanLines(Lines(raw), false), 5))
  {
    StreamShowsFirstLines(raw);
    hide TrimSpace, CleanLines, Lines, AllStream, LooksLikeQueriesJSON, StripCodeFence;
  }
}
