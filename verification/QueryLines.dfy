/**
 The rewriter's output, one sub-query per line: the batch parser reads the whole text, the streaming splitter
 receives it in pieces.  Whatever the pieces, the splitter calls back with the lines of the whole text.
 */
module QueryLines {
  import opened Text
  import opened Utf8

  // ---------------------------------------------------------------- lines

  /** `strings.Split(t, "\n")`. */
  function Lines(t: string): (r: seq<string>)
    ensures r != []
  {
    if t == "" then [""]
    else
      var rest := Lines(t[1..]);
      if t[0] == '\n' then [""] + rest else [[t[0]] + rest[0]] + rest[1..]
  }

  function JoinLines(ls: seq<string>): string {
    if ls == [] then "" else if |ls| == 1 then ls[0] else ls[0] + "\n" + JoinLines(ls[1..])
  }

  /** The lines are what newlines separate: they hold none, and put together they are the text. */
  lemma {:induction false} LinesMean(t: string)
    ensures JoinLines(Lines(t)) == t
    ensures forall i :: 0 <= i < |Lines(t)| ==> '\n' !in Lines(t)[i]
  {
    if t != "" {
      LinesMean(t[1..]);
      var rest := Lines(t[1..]);
      if t[0] == '\n' {
        assert Lines(t)[1..] == rest;
      } else {
        assert Lines(t)[1..] == rest[1..];
        assert JoinLines(Lines(t)) == [t[0]] + JoinLines(rest);
      }
    }
  }

  function Last(ls: seq<string>): string
    requires ls != []
  {
    ls[|ls| - 1]
  }

  /** More text continues the last line. */
  lemma {:induction false} LinesConcat(a: string, b: string)
    ensures Lines(a + b) == Lines(a)[..|Lines(a)| - 1] + Lines(Last(Lines(a)) + b)
  {
    if a == "" {
      assert a + b == b;
    } else {
      LinesConcat(a[1..], b);
      assert (a + b)[1..] == a[1..] + b;
      LinesStep(a[0], Lines(a[1..]), b);
    }
  }

  /** One character in front of a text that continues in `b`. */
  lemma LinesStep(c: char, rest: seq<string>, b: string)
    requires rest != []
    ensures var m := |rest| - 1;
      var after := rest[..m] + Lines(Last(rest) + b);
      var front := if c == '\n' then [""] + rest else [[c] + rest[0]] + rest[1..];
      (if c == '\n' then [""] + after else [[c] + after[0]] + after[1..]) == front[..|front| - 1] + Lines(Last(front) + b)
  {
    if c != '\n' && |rest| == 1 {
      var tail := rest[0] + b;
      assert ([c] + rest[0]) + b == [c] + tail;
      assert ([c] + tail)[1..] == tail;
    }
  }

  /** A text with a newline at `i` and none before it. */
  lemma {:induction false} FirstLine(t: string, i: nat)
    requires i < |t| && t[i] == '\n' && '\n' !in t[..i]
    ensures Lines(t) == [t[..i]] + Lines(t[i + 1..])
  {
    if i > 0 {
      assert t[0] in t[..i];
      assert t[1..][..i - 1] == t[..i][1..];
      FirstLine(t[1..], i - 1);
      assert t[..i] == [t[0]] + t[1..][..i - 1];
      assert t[1..][i..] == t[i + 1..];
    } else {
      assert t[..0] == "";
    }
  }

  lemma {:induction false} OneLine(t: string)
    requires '\n' !in t
    ensures Lines(t) == [t]
  {
    if t != "" {
      assert t[0] in t;
      OneLine(t[1..]);
      assert t == [t[0]] + t[1..];
    }
  }

  // ---------------------------------------------------------------- cleaning a line

  /** `\d` and `\s` of the pattern are ASCII. */
  predicate IsDigit(c: char) {
    '0' <= c <= '9'
  }

  predicate IsBlank(c: char) {
    c == '\t' || c == '\n' || c == '\U{000C}' || c == '\r' || c == ' '
  }

  function Digits(s: string, i: nat): (j: nat)
    requires i <= |s|
    ensures i <= j <= |s| && (forall k :: i <= k < j ==> IsDigit(s[k])) && (j < |s| ==> !IsDigit(s[j]))
    decreases |s| - i
  {
    if i < |s| && IsDigit(s[i]) then Digits(s, i + 1) else i
  }

  function Blanks(s: string, i: nat): (j: nat)
    requires i <= |s|
    ensures i <= j <= |s| && (forall k :: i <= k < j ==> IsBlank(s[k])) && (j < |s| ==> !IsBlank(s[j]))
    decreases |s| - i
  {
    if i < |s| && IsBlank(s[i]) then Blanks(s, i + 1) else i
  }

  /** One or more digits from `i`, optional blanks if `spaced`, a closing character, then blanks; 0 if it fails. */
  function NumberThen(s: string, i: nat, closers: string, spaced: bool): (j: nat)
    requires i <= |s|
    ensures j == 0 || i < j <= |s|
  {
    var d := Digits(s, i);
    var e := if spaced then Blanks(s, d) else d;
    if d > i && e < |s| && s[e] in closers then Blanks(s, e + 1) else 0
  }

  const SUBQUERY: string := "\U{5B50}\U{67E5}\U{8BE2}"
  const ORDINALS: string := "\U{4E00}\U{4E8C}\U{4E09}\U{56DB}\U{4E94}\U{516D}\U{4E03}\U{516B}\U{4E5D}\U{5341}"

  /** Length of the enumeration prefix that the pattern matches at the start of `s`, or 0. */
  function PrefixLen(s: string): (n: nat)
    ensures n <= |s|
  {
    if s == "" then 0
    else if IsDigit(s[0]) then NumberThen(s, 0, ".)\U{3001}\U{FF0E}", false)
    else if s[0] == '(' || s[0] == '\U{FF08}' then NumberThen(s, 1, ")\U{FF09}", false)
    else if SUBQUERY <= s then NumberThen(s, Blanks(s, 3), ":\U{FF1A}", true)
    else if s[0] == '\U{7B2C}' && |s| >= 2 && s[1] in ORDINALS then
      var i := Blanks(s, 2);
      if i < |s| && s[i] in ".\U{3001}\U{FF0E}" then Blanks(s, i + 1) else 0
    else 0
  }

  // ---------------------------------------------------------------- what the pattern matches

  ghost predicate AllDigits(s: string, i: int, j: int) {
    0 <= i <= j <= |s| && forall k :: i <= k < j ==> IsDigit(s[k])
  }

  ghost predicate AllBlanks(s: string, i: int, j: int) {
    0 <= i <= j <= |s| && forall k :: i <= k < j ==> IsBlank(s[k])
  }

  /** From `i` to its end `p` is a number, perhaps with blanks behind it, a closing character, and blanks. */
  ghost predicate NumberAt(p: string, i: int, closers: string, spaced: bool) {
    exists d, e :: i < d <= e < |p| && AllDigits(p, i, d) && AllBlanks(p, d, e) && (spaced || d == e)
                   && p[e] in closers && AllBlanks(p, e + 1, |p|)
  }

  ghost predicate IsNumbered(p: string) {
    NumberAt(p, 0, ".)\U{3001}\U{FF0E}", false)
  }

  ghost predicate IsBracketed(p: string) {
    p != "" && (p[0] == '(' || p[0] == '\U{FF08}') && NumberAt(p, 1, ")\U{FF09}", false)
  }

  ghost predicate IsSubquery(p: string) {
    SUBQUERY <= p && exists i :: AllBlanks(p, 3, i) && NumberAt(p, i, ":\U{FF1A}", true)
  }

  ghost predicate IsOrdinal(p: string) {
    && |p| > 2 && p[0] == '\U{7B2C}' && p[1] in ORDINALS
    && exists i :: i < |p| && AllBlanks(p, 2, i) && p[i] in ".\U{3001}\U{FF0E}" && AllBlanks(p, i + 1, |p|)
  }

  /**
   The enumerations of the pattern: a number and a full stop, a parenthesis or an ideographic comma; a number in
   parentheses; the word for "sub-query", a number and a colon; the ordinal mark, one Chinese numeral and a stop.
   */
  ghost predicate IsEnumeration(p: string) {
    IsNumbered(p) || IsBracketed(p) || IsSubquery(p) || IsOrdinal(p)
  }

  lemma NumberThenMeans(s: string, i: nat, closers: string, spaced: bool)
    requires i <= |s| && forall c :: c in closers ==> !IsDigit(c) && !IsBlank(c)
    ensures var j := NumberThen(s, i, closers, spaced);
      && (j > 0 ==> NumberAt(s[..j], i, closers, spaced))
      && forall m :: 0 <= m <= |s| && NumberAt(s[..m], i, closers, spaced) ==> m <= j
  {
    hide IsDigit, IsBlank;
    var j, d := NumberThen(s, i, closers, spaced), Digits(s, i);
    var e := if spaced then Blanks(s, d) else d;
    if j > 0 {
      var p := s[..j];
      assert AllDigits(p, i, d) && AllBlanks(p, d, e) && AllBlanks(p, e + 1, |p|);
    }
    forall m | 0 <= m <= |s| && NumberAt(s[..m], i, closers, spaced) ensures m <= j {
      NumberIsLeftmost(s, i, closers, spaced, m);
    }
  }

  /** A number matched anywhere in front is the one that is read. */
  lemma NumberIsLeftmost(s: string, i: nat, closers: string, spaced: bool, m: nat)
    requires i <= |s| && (forall c :: c in closers ==> !IsDigit(c) && !IsBlank(c))
    requires m <= |s| && NumberAt(s[..m], i, closers, spaced)
    ensures m <= NumberThen(s, i, closers, spaced)
  {
    DigitsAreNotBlank();
    hide IsDigit, IsBlank;
    var p := s[..m];
    var d, e :| i < d <= e < |p| && AllDigits(p, i, d) && AllBlanks(p, d, e) && (spaced || d == e)
                && p[e] in closers && AllBlanks(p, e + 1, |p|);
    assert forall k :: 0 <= k < m ==> p[k] == s[k];
    assert !IsDigit(s[d]) by {
      assert s[d] == p[d];
    }
    assert Digits(s, i) == d;
    assert !IsBlank(s[e]);
    assert spaced ==> Blanks(s, d) == e;
    assert Blanks(s, e + 1) >= m;
  }

  lemma DigitsAreNotBlank()
    ensures forall c :: IsBlank(c) ==> !IsDigit(c)
  {
  }

  /** The first character tells which of the four an enumeration can be. */
  lemma FirstTells(p: string)
    ensures IsEnumeration(p) ==> p != ""
    ensures p != "" ==>
      && (IsNumbered(p) ==> IsDigit(p[0]))
      && (IsBracketed(p) ==> p[0] == '(' || p[0] == '\U{FF08}')
      && (IsSubquery(p) ==> p[0] == SUBQUERY[0])
      && (IsOrdinal(p) ==> p[0] == '\U{7B2C}')
  {
  }

  lemma NumberedMeans(s: string)
    requires s != "" && IsDigit(s[0])
    ensures Longest(s, PrefixLen(s))
  {
    NumberThenMeans(s, 0, ".)\U{3001}\U{FF0E}", false);
    hide NumberThen, NumberAt, IsBracketed, IsSubquery, IsOrdinal;
    forall m | 0 <= m <= |s| && IsEnumeration(s[..m]) ensures m <= PrefixLen(s) {
      FirstTells(s[..m]);
    }
  }

  lemma BracketedMeans(s: string)
    requires s != "" && (s[0] == '(' || s[0] == '\U{FF08}')
    ensures Longest(s, PrefixLen(s))
  {
    NumberThenMeans(s, 1, ")\U{FF09}", false);
    hide NumberThen, NumberAt, IsNumbered, IsSubquery, IsOrdinal;
    forall m | 0 <= m <= |s| && IsEnumeration(s[..m]) ensures m <= PrefixLen(s) {
      FirstTells(s[..m]);
    }
  }

  lemma SubqueryMeans(s: string)
    requires SUBQUERY <= s
    ensures Longest(s, PrefixLen(s))
  {
    DigitsAreNotBlank();
    var i := Blanks(s, 3);
    NumberThenMeans(s, i, ":\U{FF1A}", true);
    var n := PrefixLen(s);
    assert n == NumberThen(s, i, ":\U{FF1A}", true);
    hide NumberThen, PrefixLen, IsNumbered, IsBracketed, IsOrdinal, IsDigit, IsBlank;
    if n > 0 {
      assert AllBlanks(s[..n], 3, i) && SUBQUERY <= s[..n];
    }
    forall m | 0 <= m <= |s| && IsEnumeration(s[..m]) ensures m <= n {
      FirstTells(s[..m]);
      SubqueryOnly(s, m);
      NumberStartsThere(s, m, i);
    }
  }

  lemma SubqueryOnly(s: string, m: nat)
    requires m <= |s| && SUBQUERY <= s && IsEnumeration(s[..m])
    ensures IsSubquery(s[..m])
  {
    FirstTells(s[..m]);
    hide IsNumbered, IsBracketed, IsOrdinal, IsSubquery;
    assert s[..m][0] == SUBQUERY[0];
  }

  lemma NumberStartsThere(s: string, m: nat, i: nat)
    requires SUBQUERY <= s && m <= |s| && IsSubquery(s[..m]) && i == Blanks(s, 3)
    ensures NumberAt(s[..m], i, ":\U{FF1A}", true)
  {
    DigitsAreNotBlank();
    hide IsDigit, IsBlank;
    var p := s[..m];
    var j :| AllBlanks(p, 3, j) && NumberAt(p, j, ":\U{FF1A}", true);
    assert IsDigit(p[j]) && p[j] == s[j];
    assert forall k :: 0 <= k < m ==> p[k] == s[k];
    assert i == j;
  }

  lemma OrdinalMeans(s: string)
    requires s != "" && s[0] == '\U{7B2C}'
    ensures Longest(s, PrefixLen(s))
  {
    var n := PrefixLen(s);
    assert !(SUBQUERY <= s) && !IsDigit(s[0]);
    if |s| >= 2 && s[1] in ORDINALS {
      var i := Blanks(s, 2);
      if n > 0 {
        assert AllBlanks(s[..n], 2, i) && AllBlanks(s[..n], i + 1, n);
      }
      hide PrefixLen, IsNumbered, IsBracketed, IsSubquery, IsDigit;
      forall m | 0 <= m <= |s| && IsEnumeration(s[..m]) ensures m <= n {
        FirstTells(s[..m]);
        OrdinalEnds(s, m);
      }
    } else {
      hide IsNumbered, IsBracketed, IsSubquery, IsDigit;
      forall m | 0 <= m <= |s| && IsEnumeration(s[..m]) ensures m <= n {
        FirstTells(s[..m]);
      }
    }
  }

  lemma OrdinalEnds(s: string, m: nat)
    requires m <= |s| && IsOrdinal(s[..m])
    ensures var i := Blanks(s, 2); i < |s| && s[i] in ".\U{3001}\U{FF0E}" && m <= Blanks(s, i + 1)
  {
    var p := s[..m];
    var j :| j < |p| && AllBlanks(p, 2, j) && p[j] in ".\U{3001}\U{FF0E}" && AllBlanks(p, j + 1, |p|);
    assert forall k :: 0 <= k < m ==> p[k] == s[k];
    assert !IsBlank(s[j]);
    hide IsBlank;
    assert Blanks(s, 2) == j;
  }

  /** Length `n` is that of the longest start of `s` that is an enumeration, or 0 if none is. */
  ghost predicate Longest(s: string, n: nat)
    requires n <= |s|
  {
    && (n > 0 ==> IsEnumeration(s[..n]))
    && forall m :: 0 <= m <= |s| && IsEnumeration(s[..m]) ==> m <= n
  }

  /** The pattern removes the longest start that is an enumeration. */
  lemma PrefixIsLongest(s: string)
    ensures Longest(s, PrefixLen(s))
  {
    if s == "" {
      assert forall m :: 0 <= m <= |s| ==> s[..m] == "";
      FirstTells("");
    } else if IsDigit(s[0]) {
      NumberedMeans(s);
    } else if s[0] == '(' || s[0] == '\U{FF08}' {
      BracketedMeans(s);
    } else if SUBQUERY <= s {
      SubqueryMeans(s);
    } else if s[0] == '\U{7B2C}' {
      OrdinalMeans(s);
    } else {
      hide IsEnumeration, IsNumbered, IsBracketed, IsOrdinal, IsSubquery;
      forall m | 0 <= m <= |s| ensures !IsEnumeration(s[..m]) {
        NoneOfThese(s, m);
      }
    }
  }

  lemma SubqueryInside(p: string, s: string)
    requires p <= s
    ensures IsSubquery(p) ==> SUBQUERY <= s
  {
  }

  lemma NoneOfThese(s: string, m: nat)
    requires m <= |s| && s != "" && !IsDigit(s[0]) && s[0] != '(' && s[0] != '\U{FF08}' && !(SUBQUERY <= s) && s[0] != '\U{7B2C}'
    ensures !IsEnumeration(s[..m])
  {
    FirstTells(s[..m]);
    SubqueryInside(s[..m], s);
    hide IsNumbered, IsBracketed, IsOrdinal, IsSubquery, IsDigit;
  }

  /** Prefixes stripped one after the other, from a trimmed string. */
  function Stripped(s: string): (r: string)
    ensures |r| <= |s|
    decreases |s|
  {
    var n := PrefixLen(s);
    if n == 0 then s
    else
      var t := TrimSpace(s[n..]);
      TrimShorter(s[n..]);
      Stripped(t)
  }

  lemma TrimShorter(s: string)
    ensures |TrimSpace(s)| <= |s|
  {
  }

  /** What stripping takes is the longest enumeration at the start, then the one behind it, until there is none. */
  lemma StripsLongest(s: string, n: nat)
    requires n <= |s| && Longest(s, n)
    ensures Stripped(s) == if n == 0 then s else Stripped(TrimSpace(s[n..]))
  {
    PrefixIsLongest(s);
    hide IsEnumeration, PrefixLen, TrimSpace;
    assert n == PrefixLen(s);
  }

  /** Nothing is left to strip or to trim. */
  lemma {:induction false} StrippedIsDone(s: string)
    requires TrimSpace(s) == s
    ensures PrefixLen(Stripped(s)) == 0 && TrimSpace(Stripped(s)) == Stripped(s)
    decreases |s|
  {
    hide TrimSpace, PrefixLen;
    var n := PrefixLen(s);
    if n > 0 {
      TrimShorter(s[n..]);
      TrimTwice(s[n..]);
      StrippedIsDone(TrimSpace(s[n..]));
    }
  }

  /** The loop of the source ends, and computes `Stripped`. */
  method StripEnumerationPrefix(s0: string) returns (s: string)
    ensures s == Stripped(TrimSpace(s0))
  {
    hide TrimSpace, PrefixLen;
    s := TrimSpace(s0);
    while true
      invariant Stripped(s) == Stripped(TrimSpace(s0))
      decreases |s|
    {
      var t := s[PrefixLen(s)..];
      if t == s {
        break;
      }
      TrimShorter(t);
      s := TrimSpace(t);
    }
  }

  /** Stripping is idempotent. */
  lemma StripTwice(s0: string)
    ensures var s := Stripped(TrimSpace(s0)); Stripped(TrimSpace(s)) == s
  {
    hide TrimSpace, PrefixLen;
    TrimTwice(s0);
    StrippedIsDone(TrimSpace(s0));
  }

  function TrimCR(raw: string): string {
    if raw != "" && raw[|raw| - 1] == '\r' then raw[..|raw| - 1] else raw
  }

  /** What is made of a raw line. */
  function Clean(raw: string): string {
    TrimSpace(Stripped(TrimSpace(TrimSpace(TrimCR(raw)))))
  }

  // ---------------------------------------------------------------- JSON is not streamed

  const QUERIES: string := "\"queries\""

  predicate LooksLikeQueriesJSON(s: string) {
    var t := TrimSpace(s);
    "{" <= t && Contains(t, QUERIES)
  }

  /** Text taken for queries JSON: trimmed, it starts with a brace, and the quoted word stands somewhere in it. */
  lemma LooksLikeMeans(s: string)
    ensures LooksLikeQueriesJSON(s) <==>
      TrimSpace(s) != "" && TrimSpace(s)[0] == '{' && exists p :: OccursAt(TrimSpace(s), "\"queries\"", p)
  {
    hide TrimSpace;
    var t := TrimSpace(s);
    if p :| OccursAt(t, QUERIES, p) {
      assert 0 <= p;
    }
  }

  /** Lines under 8 bytes are always streamed. */
  predicate ShouldStream(line: string) {
    var t := TrimSpace(line);
    |Encode(t)| < 8 || !LooksLikeQueriesJSON(t)
  }

  lemma {:induction false} EncodeLength(s: string)
    ensures |Encode(s)| >= |s|
  {
    if s != "" {
      EncodeLength(s[1..]);
    }
  }

  /** The length test never decides: anything that looks like queries JSON is longer. */
  lemma ShortTestIsRedundant(line: string)
    ensures ShouldStream(line) <==> !LooksLikeQueriesJSON(line)
  {
    var t := TrimSpace(line);
    TrimTwice(line);
    EncodeLength(t);
    if LooksLikeQueriesJSON(t) {
      var i := Index(t, QUERIES, 0);
      assert OccursAt(t, QUERIES, i) && |QUERIES| == 9;
    }
  }

  // ---------------------------------------------------------------- lists of clean lines

  /** The clean lines that are not empty; with `streamed`, only those that may be streamed. */
  function CleanLines(ls: seq<string>, streamed: bool): seq<string> {
    if ls == [] then []
    else
      var c := Clean(ls[|ls| - 1]);
      CleanLines(ls[..|ls| - 1], streamed) + if c != "" && (streamed ==> ShouldStream(c)) then [c] else []
  }

  /** A line that counts: something is left of it when it is cleaned, and it may be streamed if that is asked. */
  ghost predicate Counts(raw: string, streamed: bool) {
    Clean(raw) != "" && (streamed ==> !LooksLikeQueriesJSON(Clean(raw)))
  }

  /** The clean lines are those of all lines that count, in order: `at` tells of which. */
  lemma {:induction false} CleanLinesMean(ls: seq<string>, streamed: bool) returns (at: seq<nat>)
    ensures var out := CleanLines(ls, streamed);
      && |at| == |out|
      && (forall k :: 0 <= k < |at| ==> at[k] < |ls| && Counts(ls[at[k]], streamed) && out[k] == Clean(ls[at[k]]))
      && (forall k, l :: 0 <= k < l < |at| ==> at[k] < at[l])
      && forall i :: 0 <= i < |ls| && Counts(ls[i], streamed) ==> i in at
  {
    hide Clean, LooksLikeQueriesJSON, ShouldStream;
    if ls == [] {
      at := [];
    } else {
      var n := |ls| - 1;
      at := CleanLinesMean(ls[..n], streamed);
      ShortTestIsRedundant(Clean(ls[n]));
      if Counts(ls[n], streamed) {
        at := at + [n];
      }
    }
  }

  lemma {:induction false} CleanLinesConcat(a: seq<string>, b: seq<string>, streamed: bool)
    ensures CleanLines(a + b, streamed) == CleanLines(a, streamed) + CleanLines(b, streamed)
  {
    hide Clean, ShouldStream;
    if b == [] {
      assert a + b == a;
    } else {
      var n := |b| - 1;
      CleanLinesConcat(a, b[..n], streamed);
      assert (a + b)[..|a + b| - 1] == a + b[..n];
    }
  }

  /** The splitter of the stream; `accepts` is the callback, false when it returns an error. */
  class LineQuerySplitter {
    const accepts: string -> bool
    const maxEmit: nat
    var buf: string
    var emitted: nat
    var out: seq<string>          // the lines the callback was called with and accepted
    ghost var fed: string         // everything written so far

    constructor (accepts: string -> bool, maxEmit: int)
      ensures this.accepts == accepts && this.maxEmit == (if maxEmit <= 0 then 5 else maxEmit)
      ensures buf == "" && fed == "" && out == [] && emitted == 0 && Valid()
    {
      this.accepts := accepts;
      this.maxEmit := if maxEmit <= 0 then 5 else maxEmit;
      buf, fed, out, emitted := "", "", [], 0;
      new;
      StartsValid();
    }

    lemma StartsValid()
      requires buf == "" && fed == "" && out == [] && emitted == 0
      ensures Valid()
    {
      assert Lines("")[..0] == [];
    }

    /** The finished lines have been emitted, up to the limit; the unfinished one is in the buffer. */
    ghost predicate Valid()
      reads this
    {
      && buf == Last(Lines(fed))
      && out == Take(CleanLines(Lines(fed)[..|Lines(fed)| - 1], true), maxEmit)
      && emitted == |out|
    }

    /** One finished line. */
    method EmitLine(raw: string, ghost done: seq<string>) returns (ok: bool)
      requires out == Take(CleanLines(done, true), maxEmit) && emitted == |out|
      modifies `out, `emitted
      ensures ok ==> out == Take(CleanLines(done + [raw], true), maxEmit) && emitted == |out|
      ensures !ok ==> !accepts(Clean(raw)) && out == old(out) && emitted == old(emitted)
      ensures (forall l :: accepts(l)) ==> ok
    {
      hide TrimSpace, Stripped, ShouldStream;
      CleanLinesConcat(done, [raw], true);
      CleanOne(raw);
      var line := TrimSpace(TrimCR(raw));
      line := StripEnumerationPrefix(line);
      line := TrimSpace(line);
      assert line == Clean(raw);
      if line != "" && ShouldStream(line) && emitted < maxEmit {
        if !accepts(line) {
          return false;
        }
        out := out + [line];
        emitted := emitted + 1;
      }
      ok := true;
    }

    method Write(piece: string) returns (ok: bool)
      requires Valid()
      modifies this
      ensures ok ==> Valid() && fed == old(fed) + piece
      ensures (forall l :: accepts(l)) ==> ok
    {
      hide Clean, CleanLines, Take, Lines, Last, ShouldStream;
      var body := buf + piece;
      buf := "";
      ghost var done := Lines(fed)[..|Lines(fed)| - 1];
      LinesConcat(fed, piece);
      while true
        invariant fed == old(fed) && Lines(fed + piece) == done + Lines(body)
        invariant out == Take(CleanLines(done, true), maxEmit) && emitted == |out|
        decreases |body|
      {
        var idx := Index(body, "\n", 0);
        if idx < 0 {
          NoNewline(body);
          buf := body;
          fed := fed + piece;
          WriteEnds(done, body);
          return true;
        }
        NewlineAt(body, idx);
        FirstLine(body, idx);
        var raw := body[..idx];
        body := body[idx + 1..];
        ok := EmitLine(raw, done);
        if !ok {
          return false;
        }
        Regroup(done, raw, Lines(body));
        done := done + [raw];
      }
    }

    lemma WriteEnds(done: seq<string>, body: string)
      requires Lines(fed) == done + Lines(body) && Lines(body) == [body] && buf == body
      requires out == Take(CleanLines(done, true), maxEmit) && emitted == |out|
      ensures Valid()
    {
      assert (done + [body])[..|done|] == done;
    }

    /** The rest of the buffer is the last line. */
    method FlushTail() returns (ok: bool)
      requires Valid()
      modifies this
      ensures fed == old(fed) && (ok ==> out == Take(CleanLines(Lines(fed), true), maxEmit))
      ensures (forall l :: accepts(l)) ==> ok
    {
      hide TrimSpace, Stripped, ShouldStream, CleanLines, Lines, TrimCR;
      TailIsLast();
      ghost var done := Lines(fed)[..|Lines(fed)| - 1];
      ghost var raw := buf;
      var rest := TrimSpace(TrimCR(buf));
      buf := "";
      rest := StripEnumerationPrefix(rest);
      rest := TrimSpace(rest);
      assert rest == Clean(raw);
      if rest == "" || !ShouldStream(rest) || emitted >= maxEmit {
        return true;
      }
      if !accepts(rest) {
        return false;
      }
      out := out + [rest];
      ok := true;
    }

    lemma TailIsLast()
      requires Valid()
      ensures CleanLines(Lines(fed), true) == CleanLines(Lines(fed)[..|Lines(fed)| - 1], true)
        + if Clean(buf) != "" && ShouldStream(Clean(buf)) then [Clean(buf)] else []
    {
    }
  }

  lemma Regroup(done: seq<string>, raw: string, rest: seq<string>)
    ensures done + ([raw] + rest) == (done + [raw]) + rest
  {
  }

  lemma CleanOne(raw: string)
    ensures CleanLines([raw], true) == if Clean(raw) != "" && ShouldStream(Clean(raw)) then [Clean(raw)] else []
  {
    assert [raw][..0] == [];
  }

  lemma NoNewline(t: string)
    requires Index(t, "\n", 0) < 0
    ensures Lines(t) == [t]
  {
    forall i | 0 <= i < |t| ensures t[i] != '\n' {
      assert !OccursAt(t, "\n", i);
      assert t[i..i + 1] == [t[i]];
    }
    OneLine(t);
  }

  lemma NewlineAt(t: string, i: nat)
    requires Index(t, "\n", 0) == i
    ensures i < |t| && t[i] == '\n' && '\n' !in t[..i]
  {
    assert OccursAt(t, "\n", i);
    assert t[i..i + 1][0] == t[i];
    forall k | 0 <= k < i ensures t[k] != '\n' {
      assert !OccursAt(t, "\n", k);
      assert t[k..k + 1] == [t[k]];
    }
  }

  function Concat(pieces: seq<string>): string {
    if pieces == [] then "" else Concat(pieces[..|pieces| - 1]) + pieces[|pieces| - 1]
  }

  /** Every way of cutting the model's output gives the same callbacks: the first streamable lines of the whole. */
  method StreamAll(pieces: seq<string>, maxEmit: nat) returns (out: seq<string>)
    requires maxEmit > 0
    ensures out == Take(CleanLines(Lines(Concat(pieces)), true), maxEmit)
  {
    hide CleanLines, Lines;
    var s := new LineQuerySplitter(_ => true, maxEmit);
    for i := 0 to |pieces|
      invariant fresh(s) && s.Valid() && s.maxEmit == maxEmit && forall l :: s.accepts(l)
      invariant s.fed == Concat(pieces[..i])
    {
      var ok := s.Write(pieces[i]);
      assert pieces[..i + 1][..i] == pieces[..i];
    }
    assert pieces[..|pieces|] == pieces;
    var ok := s.FlushTail();
    out := s.out;
  }

  /** The batch parser: the first five clean lines. */
  lemma NoCleanLines()
    ensures CleanLines([], false) == []
  {
  }

  lemma CleanLinesStep(raws: seq<string>, i: nat)
    requires i < |raws|
    ensures var c := Clean(raws[i]);
      CleanLines(raws[..i + 1], false) == CleanLines(raws[..i], false) + if c == "" then [] else [c]
  {
    hide Clean;
    assert raws[..i + 1][..i] == raws[..i];
  }

  method TryParseLines(s: string) returns (out: seq<string>)
    ensures out == Take(CleanLines(Lines(s), false), 5)
  {
    hide TrimSpace, Stripped, Lines, CleanLines;
    out := [];
    NoCleanLines();
    var raws := Lines(s);
    for i := 0 to |raws|
      invariant out == CleanLines(raws[..i], false) && |out| < 5
    {
      CleanLinesStep(raws, i);
      var line := TrimSpace(TrimCR(raws[i]));
      line := StripEnumerationPrefix(line);
      line := TrimSpace(line);
      assert line == Clean(raws[i]);
      if line == "" {
        continue;
      }
      out := out + [line];
      if |out| >= 5 {
        CleanLinesConcat(raws[..i + 1], raws[i + 1..], false);
        assert raws == raws[..i + 1] + raws[i + 1..];
        return;
      }
    }
    assert raws[..|raws|] == raws;
  }
}
