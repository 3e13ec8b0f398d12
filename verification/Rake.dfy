/**
 RAKE scoring: a word scores its degree over its frequency, a phrase the sum of its words, and phrases that
 are displayed alike are added up.  Scores are real numbers; `isHan` is the class of Han characters.
 */
module Rake {
  import opened Text

  type Phrase = seq<string>

  /** One word of one phrase, with the length of that phrase. */
  datatype Occurrence = Occurrence(word: string, len: nat)

  function OccurrencesOf(p: Phrase, n: nat): (r: seq<Occurrence>)
    requires n <= |p|
    ensures |r| == n && forall i :: 0 <= i < n ==> r[i] == Occurrence(p[i], |p|)
  {
    if n == 0 then [] else OccurrencesOf(p, n - 1) + [Occurrence(p[n - 1], |p|)]
  }

  /** The occurrences of the first `n` phrases. */
  function Occurrences(ps: seq<Phrase>, n: nat): seq<Occurrence>
    requires n <= |ps|
  {
    if n == 0 then [] else Occurrences(ps, n - 1) + OccurrencesOf(ps[n - 1], |ps[n - 1]|)
  }

  /** How often a word occurs. */
  function Freq(occ: seq<Occurrence>, w: string): nat {
    if occ == [] then 0 else Freq(occ[..|occ| - 1], w) + if occ[|occ| - 1].word == w then 1 else 0
  }

  /** The lengths of the phrases it occurs in, added up. */
  function Deg(occ: seq<Occurrence>, w: string): nat {
    if occ == [] then 0 else Deg(occ[..|occ| - 1], w) + if occ[|occ| - 1].word == w then occ[|occ| - 1].len else 0
  }

  function Score(occ: seq<Occurrence>, w: string): real {
    if Freq(occ, w) == 0 then 0.0 else Deg(occ, w) as real / Freq(occ, w) as real
  }

  function PhraseScore(occ: seq<Occurrence>, p: Phrase): real {
    if p == [] then 0.0 else PhraseScore(occ, p[..|p| - 1]) + Score(occ, p[|p| - 1])
  }

  // ---------------------------------------------------------------- in terms of the phrases

  /** How often a word stands in the first `n` phrases. */
  function TimesIn(ps: seq<Phrase>, n: nat, w: string): nat
    requires n <= |ps|
  {
    if n == 0 then 0 else TimesIn(ps, n - 1, w) + multiset(ps[n - 1])[w]
  }

  /** The lengths of the first `n` phrases, each counted as often as the word stands in it. */
  function LengthsWith(ps: seq<Phrase>, n: nat, w: string): nat
    requires n <= |ps|
  {
    if n == 0 then 0 else LengthsWith(ps, n - 1, w) + |ps[n - 1]| * multiset(ps[n - 1])[w]
  }

  lemma TallyStep(occ: seq<Occurrence>, o: Occurrence, w: string)
    ensures Freq(occ + [o], w) == Freq(occ, w) + (if o.word == w then 1 else 0)
    ensures Deg(occ + [o], w) == Deg(occ, w) + (if o.word == w then o.len else 0)
  {
    assert (occ + [o])[..|occ|] == occ;
  }

  lemma TimesOne(a: nat, k: nat)
    ensures a * (k + 1) == a * k + a && a * 0 == 0
  {
  }

  lemma {:induction false} TallyOfPhrase(before: seq<Occurrence>, p: Phrase, n: nat, w: string)
    requires n <= |p|
    ensures Freq(before + OccurrencesOf(p, n), w) == Freq(before, w) + multiset(p[..n])[w]
    ensures Deg(before + OccurrencesOf(p, n), w) == Deg(before, w) + |p| * multiset(p[..n])[w]
  {
    hide Freq, Deg;
    if n == 0 {
      assert before + OccurrencesOf(p, 0) == before;
      TimesOne(|p|, 0);
    } else {
      TallyOfPhrase(before, p, n - 1, w);
      var o := Occurrence(p[n - 1], |p|);
      assert before + OccurrencesOf(p, n) == (before + OccurrencesOf(p, n - 1)) + [o];
      TallyStep(before + OccurrencesOf(p, n - 1), o, w);
      assert p[..n] == p[..n - 1] + [p[n - 1]];
      TimesOne(|p|, multiset(p[..n - 1])[w]);
    }
  }

  /** Frequency and degree of a word, counted in the phrases. */
  lemma {:induction false} TallyMeans(ps: seq<Phrase>, n: nat, w: string)
    requires n <= |ps|
    ensures Freq(Occurrences(ps, n), w) == TimesIn(ps, n, w)
    ensures Deg(Occurrences(ps, n), w) == LengthsWith(ps, n, w)
  {
    if n > 0 {
      hide Freq, Deg;
      TallyMeans(ps, n - 1, w);
      var p := ps[n - 1];
      TallyOfPhrase(Occurrences(ps, n - 1), p, |p|, w);
      assert p[..|p|] == p;
    }
  }

  lemma ScoreIs(occ: seq<Occurrence>, w: string)
    ensures if Freq(occ, w) == 0 then Score(occ, w) == 0.0 else Score(occ, w) == Deg(occ, w) as real / Freq(occ, w) as real
  {
    hide Freq, Deg;
  }

  /** The score of a word: the lengths of the phrases it stands in over how often it does; nothing if it never does. */
  lemma ScoreMeans(ps: seq<Phrase>, w: string)
    ensures var occ, n, len := Occurrences(ps, |ps|), TimesIn(ps, |ps|, w), LengthsWith(ps, |ps|, w);
      Score(occ, w) == if n == 0 then 0.0 else len as real / n as real
  {
    TallyMeans(ps, |ps|, w);
    hide Freq, Deg, Occurrences, TimesIn, LengthsWith, Score;
    ScoreIs(Occurrences(ps, |ps|), w);
  }

  /** A phrase scores what its words score, however it is cut in two. */
  lemma {:induction false} PhraseScoreMeans(occ: seq<Occurrence>, p: Phrase, q: Phrase)
    ensures PhraseScore(occ, p + q) == PhraseScore(occ, p) + PhraseScore(occ, q)
    ensures |q| == 1 ==> PhraseScore(occ, q) == Score(occ, q[0])
  {
    hide Score;
    if q == [] {
      assert p + q == p;
    } else {
      var n := |q| - 1;
      PhraseScoreMeans(occ, p, q[..n]);
      assert (p + q)[..|p + q| - 1] == p + q[..n];
      assert n == 0 ==> q[..n] == [];
    }
  }

  // ---------------------------------------------------------------- the double count

  /** `n` occurrences of `occ` from the left, each contributing the score of its word. */
  function ScoreSum(occ: seq<Occurrence>, n: nat): real
    requires n <= |occ|
  {
    if n == 0 then 0.0 else ScoreSum(occ, n - 1) + Score(occ, occ[n - 1].word)
  }

  function LenSum(occ: seq<Occurrence>, n: nat): nat
    requires n <= |occ|
  {
    if n == 0 then 0 else LenSum(occ, n - 1) + occ[n - 1].len
  }

  /** The share of occurrence `j` in the score of occurrence `i`. */
  function Share(occ: seq<Occurrence>, i: nat, j: nat): real
    requires i < |occ| && j < |occ|
  {
    if occ[i].word == occ[j].word && Freq(occ, occ[i].word) > 0 then occ[j].len as real / Freq(occ, occ[i].word) as real
    else 0.0
  }

  function RowSum(occ: seq<Occurrence>, i: nat, m: nat): real
    requires i < |occ| && m <= |occ|
  {
    if m == 0 then 0.0 else RowSum(occ, i, m - 1) + Share(occ, i, m - 1)
  }

  function ColSum(occ: seq<Occurrence>, n: nat, j: nat): real
    requires n <= |occ| && j < |occ|
  {
    if n == 0 then 0.0 else ColSum(occ, n - 1, j) + Share(occ, n - 1, j)
  }

  function RowsSum(occ: seq<Occurrence>, n: nat, m: nat): real
    requires n <= |occ| && m <= |occ|
  {
    if n == 0 then 0.0 else RowsSum(occ, n - 1, m) + RowSum(occ, n - 1, m)
  }

  function ColsSum(occ: seq<Occurrence>, n: nat, m: nat): real
    requires n <= |occ| && m <= |occ|
  {
    if m == 0 then 0.0 else ColsSum(occ, n, m - 1) + ColSum(occ, n, m - 1)
  }

  lemma {:induction false} NoRows(occ: seq<Occurrence>, m: nat)
    requires m <= |occ|
    ensures ColsSum(occ, 0, m) == 0.0
  {
    if m > 0 {
      NoRows(occ, m - 1);
    }
  }

  lemma {:induction false} OneMoreRow(occ: seq<Occurrence>, n: nat, m: nat)
    requires 0 < n <= |occ| && m <= |occ|
    ensures ColsSum(occ, n, m) == ColsSum(occ, n - 1, m) + RowSum(occ, n - 1, m)
  {
    hide Share;
    if m > 0 {
      OneMoreRow(occ, n, m - 1);
    }
  }

  /** Adding the table of shares by rows or by columns. */
  lemma {:induction false} RowsAreCols(occ: seq<Occurrence>, n: nat, m: nat)
    requires n <= |occ| && m <= |occ|
    ensures RowsSum(occ, n, m) == ColsSum(occ, n, m)
  {
    if n == 0 {
      NoRows(occ, m);
    } else {
      RowsAreCols(occ, n - 1, m);
      OneMoreRow(occ, n, m);
    }
  }

  lemma {:induction false} FreqPositive(occ: seq<Occurrence>, i: nat)
    requires i < |occ|
    ensures Freq(occ, occ[i].word) > 0
  {
    if i < |occ| - 1 {
      FreqPositive(occ[..|occ| - 1], i);
    }
  }

  lemma AddFractions(a: int, b: int, f: real)
    requires f > 0.0
    ensures a as real / f + b as real / f == (a + b) as real / f
  {
  }

  /** A row of shares is the degree of its word over the frequency. */
  lemma {:induction false} RowIsScore(occ: seq<Occurrence>, i: nat, m: nat)
    requires i < |occ| && m <= |occ|
    ensures Freq(occ, occ[i].word) > 0
    ensures RowSum(occ, i, m) == Deg(occ[..m], occ[i].word) as real / Freq(occ, occ[i].word) as real
  {
    FreqPositive(occ, i);
    var f := Freq(occ, occ[i].word) as real;
    if m > 0 {
      RowIsScore(occ, i, m - 1);
      assert occ[..m][..m - 1] == occ[..m - 1];
      AddFractions(Deg(occ[..m - 1], occ[i].word), if occ[m - 1].word == occ[i].word then occ[m - 1].len else 0, f);
    } else {
      assert occ[..0] == [];
    }
  }

  lemma FreqStep(occ: seq<Occurrence>, n: nat, w: string)
    requires n < |occ|
    ensures Freq(occ[..n + 1], w) == Freq(occ[..n], w) + if occ[n].word == w then 1 else 0
  {
    assert occ[..n + 1][..n] == occ[..n];
  }

  lemma OneMore(a: int, k: int)
    ensures a * (k + 1) == a * k + a
  {
  }

  /** A column of shares is the length it belongs to, as many times over the frequency as the word occurs. */
  lemma {:induction false} ColIsLen(occ: seq<Occurrence>, n: nat, j: nat)
    requires n <= |occ| && j < |occ|
    ensures Freq(occ, occ[j].word) > 0
    ensures ColSum(occ, n, j) == (occ[j].len * Freq(occ[..n], occ[j].word)) as real / Freq(occ, occ[j].word) as real
  {
    FreqPositive(occ, j);
    var f := Freq(occ, occ[j].word) as real;
    var len := occ[j].len;
    if n > 0 {
      ColIsLen(occ, n - 1, j);
      FreqStep(occ, n - 1, occ[j].word);
      var k := Freq(occ[..n - 1], occ[j].word);
      hide Freq;
      if occ[n - 1].word == occ[j].word {
        OneMore(len, k);
        AddFractions(len * k, len, f);
      }
    } else {
      assert occ[..0] == [];
    }
  }

  lemma {:induction false} ScoresAreRows(occ: seq<Occurrence>, n: nat)
    requires n <= |occ|
    ensures ScoreSum(occ, n) == RowsSum(occ, n, |occ|)
  {
    if n > 0 {
      ScoresAreRows(occ, n - 1);
      RowIsScore(occ, n - 1, |occ|);
      assert occ[..|occ|] == occ;
    }
  }

  lemma CancelFraction(a: nat, f: nat)
    requires f > 0
    ensures (a * f) as real / f as real == a as real
  {
    assert (a * f) as real == a as real * f as real;
  }

  lemma {:induction false} ColsAreLens(occ: seq<Occurrence>, m: nat)
    requires m <= |occ|
    ensures ColsSum(occ, |occ|, m) == LenSum(occ, m) as real
  {
    if m > 0 {
      ColsAreLens(occ, m - 1);
      ColIsLen(occ, |occ|, m - 1);
      assert occ[..|occ|] == occ;
      CancelFraction(occ[m - 1].len, Freq(occ, occ[m - 1].word));
    }
  }

  /** All word scores, added over all occurrences, give all phrase lengths, added over all occurrences. */
  lemma DoubleCount(occ: seq<Occurrence>)
    ensures ScoreSum(occ, |occ|) == LenSum(occ, |occ|) as real
  {
    ScoresAreRows(occ, |occ|);
    RowsAreCols(occ, |occ|, |occ|);
    ColsAreLens(occ, |occ|);
  }

  // ---------------------------------------------------------------- from occurrences to phrases

  function SquareSum(ps: seq<Phrase>, n: nat): nat
    requires n <= |ps|
  {
    if n == 0 then 0 else SquareSum(ps, n - 1) + |ps[n - 1]| * |ps[n - 1]|
  }

  function PhraseSum(occ: seq<Occurrence>, ps: seq<Phrase>, n: nat): real
    requires n <= |ps|
  {
    if n == 0 then 0.0 else PhraseSum(occ, ps, n - 1) + PhraseScore(occ, ps[n - 1])
  }

  /** Along a stretch of `all` that starts at `from` and spells the first `k` words of `p`. */
  lemma {:induction false} PhraseStretch(all: seq<Occurrence>, p: Phrase, from: nat, k: nat)
    requires k <= |p| && from + k <= |all|
    requires forall i :: 0 <= i < k ==> all[from + i] == Occurrence(p[i], |p|)
    ensures ScoreSum(all, from + k) == ScoreSum(all, from) + PhraseScore(all, p[..k])
    ensures LenSum(all, from + k) == LenSum(all, from) + k * |p|
  {
    hide Score;
    if k > 0 {
      PhraseStretch(all, p, from, k - 1);
      assert p[..k][..k - 1] == p[..k - 1];
      assert all[from + (k - 1)] == Occurrence(p[k - 1], |p|);
      assert k * |p| == (k - 1) * |p| + |p|;
    } else {
      assert p[..0] == [];
    }
  }

  lemma {:induction false} OccurrencesPrefix(ps: seq<Phrase>, m: nat, n: nat)
    requires m <= n <= |ps|
    ensures Occurrences(ps, m) <= Occurrences(ps, n)
    decreases n
  {
    if m < n {
      OccurrencesPrefix(ps, m, n - 1);
    }
  }

  /** Behind the occurrences of the phrases before it, phrase `n - 1` is spelled out. */
  lemma OccurrencesSpell(ps: seq<Phrase>, n: nat)
    requires 0 < n <= |ps|
    ensures var all, p, from := Occurrences(ps, |ps|), ps[n - 1], |Occurrences(ps, n - 1)|;
      && from + |p| == |Occurrences(ps, n)| <= |all|
      && forall i :: 0 <= i < |p| ==> all[from + i] == Occurrence(p[i], |p|)
  {
    var all, p, from := Occurrences(ps, |ps|), ps[n - 1], |Occurrences(ps, n - 1)|;
    OccurrencesPrefix(ps, n, |ps|);
    assert Occurrences(ps, n) == Occurrences(ps, n - 1) + OccurrencesOf(p, |p|);
    hide Occurrences;
    forall i | 0 <= i < |p| ensures all[from + i] == Occurrence(p[i], |p|) {
      assert Occurrences(ps, n)[from + i] == OccurrencesOf(p, |p|)[i];
      assert all[from + i] == Occurrences(ps, n)[from + i];
    }
  }

  lemma NoOccurrences(ps: seq<Phrase>)
    ensures Occurrences(ps, 0) == []
    ensures ScoreSum(Occurrences(ps, |ps|), 0) == 0.0 && LenSum(Occurrences(ps, |ps|), 0) == 0
  {
  }

  lemma {:induction false} SumsByPhrase(ps: seq<Phrase>, n: nat)
    requires n <= |ps|
    ensures var all := Occurrences(ps, |ps|); var k := |Occurrences(ps, n)|;
      k <= |all| && ScoreSum(all, k) == PhraseSum(all, ps, n) && LenSum(all, k) == SquareSum(ps, n)
  {
    hide Occurrences, PhraseScore, ScoreSum, LenSum;
    if n == 0 {
      NoOccurrences(ps);
    } else {
      SumsByPhrase(ps, n - 1);
      OccurrencesSpell(ps, n);
      var p := ps[n - 1];
      PhraseStretch(Occurrences(ps, |ps|), p, |Occurrences(ps, n - 1)|, |p|);
      assert p[..|p|] == p;
    }
  }

  /** The scores of all phrases add up to the sum of their squared lengths. */
  lemma PhraseScoresSumToSquares(ps: seq<Phrase>)
    ensures PhraseSum(Occurrences(ps, |ps|), ps, |ps|) == SquareSum(ps, |ps|) as real
  {
    SumsByPhrase(ps, |ps|);
    DoubleCount(Occurrences(ps, |ps|));
  }

  /** `m` bounds the phrase lengths, none of which is zero. */
  lemma {:induction false} DegBetween(occ: seq<Occurrence>, w: string, m: nat)
    requires forall i :: 0 <= i < |occ| ==> 1 <= occ[i].len <= m
    ensures Freq(occ, w) <= Deg(occ, w) <= m * Freq(occ, w)
  {
    if occ != [] {
      var n := |occ| - 1;
      DegBetween(occ[..n], w, m);
      assert 1 <= occ[n].len <= m;
      assert m * (Freq(occ[..n], w) + 1) == m * Freq(occ[..n], w) + m;
    }
  }

  /** Each word score lies between one and the longest phrase length. */
  lemma ScoreBetween(occ: seq<Occurrence>, i: nat, m: nat)
    requires i < |occ| && forall k :: 0 <= k < |occ| ==> 1 <= occ[k].len <= m
    ensures 1.0 <= Score(occ, occ[i].word) <= m as real
  {
    FreqPositive(occ, i);
    DegBetween(occ, occ[i].word, m);
    var f, d := Freq(occ, occ[i].word), Deg(occ, occ[i].word);
    QuotientBetween(d, f, m);
  }

  lemma QuotientBetween(d: nat, f: nat, m: nat)
    requires f > 0 && f <= d <= m * f
    ensures 1.0 <= d as real / f as real <= m as real
  {
    assert (m * f) as real == m as real * f as real;
    RealQuotient(d as real, f as real, m as real);
  }

  lemma RealQuotient(x: real, y: real, m: real)
    requires y > 0.0 && y <= x <= m * y
    ensures 1.0 <= x / y <= m
  {
    var q := x / y;
    assert q * y == x;
    if q < 1.0 {
      PositiveProduct(1.0 - q, y);
    } else if q > m {
      PositiveProduct(q - m, y);
    }
  }

  lemma PositiveProduct(a: real, b: real)
    requires a > 0.0 && b > 0.0
    ensures a * b > 0.0
  {
  }
}
