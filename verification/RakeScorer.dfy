/** `scorePhrases` and the ranking, with the maps and loops of the source. */
module RakeScorer {
  import opened Text
  import opened Utf8
  import opened Rake

  datatype RankedPhrase = RankedPhrase(phrase: string, score: real)

  predicate AllHan(p: Phrase, isHan: char -> bool) {
    forall i :: 0 <= i < |p| ==> forall k :: 0 <= k < |p[i]| ==> isHan(p[i][k])
  }

  /** Han words are written together, others with spaces. */
  function Display(p: Phrase, isHan: char -> bool): string {
    if p == [] then ""
    else if |p| == 1 then p[0]
    else if AllHan(p, isHan) then Join(p, "")
    else Join(p, " ")
  }

  /** The words of a phrase with `sep` between any two, from the front. */
  function Written(p: Phrase, sep: string): string {
    if p == [] then "" else if |p| == 1 then p[0] else p[0] + sep + Written(p[1..], sep)
  }

  lemma {:induction false} WrittenStep(p: Phrase, w: string, sep: string)
    requires p != []
    ensures Written(p + [w], sep) == Written(p, sep) + (sep + w)
  {
    if |p| == 1 {
      assert (p + [w])[1..] == [w];
    } else {
      WrittenStep(p[1..], w, sep);
      assert (p + [w])[1..] == p[1..] + [w];
    }
  }

  lemma {:induction false} JoinIsWritten(p: Phrase, sep: string, n: nat)
    requires 0 < n <= |p|
    ensures JoinFirst(p, n, sep) == Written(p[..n], sep)
  {
    if n == 1 {
      assert p[..1] == [p[0]];
    } else {
      hide Written;
      JoinIsWritten(p, sep, n - 1);
      WrittenStep(p[..n - 1], p[n - 1], sep);
      assert p[..n] == p[..n - 1] + [p[n - 1]];
    }
  }

  /** A phrase of Han words only is written without spaces, any other with one space between words. */
  lemma DisplayIsWritten(p: Phrase, isHan: char -> bool)
    ensures Display(p, isHan) == Written(p, if forall w, c :: w in p && c in w ==> isHan(c) then "" else " ")
  {
    assert AllHan(p, isHan) <==> forall w, c :: w in p && c in w ==> isHan(c) by {
      if AllHan(p, isHan) {
        forall w, c | w in p && c in w ensures isHan(c) {
          var i :| 0 <= i < |p| && p[i] == w;
          var k :| 0 <= k < |w| && w[k] == c;
        }
      } else {
        var i, k :| 0 <= i < |p| && 0 <= k < |p[i]| && !isHan(p[i][k]);
        assert p[i] in p && p[i][k] in p[i];
      }
    }
    hide AllHan;
    if p != [] {
      assert p[..|p|] == p;
      JoinIsWritten(p, "", |p|);
      JoinIsWritten(p, " ", |p|);
    }
  }

  /** The scores of the first `n` phrases displayed as `key`. */
  function AggOf(occ: seq<Occurrence>, ps: seq<Phrase>, n: nat, key: string, isHan: char -> bool): real
    requires n <= |ps|
  {
    if n == 0 then 0.0
    else AggOf(occ, ps, n - 1, key, isHan) + if Display(ps[n - 1], isHan) == key then PhraseScore(occ, ps[n - 1]) else 0.0
  }

  /** Some phrase among the first `n` is displayed as `key`. */
  ghost predicate Shown(ps: seq<Phrase>, n: nat, key: string, isHan: char -> bool)
    requires n <= |ps|
  {
    key != "" && exists j :: 0 <= j < n && Display(ps[j], isHan) == key
  }

  function Usable(phrases: seq<Phrase>, minTok: nat, n: nat): seq<Phrase>
    requires n <= |phrases|
  {
    if n == 0 then [] else Usable(phrases, minTok, n - 1) + if |phrases[n - 1]| >= minTok then [phrases[n - 1]] else []
  }

  lemma UsableStep(phrases: seq<Phrase>, minTok: nat, n: nat)
    requires n < |phrases|
    ensures var before, next := Usable(phrases, minTok, n), phrases[n];
      Usable(phrases, minTok, n + 1) == if |next| >= minTok then before + [next] else before
  {
  }

  /** `out` are the phrases at the positions `at`: of the first `n` all that have enough words, in order. */
  ghost predicate Picked(phrases: seq<Phrase>, minTok: nat, n: nat, out: seq<Phrase>, at: seq<nat>)
    requires n <= |phrases|
  {
    && |at| == |out|
    && (forall k :: 0 <= k < |at| ==> at[k] < n && |phrases[at[k]]| >= minTok && out[k] == phrases[at[k]])
    && (forall k, l :: 0 <= k < l < |at| ==> at[k] < at[l])
    && forall i :: 0 <= i < n && |phrases[i]| >= minTok ==> i in at
  }

  lemma NonePicked(phrases: seq<Phrase>, minTok: nat)
    ensures Picked(phrases, minTok, 0, Usable(phrases, minTok, 0), [])
  {
  }

  lemma PickedStep(phrases: seq<Phrase>, minTok: nat, n: nat, out: seq<Phrase>, at: seq<nat>)
    requires n < |phrases| && Picked(phrases, minTok, n, out, at)
    ensures if |phrases[n]| >= minTok then Picked(phrases, minTok, n + 1, out + [phrases[n]], at + [n])
      else Picked(phrases, minTok, n + 1, out, at)
  {
  }

  /** The phrases that are scored are all those with enough words, in order: `at` tells which. */
  lemma {:induction false} UsableMeans(phrases: seq<Phrase>, minTok: nat, n: nat) returns (at: seq<nat>)
    requires n <= |phrases|
    ensures Picked(phrases, minTok, n, Usable(phrases, minTok, n), at)
  {
    hide Picked, Usable;
    if n == 0 {
      NonePicked(phrases, minTok);
      at := [];
    } else {
      at := UsableMeans(phrases, minTok, n - 1);
      UsableStep(phrases, minTok, n - 1);
      PickedStep(phrases, minTok, n - 1, Usable(phrases, minTok, n - 1), at);
      if |phrases[n - 1]| >= minTok {
        at := at + [n - 1];
      }
    }
  }

  ghost predicate Distinct(out: seq<RankedPhrase>) {
    forall i, j :: 0 <= i < j < |out| ==> out[i].phrase != out[j].phrase
  }

  ghost predicate Lists(out: seq<RankedPhrase>, key: string) {
    exists i :: 0 <= i < |out| && out[i].phrase == key
  }

  /** Each display that is shown is listed once, with the scores of all its phrases. */
  ghost predicate Ranks(out: seq<RankedPhrase>, ps: seq<Phrase>, isHan: char -> bool) {
    var occ := Occurrences(ps, |ps|);
    && Distinct(out)
    && (forall i :: 0 <= i < |out| ==> out[i].score == AggOf(occ, ps, |ps|, out[i].phrase, isHan))
    && forall key :: Lists(out, key) <==> Shown(ps, |ps|, key, isHan)
  }

  /** The two word maps hold the tallies of `occ`. */
  ghost predicate Tallied(freq: map<string, nat>, deg: map<string, nat>, occ: seq<Occurrence>) {
    forall w :: (w in freq <==> Freq(occ, w) > 0)
             && (w in freq ==> w in deg && freq[w] == Freq(occ, w) && deg[w] == Deg(occ, w))
  }

  lemma {:induction false} NoFreqNoDeg(occ: seq<Occurrence>, w: string)
    requires Freq(occ, w) == 0
    ensures Deg(occ, w) == 0
  {
    if occ != [] {
      NoFreqNoDeg(occ[..|occ| - 1], w);
    }
  }

  method CountWords(usable: seq<Phrase>) returns (wordFreq: map<string, nat>, wordDeg: map<string, nat>)
    ensures Tallied(wordFreq, wordDeg, Occurrences(usable, |usable|))
  {
    wordFreq, wordDeg := map[], map[];
    for i := 0 to |usable|
      invariant Tallied(wordFreq, wordDeg, Occurrences(usable, i))
    {
      var p := usable[i];
      var lw := |p|;
      ghost var before := Occurrences(usable, i);
      assert before + OccurrencesOf(p, 0) == before;
      for k := 0 to lw
        invariant Tallied(wordFreq, wordDeg, before + OccurrencesOf(p, k))
      {
        var w := p[k];
        wordFreq, wordDeg := CountOne(wordFreq, wordDeg, w, lw, before + OccurrencesOf(p, k));
        assert before + OccurrencesOf(p, k + 1) == before + OccurrencesOf(p, k) + [Occurrence(w, lw)];
      }
    }
  }

  /** `wordFreq[w]++; wordDeg[w] += lw`, where an absent word counts as zero. */
  method CountOne(freq: map<string, nat>, deg: map<string, nat>, w: string, lw: nat, ghost occ: seq<Occurrence>)
    returns (freq': map<string, nat>, deg': map<string, nat>)
    requires Tallied(freq, deg, occ)
    ensures Tallied(freq', deg', occ + [Occurrence(w, lw)])
  {
    ghost var more := occ + [Occurrence(w, lw)];
    assert more[..|more| - 1] == occ;
    if w !in freq {
      NoFreqNoDeg(occ, w);
      freq', deg' := freq[w := 1], deg[w := lw];
    } else {
      freq', deg' := freq[w := freq[w] + 1], deg[w := deg[w] + lw];
    }
    forall v ensures Freq(more, v) == Freq(occ, v) + (if v == w then 1 else 0)
             && Deg(more, v) == Deg(occ, v) + (if v == w then lw else 0) {
    }
  }

  method ScoreWords(freq: map<string, nat>, deg: map<string, nat>, ghost occ: seq<Occurrence>)
    returns (wordScore: map<string, real>)
    requires Tallied(freq, deg, occ)
    ensures wordScore.Keys == freq.Keys && forall w :: w in wordScore ==> wordScore[w] == Score(occ, w)
  {
    wordScore := map[];
    var todo := freq.Keys;
    while todo != {}
      invariant todo <= freq.Keys && wordScore.Keys == freq.Keys - todo
      invariant forall w :: w in wordScore ==> wordScore[w] == Score(occ, w)
      decreases |todo|
    {
      var w :| w in todo;
      assert w in freq;
      wordScore := wordScore[w := deg[w] as real / freq[w] as real];
      todo := todo - {w};
    }
  }

  method ScoreOf(p: Phrase, wordScore: map<string, real>, ghost occ: seq<Occurrence>) returns (s: real)
    requires forall w :: w in wordScore ==> wordScore[w] == Score(occ, w)
    requires forall w :: w !in wordScore ==> Freq(occ, w) == 0
    ensures s == PhraseScore(occ, p)
  {
    hide Score, Freq;
    s := 0.0;
    for k := 0 to |p|
      invariant s == PhraseScore(occ, p[..k])
    {
      assert p[..k + 1][..k] == p[..k];
      ZeroWithoutFreq(occ, p[k]);
      s := s + if p[k] in wordScore then wordScore[p[k]] else 0.0;
    }
    assert p[..|p|] == p;
  }

  lemma ZeroWithoutFreq(occ: seq<Occurrence>, w: string)
    ensures Freq(occ, w) == 0 ==> Score(occ, w) == 0.0
  {
  }

  method ScorePhrases(phrases: seq<Phrase>, minTok0: int, isHan: char -> bool) returns (out: seq<RankedPhrase>)
    ensures var minTok := if minTok0 < 1 then 1 else minTok0;
      Ranks(out, Usable(phrases, minTok, |phrases|), isHan)
  {
    var minTok := minTok0;
    if minTok < 1 {
      minTok := 1;
    }
    var usable: seq<Phrase> := [];
    for i := 0 to |phrases|
      invariant usable == Usable(phrases, minTok, i)
    {
      if |phrases[i]| >= minTok {
        usable := usable + [phrases[i]];
      }
    }
    if |usable| == 0 {
      return [];
    }
    ghost var occ := Occurrences(usable, |usable|);
    hide Occurrences, Score, Freq, Deg, PhraseScore, Display;
    var wordFreq, wordDeg := CountWords(usable);
    var wordScore := ScoreWords(wordFreq, wordDeg, occ);
    var agg := AggregatePhrases(usable, wordScore, occ, isHan);
    out := ListAll(agg);
    forall i | 0 <= i < |out| ensures out[i].score == AggOf(occ, usable, |usable|, out[i].phrase, isHan) {
      assert out[i].phrase in agg;
    }
  }

  method AggregatePhrases(usable: seq<Phrase>, wordScore: map<string, real>, ghost occ: seq<Occurrence>, isHan: char -> bool)
    returns (agg: map<string, real>)
    requires forall w :: w in wordScore ==> wordScore[w] == Score(occ, w)
    requires forall w :: w !in wordScore ==> Freq(occ, w) == 0
    ensures forall key :: key in agg <==> Shown(usable, |usable|, key, isHan)
    ensures forall key :: key in agg ==> agg[key] == AggOf(occ, usable, |usable|, key, isHan)
  {
    hide Score, Freq, Display, PhraseScore;
    agg := map[];
    for i := 0 to |usable|
      invariant forall key :: key in agg <==> Shown(usable, i, key, isHan)
      invariant forall key :: key in agg ==> agg[key] == AggOf(occ, usable, i, key, isHan)
    {
      var key := Display(usable[i], isHan);
      forall k ensures Shown(usable, i + 1, k, isHan) <==> Shown(usable, i, k, isHan) || (k == key && k != "") {
        ShownStep(usable, i, k, isHan);
      }
      if key != "" {
        var s := ScoreOf(usable[i], wordScore, occ);
        if key !in agg {
          NothingShown(occ, usable, i, key, isHan);
        }
        agg := agg[key := (if key in agg then agg[key] else 0.0) + s];
      }
    }
  }

  lemma ShownStep(ps: seq<Phrase>, n: nat, key: string, isHan: char -> bool)
    requires n < |ps|
    ensures Shown(ps, n + 1, key, isHan) <==> Shown(ps, n, key, isHan) || (key == Display(ps[n], isHan) && key != "")
  {
    hide Display;
    if Shown(ps, n + 1, key, isHan) {
      var j :| 0 <= j < n + 1 && Display(ps[j], isHan) == key;
    }
    if key == Display(ps[n], isHan) && key != "" {
      assert Display(ps[n], isHan) == key && n < n + 1;
    }
  }

  lemma {:induction false} NothingShown(occ: seq<Occurrence>, ps: seq<Phrase>, n: nat, key: string, isHan: char -> bool)
    requires n <= |ps| && key != "" && !Shown(ps, n, key, isHan)
    ensures AggOf(occ, ps, n, key, isHan) == 0.0
  {
    hide Display, PhraseScore;
    if n > 0 {
      ShownStep(ps, n - 1, key, isHan);
      NothingShown(occ, ps, n - 1, key, isHan);
    }
  }

  /** The entries of a map, in some order. */
  method ListAll(agg: map<string, real>) returns (out: seq<RankedPhrase>)
    ensures Distinct(out) && forall key :: Lists(out, key) <==> key in agg
    ensures forall i :: 0 <= i < |out| ==> out[i].phrase in agg && out[i].score == agg[out[i].phrase]
  {
    out := [];
    var todo := agg.Keys;
    while todo != {}
      invariant todo <= agg.Keys && Distinct(out)
      invariant forall i :: 0 <= i < |out| ==> out[i].phrase in agg && out[i].phrase !in todo && out[i].score == agg[out[i].phrase]
      invariant forall key :: key in agg && key !in todo ==> Lists(out, key)
      decreases |todo|
    {
      var ph :| ph in todo;
      ghost var before := out;
      out := out + [RankedPhrase(ph, agg[ph])];
      todo := todo - {ph};
      forall key | key in agg && key !in todo ensures Lists(out, key) {
        if key == ph {
          assert out[|before|].phrase == key;
        } else {
          assert Lists(before, key);
          var i :| 0 <= i < |before| && before[i].phrase == key;
          assert out[i].phrase == key;
        }
      }
    }
  }

  // ---------------------------------------------------------------- conservation

  function OutSum(out: seq<RankedPhrase>, n: nat): real
    requires n <= |out|
  {
    if n == 0 then 0.0 else OutSum(out, n - 1) + out[n - 1].score
  }

  /** The sum over the first `m` entries, if only the first `n` phrases had been scored. */
  function PartSum(out: seq<RankedPhrase>, m: nat, occ: seq<Occurrence>, ps: seq<Phrase>, n: nat, isHan: char -> bool): real
    requires m <= |out| && n <= |ps|
  {
    if m == 0 then 0.0
    else PartSum(out, m - 1, occ, ps, n, isHan) + AggOf(occ, ps, n, out[m - 1].phrase, isHan)
  }

  lemma {:induction false} PartSumZero(out: seq<RankedPhrase>, m: nat, occ: seq<Occurrence>, ps: seq<Phrase>, isHan: char -> bool)
    requires m <= |out|
    ensures PartSum(out, m, occ, ps, 0, isHan) == 0.0
  {
    if m > 0 {
      PartSumZero(out, m - 1, occ, ps, isHan);
    }
  }

  /** One more phrase adds its score to the one entry it is displayed as. */
  lemma {:induction false} PartSumStep(out: seq<RankedPhrase>, m: nat, occ: seq<Occurrence>, ps: seq<Phrase>, n: nat, isHan: char -> bool, at: int)
    requires m <= |out| && 0 < n <= |ps| && Distinct(out)
    requires 0 <= at < |out| ==> out[at].phrase == Display(ps[n - 1], isHan)
    requires !(0 <= at < |out|) ==> !Lists(out, Display(ps[n - 1], isHan))
    ensures PartSum(out, m, occ, ps, n, isHan) ==
      PartSum(out, m, occ, ps, n - 1, isHan) + if 0 <= at < m then PhraseScore(occ, ps[n - 1]) else 0.0
  {
    hide PhraseScore, Display;
    if m > 0 {
      PartSumStep(out, m - 1, occ, ps, n, isHan, at);
      if out[m - 1].phrase == Display(ps[n - 1], isHan) {
        assert Lists(out, Display(ps[n - 1], isHan));
      }
    }
  }

  /** The scores of the phrases that have a display. */
  function DisplayedSum(occ: seq<Occurrence>, ps: seq<Phrase>, n: nat, isHan: char -> bool): real
    requires n <= |ps|
  {
    if n == 0 then 0.0
    else DisplayedSum(occ, ps, n - 1, isHan) + if Display(ps[n - 1], isHan) != "" then PhraseScore(occ, ps[n - 1]) else 0.0
  }

  lemma {:induction false} PartSumIsDisplayed(out: seq<RankedPhrase>, ps: seq<Phrase>, n: nat, isHan: char -> bool)
    requires Ranks(out, ps, isHan) && n <= |ps|
    ensures PartSum(out, |out|, Occurrences(ps, |ps|), ps, n, isHan) == DisplayedSum(Occurrences(ps, |ps|), ps, n, isHan)
  {
    hide PhraseScore, Display, Occurrences;
    var occ := Occurrences(ps, |ps|);
    if n == 0 {
      PartSumZero(out, |out|, occ, ps, isHan);
    } else {
      PartSumIsDisplayed(out, ps, n - 1, isHan);
      var key := Display(ps[n - 1], isHan);
      if key != "" {
        assert Shown(ps, |ps|, key, isHan);
        assert Lists(out, key);
        var at :| 0 <= at < |out| && out[at].phrase == key;
        PartSumStep(out, |out|, occ, ps, n, isHan, at);
      } else {
        assert !Shown(ps, |ps|, key, isHan);
        PartSumStep(out, |out|, occ, ps, n, isHan, -1);
      }
    }
  }

  lemma {:induction false} OutSumIsPartSum(out: seq<RankedPhrase>, ps: seq<Phrase>, m: nat, isHan: char -> bool)
    requires Ranks(out, ps, isHan) && m <= |out|
    ensures OutSum(out, m) == PartSum(out, m, Occurrences(ps, |ps|), ps, |ps|, isHan)
  {
    hide AggOf, Occurrences;
    if m > 0 {
      OutSumIsPartSum(out, ps, m - 1, isHan);
    }
  }

  /** A phrase with words has a positive score. */
  lemma {:induction false} PhraseScorePositive(occ: seq<Occurrence>, p: Phrase)
    requires p != [] && forall i :: 0 <= i < |p| ==> Score(occ, p[i]) >= 1.0
    ensures PhraseScore(occ, p) >= 1.0
  {
    hide Score;
    if |p| > 1 {
      PhraseScorePositive(occ, p[..|p| - 1]);
    } else {
      assert p[..0] == [];
    }
  }

  lemma {:induction false} DisplayedOrNot(occ: seq<Occurrence>, ps: seq<Phrase>, n: nat, isHan: char -> bool)
    requires n <= |ps| && forall i :: 0 <= i < |ps| ==> PhraseScore(occ, ps[i]) >= 1.0
    ensures DisplayedSum(occ, ps, n, isHan) <= PhraseSum(occ, ps, n)
    ensures DisplayedSum(occ, ps, n, isHan) == PhraseSum(occ, ps, n) <==>
      forall i :: 0 <= i < n ==> Display(ps[i], isHan) != ""
  {
    hide PhraseScore, Display;
    if n > 0 {
      DisplayedOrNot(occ, ps, n - 1, isHan);
      assert PhraseScore(occ, ps[n - 1]) >= 1.0;
    }
  }

  /** The lengths recorded with the words are the lengths of real phrases. */
  lemma {:induction false} LengthsBounded(ps: seq<Phrase>, n: nat, m: nat)
    requires n <= |ps| && forall i :: 0 <= i < |ps| ==> 1 <= |ps[i]| <= m
    ensures forall k :: 0 <= k < |Occurrences(ps, n)| ==> 1 <= Occurrences(ps, n)[k].len <= m
  {
    if n > 0 {
      LengthsBounded(ps, n - 1, m);
    }
  }

  /** Every word of every phrase occurs. */
  lemma {:induction false} WordOccurs(ps: seq<Phrase>, n: nat, i: nat, k: nat) returns (at: nat)
    requires i < n <= |ps| && k < |ps[i]|
    ensures at < |Occurrences(ps, n)| && Occurrences(ps, n)[at].word == ps[i][k]
  {
    if i < n - 1 {
      at := WordOccurs(ps, n - 1, i, k);
    } else {
      at := |Occurrences(ps, n - 1)| + k;
    }
  }

  /** Each word score is between one and the longest phrase length `m`. */
  lemma WordScoreBetween(ps: seq<Phrase>, m: nat, i: nat, k: nat)
    requires i < |ps| && k < |ps[i]| && forall x :: 0 <= x < |ps| ==> 1 <= |ps[x]| <= m
    ensures 1.0 <= Score(Occurrences(ps, |ps|), ps[i][k]) <= m as real
  {
    LengthsBounded(ps, |ps|, m);
    var at := WordOccurs(ps, |ps|, i, k);
    hide Score, Occurrences;
    ScoreBetween(Occurrences(ps, |ps|), at, m);
  }

  function Longest(ps: seq<Phrase>, n: nat): (m: nat)
    requires n <= |ps|
    ensures forall i :: 0 <= i < n ==> |ps[i]| <= m
  {
    if n == 0 then 0
    else
      var m := Longest(ps, n - 1);
      if |ps[n - 1]| > m then |ps[n - 1]| else m
  }

  /**
   The scores of all entries add up to the sum of the squared phrase lengths exactly when every phrase has a
   display; otherwise they add up to less.
   */
  lemma ScoresConserved(out: seq<RankedPhrase>, ps: seq<Phrase>, isHan: char -> bool)
    requires Ranks(out, ps, isHan) && forall i :: 0 <= i < |ps| ==> |ps[i]| >= 1
    ensures OutSum(out, |out|) <= SquareSum(ps, |ps|) as real
    ensures OutSum(out, |out|) == SquareSum(ps, |ps|) as real <==> forall i :: 0 <= i < |ps| ==> Display(ps[i], isHan) != ""
  {
    var occ := Occurrences(ps, |ps|);
    var m := Longest(ps, |ps|);
    forall i | 0 <= i < |ps| ensures PhraseScore(occ, ps[i]) >= 1.0 {
      forall k | 0 <= k < |ps[i]| ensures Score(occ, ps[i][k]) >= 1.0 {
        WordScoreBetween(ps, m, i, k);
      }
      PhraseScorePositive(occ, ps[i]);
    }
    hide PhraseScore, Display, Occurrences, Ranks;
    OutSumIsPartSum(out, ps, |out|, isHan);
    PartSumIsDisplayed(out, ps, |ps|, isHan);
    DisplayedOrNot(occ, ps, |ps|, isHan);
    PhraseScoresSumToSquares(ps);
  }

  /** A phrase of non-empty words has a display. */
  lemma NonEmptyWordsDisplay(p: Phrase, isHan: char -> bool)
    requires p != [] && forall i :: 0 <= i < |p| ==> p[i] != ""
    ensures Display(p, isHan) != ""
  {
    if |p| > 1 {
      var n := |p|;
      assert JoinFirst(p, n, "") == JoinFirst(p, n - 1, "") + ("" + p[n - 1]);
      assert JoinFirst(p, n, " ") == JoinFirst(p, n - 1, " ") + (" " + p[n - 1]);
    }
  }

  // ---------------------------------------------------------------- ranking

  /** The order of the sort: higher score first, and among equals the longer phrase in bytes. */
  predicate Precedes(a: RankedPhrase, b: RankedPhrase) {
    a.score > b.score || (a.score == b.score && |Encode(a.phrase)| >= |Encode(b.phrase)|)
  }

  ghost predicate Ranked(s: seq<RankedPhrase>) {
    forall i, j :: 0 <= i < j < |s| ==> Precedes(s[i], s[j])
  }

  /** In a ranking scores never rise, and among equal scores the displays do not get longer. */
  lemma RankedMeans(s: seq<RankedPhrase>, i: nat, j: nat)
    requires Ranked(s) && i < j < |s|
    ensures s[i].score >= s[j].score
    ensures s[i].score == s[j].score ==> |Encode(s[i].phrase)| >= |Encode(s[j].phrase)|
  {
    hide Encode;
    assert Precedes(s[i], s[j]);
  }

  /** `sort.Slice`; entries that tie may come in any order. */
  method SortRanked(s: seq<RankedPhrase>) returns (r: seq<RankedPhrase>)
    ensures Ranked(r) && multiset(r) == multiset(s)
  {
    r := [];
    for i := 0 to |s|
      invariant Ranked(r) && multiset(r) == multiset(s[..i])
    {
      var k := 0;
      while k < |r| && Precedes(r[k], s[i])
        invariant 0 <= k <= |r| && forall x :: 0 <= x < k ==> Precedes(r[x], s[i])
      {
        k := k + 1;
      }
      assert s[..i + 1] == s[..i] + [s[i]];
      assert r == r[..k] + r[k..];
      Inserted(r, s[i], k);
      r := r[..k] + [s[i]] + r[k..];
    }
    assert s[..|s|] == s;
  }

  lemma Inserted(r: seq<RankedPhrase>, x: RankedPhrase, k: nat)
    requires Ranked(r) && k <= |r|
    requires (forall y :: 0 <= y < k ==> Precedes(r[y], x)) && (k < |r| ==> !Precedes(r[k], x))
    ensures Ranked(r[..k] + [x] + r[k..])
  {
    hide Encode;
    forall j | k <= j < |r| ensures Precedes(x, r[j]) {
      assert j > k ==> Precedes(r[k], r[j]);
    }
  }

  /** The best `topN` entries (10 if not positive): nothing dropped precedes something returned strictly. */
  method TopPhrases(scored: seq<RankedPhrase>, topN0: int) returns (top: seq<RankedPhrase>, ghost dropped: seq<RankedPhrase>)
    ensures var topN := if topN0 <= 0 then 10 else topN0; |top| == if |scored| > topN then topN else |scored|
    ensures multiset(top) + multiset(dropped) == multiset(scored) && Ranked(top)
    ensures forall i, j :: 0 <= i < |top| && 0 <= j < |dropped| ==> Precedes(top[i], dropped[j])
  {
    hide Precedes;
    var topN := if topN0 <= 0 then 10 else topN0;
    top := SortRanked(scored);
    MultisetLength(top, scored);
    dropped := [];
    if |top| > topN {
      assert top == top[..topN] + top[topN..];
      dropped := top[topN..];
      top := top[..topN];
    }
  }

  lemma MultisetLength<T>(a: seq<T>, b: seq<T>)
    requires multiset(a) == multiset(b)
    ensures |a| == |b|
  {
    assert |multiset(a)| == |a| && |multiset(b)| == |b|;
  }
}
