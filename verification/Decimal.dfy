/**
 Decimal points are hidden behind a private-use character while the text is split at full stops.
 `nd` is the digit class of the pattern (one or more digits, a full stop, one or more digits).
 */
module Decimal {

  const PLACEHOLDER: char := '\U{E000}'

  function ReplaceChar(s: string, a: char, b: char): (r: string)
    ensures |r| == |s|
    ensures forall k :: 0 <= k < |s| ==> r[k] == if s[k] == a then b else s[k]
  {
    if s == "" then "" else ReplaceChar(s[..|s| - 1], a, b) + [if s[|s| - 1] == a then b else s[|s| - 1]]
  }

  function Unprotect(s: string): string {
    ReplaceChar(s, PLACEHOLDER, '.')
  }

  /** End of the digits that start at `i`. */
  function RunEnd(s: string, i: nat, nd: char -> bool): (j: nat)
    requires i <= |s|
    ensures i <= j <= |s|
    ensures forall k :: i <= k < j ==> nd(s[k])
    ensures j < |s| ==> !nd(s[j])
    decreases |s| - i
  {
    if i < |s| && nd(s[i]) then RunEnd(s, i + 1, nd) else i
  }

  /** End of the match of the pattern at `i`, or `i` if there is none. */
  function MatchEnd(s: string, i: nat, nd: char -> bool): (e: nat)
    requires i <= |s|
    ensures i <= e <= |s|
  {
    var j := RunEnd(s, i, nd);
    if i < j < |s| && s[j] == '.' && RunEnd(s, j + 1, nd) > j + 1 then RunEnd(s, j + 1, nd) else i
  }

  /** The rest of the text from `i` on: leftmost matches, one after the other, lose their full stop. */
  function ProtectFrom(s: string, i: nat, nd: char -> bool): (r: string)
    requires i <= |s|
    ensures |r| == |s| - i
    decreases |s| - i
  {
    if i == |s| then ""
    else
      var e := MatchEnd(s, i, nd);
      if e > i then ReplaceChar(s[i..e], '.', PLACEHOLDER) + ProtectFrom(s, e, nd)
      else [s[i]] + ProtectFrom(s, i + 1, nd)
  }

  function Protect(s: string, nd: char -> bool): (r: string)
    ensures |r| == |s|
  {
    ProtectFrom(s, 0, nd)
  }

  /** Start of the digits that end just before `p`. */
  function RunStart(s: string, p: nat, nd: char -> bool): (q: nat)
    requires p <= |s|
    ensures q <= p && forall k :: q <= k < p ==> nd(s[k])
    ensures q > 0 ==> !nd(s[q - 1])
  {
    if p > 0 && nd(s[p - 1]) then RunStart(s, p - 1, nd) else p
  }

  /** The full stop at `p` stands between digits, and the digits before it are not those after a protected one. */
  predicate ProtectedAt(s: string, p: nat, nd: char -> bool)
    requires p < |s|
  {
    && s[p] == '.' && p > 0 && nd(s[p - 1]) && p + 1 < |s| && nd(s[p + 1])
    && var q := RunStart(s, p, nd); !(q > 0 && ProtectedAt(s, q - 1, nd))
  }

  /** The digits just before `p` follow a protected full stop. */
  predicate AfterProtected(s: string, p: nat, nd: char -> bool)
    requires p <= |s|
  {
    var q := RunStart(s, p, nd);
    q > 0 && ProtectedAt(s, q - 1, nd)
  }

  lemma {:induction false} RunStartUnique(s: string, q: nat, p: nat, nd: char -> bool)
    requires q <= p <= |s| && (forall k :: q <= k < p ==> nd(s[k]))
    ensures RunStart(s, p, nd) == RunStart(s, q, nd)
    decreases p - q
  {
    if q < p {
      RunStartUnique(s, q, p - 1, nd);
    }
  }

  /** Where the scan may stand: inside a number only if that number can still match, at a full stop only if it cannot. */
  ghost predicate ScanAt(s: string, i: nat, nd: char -> bool)
    requires i <= |s|
  {
    && (i < |s| && nd(s[i]) ==> !AfterProtected(s, i, nd))
    && (i + 1 < |s| && s[i] == '.' && i > 0 && nd(s[i - 1]) && nd(s[i + 1]) ==> AfterProtected(s, i, nd))
  }

  lemma ScanStep(s: string, i: nat, nd: char -> bool)
    requires i < |s| && !nd('.') && ScanAt(s, i, nd) && MatchEnd(s, i, nd) == i
    ensures ScanAt(s, i + 1, nd) && !ProtectedAt(s, i, nd)
  {
    if nd(s[i]) {
      var j := RunEnd(s, i, nd);
      if i + 1 < |s| && !nd(s[i + 1]) {
        assert j == i + 1;
      }
    } else if i + 1 < |s| && nd(s[i + 1]) {
      assert RunStart(s, i + 1, nd) == i + 1;
    }
  }

  lemma ScanMatch(s: string, i: nat, nd: char -> bool)
    requires i < |s| && !nd('.') && ScanAt(s, i, nd) && MatchEnd(s, i, nd) > i
    ensures ScanAt(s, MatchEnd(s, i, nd), nd)
    ensures forall p :: i <= p < MatchEnd(s, i, nd) ==> (ProtectedAt(s, p, nd) <==> s[p] == '.')
  {
    var j := RunEnd(s, i, nd);
    var e := MatchEnd(s, i, nd);
    RunStartUnique(s, i, j, nd);
    assert nd(s[j - 1]) && nd(s[j + 1]) && nd(s[i]);
    assert ProtectedAt(s, j, nd);
    RunStartUnique(s, j + 1, e, nd);
    assert RunStart(s, j + 1, nd) == j + 1;
    forall p | i <= p < e ensures ProtectedAt(s, p, nd) <==> s[p] == '.' {
      if p != j {
        assert nd(s[p]);
      }
    }
  }

  /** What stands at `p` after one step of the scan from `i`. */
  lemma ProtectUnfold(s: string, i: nat, nd: char -> bool, p: nat)
    requires i <= p < |s|
    ensures var e := MatchEnd(s, i, nd);
      ProtectFrom(s, i, nd)[p - i] ==
        if e > i then (if p >= e then ProtectFrom(s, e, nd)[p - e] else if s[p] == '.' then PLACEHOLDER else s[p])
        else if p > i then ProtectFrom(s, i + 1, nd)[p - (i + 1)] else s[p]
  {
    hide MatchEnd, ReplaceChar;
    var e := MatchEnd(s, i, nd);
    if e > i && p < e {
      assert s[i..e][p - i] == s[p];
    }
  }

  /** Exactly the full stops of `ProtectedAt` are replaced, and nothing else changes. */
  lemma {:induction false} ProtectFromExact(s: string, i: nat, nd: char -> bool, p: nat)
    requires i <= p < |s| && !nd('.') && ScanAt(s, i, nd)
    ensures ProtectFrom(s, i, nd)[p - i] == if ProtectedAt(s, p, nd) then PLACEHOLDER else s[p]
    decreases |s| - i
  {
    hide ScanAt, ProtectedAt, MatchEnd, ProtectFrom;
    ProtectUnfold(s, i, nd, p);
    var e := MatchEnd(s, i, nd);
    if e > i {
      ScanMatch(s, i, nd);
      if p >= e {
        ProtectFromExact(s, e, nd, p);
      }
    } else {
      ScanStep(s, i, nd);
      if p > i {
        ProtectFromExact(s, i + 1, nd, p);
      }
    }
  }

  lemma ProtectExact(s: string, nd: char -> bool, p: nat)
    requires p < |s| && !nd('.')
    ensures Protect(s, nd)[p] == if ProtectedAt(s, p, nd) then PLACEHOLDER else s[p]
  {
    assert ScanAt(s, 0, nd);
    ProtectFromExact(s, 0, nd, p);
  }

  /** Whatever the digit class, protection only ever turns a full stop into the placeholder. */
  lemma {:induction false} ProtectFromOnlyDots(s: string, i: nat, nd: char -> bool, p: nat)
    requires i <= p < |s|
    ensures var c := ProtectFrom(s, i, nd)[p - i]; c == s[p] || (s[p] == '.' && c == PLACEHOLDER)
    decreases |s| - i
  {
    hide MatchEnd, ProtectFrom;
    ProtectUnfold(s, i, nd, p);
    var e := MatchEnd(s, i, nd);
    if e > i {
      if p >= e {
        ProtectFromOnlyDots(s, e, nd, p);
      }
    } else if p > i {
      ProtectFromOnlyDots(s, i + 1, nd, p);
    }
  }

  /** Unprotecting after protecting; it gives the text back exactly when the text has no placeholder of its own. */
  lemma UnprotectProtect(s: string, nd: char -> bool)
    ensures Unprotect(Protect(s, nd)) == Unprotect(s)
    ensures Unprotect(Protect(s, nd)) == s <==> PLACEHOLDER !in s
  {
    var u := Unprotect(Protect(s, nd));
    forall p | 0 <= p < |s| ensures u[p] == Unprotect(s)[p] {
      ProtectFromOnlyDots(s, 0, nd, p);
    }
    assert u == Unprotect(s);
    if PLACEHOLDER in s {
      var p :| 0 <= p < |s| && s[p] == PLACEHOLDER;
      assert u[p] == '.';
    }
  }

  /** The pattern matches without overlap: in "1.2.3" the second full stop stays a full stop. */
  lemma SecondDotStays(nd: char -> bool)
    requires !nd('.') && nd('1') && nd('2') && nd('3')
    ensures var s := "1.2.3"; Protect(s, nd)[1] == PLACEHOLDER && Protect(s, nd)[3] == '.'
  {
    var s := "1.2.3";
    assert RunStart(s, 1, nd) == 0;
    assert ProtectedAt(s, 1, nd);
    assert RunStart(s, 3, nd) == 2;
    ProtectExact(s, nd, 1);
    ProtectExact(s, nd, 3);
  }
}
