/** Sorting strings without repetitions by code point, which is the byte order of their UTF-8 encodings. */
module SortedStrings {

  predicate Less(a: string, b: string) {
    if b == "" then false
    else if a == "" then true
    else a[0] < b[0] || (a[0] == b[0] && Less(a[1..], b[1..]))
  }

  /** `a` and `b` agree up to `n`, and there `a` ends or has the smaller code point. */
  ghost predicate LessAt(a: string, b: string, n: int) {
    0 <= n <= |a| && n < |b| && a[..n] == b[..n] && (n == |a| || a[n] < b[n])
  }

  /** The order of strings: the first code point in which they differ decides, and a proper prefix comes first. */
  lemma {:induction false} LessMeans(a: string, b: string)
    ensures Less(a, b) <==> exists n :: LessAt(a, b, n)
  {
    if a != "" && b != "" {
      LessMeans(a[1..], b[1..]);
      if a[0] == b[0] {
        forall n ensures LessAt(a[1..], b[1..], n) <==> n >= 0 && LessAt(a, b, n + 1) {
          LessBehind(a, b, n);
        }
        assert !LessAt(a, b, 0);
        if n :| LessAt(a, b, n) {
          assert LessAt(a[1..], b[1..], n - 1) by {
            LessBehind(a, b, n - 1);
          }
        }
      } else {
        forall n ensures LessAt(a, b, n) && n > 0 ==> a[0] == b[0] {
          SameFirst(a, b, n);
        }
        assert a[0] < b[0] ==> LessAt(a, b, 0);
      }
    } else if b != "" {
      assert LessAt(a, b, 0);
    }
  }

  lemma SameFirst(a: string, b: string, n: int)
    requires a != "" && b != ""
    ensures LessAt(a, b, n) && n > 0 ==> a[0] == b[0]
  {
    assert 0 < n <= |a| && n <= |b| ==> a[..n][0] == a[0] && b[..n][0] == b[0];
  }

  lemma LessBehind(a: string, b: string, n: int)
    requires a != "" && b != "" && a[0] == b[0]
    ensures LessAt(a[1..], b[1..], n) <==> n >= 0 && LessAt(a, b, n + 1)
  {
    if 0 <= n < |a| && n < |b| {
      assert a[..n + 1] == [a[0]] + a[1..][..n] && b[..n + 1] == [b[0]] + b[1..][..n];
      assert a[..n + 1][1..] == a[1..][..n] && b[..n + 1][1..] == b[1..][..n];
    }
  }

  lemma {:induction false} LessTotal(a: string, b: string)
    ensures a == b || Less(a, b) || Less(b, a)
    ensures !(Less(a, b) && Less(b, a)) && !Less(a, a)
  {
    if a != "" && b != "" {
      LessTotal(a[1..], b[1..]);
      LessTotal(a[1..], a[1..]);
      if a[0] == b[0] && a[1..] == b[1..] {
        assert a == [a[0]] + a[1..] && b == [b[0]] + b[1..];
      }
    } else if a != "" {
      LessTotal(a[1..], a[1..]);
    }
  }

  lemma {:induction false} LessTrans(a: string, b: string, c: string)
    requires Less(a, b) && Less(b, c)
    ensures Less(a, c)
  {
    if a != "" && a[0] == b[0] && b[0] == c[0] {
      LessTrans(a[1..], b[1..], c[1..]);
    }
  }

  ghost predicate StrictlySorted(s: seq<string>) {
    forall i, j :: 0 <= i < j < |s| ==> Less(s[i], s[j])
  }

  /** `sort.Strings` on a list without repetitions, one insertion at a time. */
  function Insert(x: string, s: seq<string>): seq<string> {
    if s == [] || Less(x, s[0]) then [x] + s else [s[0]] + Insert(x, s[1..])
  }

  function Sort(s: seq<string>): seq<string> {
    if s == [] then [] else Insert(s[|s| - 1], Sort(s[..|s| - 1]))
  }

  lemma {:induction false} InsertSorts(x: string, s: seq<string>)
    requires StrictlySorted(s) && x !in s
    ensures StrictlySorted(Insert(x, s))
    ensures forall k :: k in Insert(x, s) <==> k == x || k in s
  {
    if s != [] {
      assert s == [s[0]] + s[1..];
      LessTotal(x, s[0]);
      if Less(x, s[0]) {
        forall j | 0 <= j < |s| ensures Less(x, s[j]) {
          if j > 0 {
            LessTrans(x, s[0], s[j]);
          }
        }
      } else {
        InsertSorts(x, s[1..]);
        var r := Insert(x, s[1..]);
        forall k | k in r ensures Less(s[0], k) {
        }
      }
    }
  }

  ghost predicate NoRepeats(s: seq<string>) {
    forall i, j :: 0 <= i < j < |s| ==> s[i] != s[j]
  }

  lemma {:induction false} SortSorts(s: seq<string>)
    requires NoRepeats(s)
    ensures StrictlySorted(Sort(s)) && forall k :: k in Sort(s) <==> k in s
  {
    if s != [] {
      var n := |s| - 1;
      SortSorts(s[..n]);
      assert s == s[..n] + [s[n]];
      InsertSorts(s[n], Sort(s[..n]));
    }
  }

  /** A strictly sorted list is determined by its members. */
  lemma {:induction false} SortedIsUnique(s: seq<string>, r: seq<string>)
    requires StrictlySorted(s) && StrictlySorted(r) && forall k :: k in s <==> k in r
    ensures s == r
  {
    assert r != [] ==> r[0] in s;
    if s != [] {
      assert s[0] in s && s[0] in r;
      assert r[0] in r && r[0] in s;
      LessTotal(s[0], r[0]);
      assert s[0] == r[0];
      var s', r' := s[1..], r[1..];
      assert s == [s[0]] + s' && r == [r[0]] + r';
      LessTotal(s[0], s[0]);
      assert forall j :: 0 <= j < |s'| ==> s'[j] == s[j + 1] && Less(s[0], s'[j]);
      assert forall j :: 0 <= j < |r'| ==> r'[j] == r[j + 1] && Less(r[0], r'[j]);
      forall k ensures k in s' <==> k in r' {
        assert k in s <==> k == s[0] || k in s';
        assert k in r <==> k == r[0] || k in r';
      }
      SortedIsUnique(s', r');
    }
  }
}
