/**
 What `mergeSplits` promises about its windows, stated on the windows themselves: a description without
 recursion that fixes them uniquely, their length, their overlap, their progress and their coverage.
 */
module MergeLaws {
  import opened Text
  import opened Merging

  /** Every piece that the window took after its first piece `from - 1` still fitted when it was taken. */
  ghost predicate Filled(sp: seq<Span>, gap: nat, lim: Limits, g: Group, from: nat)
    requires g.a < g.b <= |sp|
  {
    forall j :: from <= j < g.b && g.a <= j ==> !Overflows(sp, gap, lim, g.a, j)
  }

  /** Window `h` follows window `g`. */
  ghost predicate Follows(sp: seq<Span>, gap: nat, lim: Limits, g: Group, h: Group)
    requires g.a < g.b <= |sp| && h.a < h.b <= |sp|
  {
    && g.a <= h.a <= g.b < h.b
    && Overflows(sp, gap, lim, g.a, g.b)                               // g could not take piece g.b
    && !Pops(sp, gap, lim, h.a, g.b)                                   // what is kept may stay,
    && (forall x :: g.a <= x < h.a ==> Pops(sp, gap, lim, x, g.b))     // and nothing longer could
    && Filled(sp, gap, lim, h, g.b + 1)                                // h closed at the first overflow
  }

  /** The windows of a list of pieces, described without running the loop. */
  ghost predicate Plan(sp: seq<Span>, gap: nat, lim: Limits, gs: seq<Group>, from: nat) {
    && gs != []
    && (forall k :: 0 <= k < |gs| ==> gs[k].a < gs[k].b <= |sp|)
    && from <= gs[0].b && Filled(sp, gap, lim, gs[0], from)
    && gs[|gs| - 1].b == |sp|
    && forall k, l :: 0 <= k && l == k + 1 < |gs| ==> Follows(sp, gap, lim, gs[k], gs[l])
  }

  /** One unfolding of `Groups`. */
  lemma GroupsUnfold(sp: seq<Span>, gap: nat, lim: Limits, a: nat, i: nat) returns (b: nat, rest: seq<Group>)
    requires a < i < |sp|
    ensures Overflows(sp, gap, lim, a, i) ==>
      && b == PopTo(sp, gap, lim, a, i) && rest == Groups(sp, gap, lim, b, i + 1)
      && Groups(sp, gap, lim, a, i) == [Group(a, i)] + rest
    ensures !Overflows(sp, gap, lim, a, i) ==>
      b == a && rest == Groups(sp, gap, lim, a, i) == Groups(sp, gap, lim, a, i + 1)
  {
    if Overflows(sp, gap, lim, a, i) {
      b := PopTo(sp, gap, lim, a, i);
    } else {
      b := a;
    }
    rest := Groups(sp, gap, lim, b, i + 1);
  }

  lemma OnlyGroup(sp: seq<Span>, gap: nat, lim: Limits, a: nat)
    requires a < |sp|
    ensures Groups(sp, gap, lim, a, |sp|) == [Group(a, |sp|)]
  {
  }

  lemma OnlyPlan(sp: seq<Span>, gap: nat, lim: Limits, a: nat)
    requires a < |sp|
    ensures Plan(sp, gap, lim, [Group(a, |sp|)], |sp|)
  {
  }

  /** A plan whose first window took piece `i` without overflow is one from piece `i` on. */
  lemma PlanEarlier(sp: seq<Span>, gap: nat, lim: Limits, a: nat, i: nat, gs: seq<Group>)
    requires a < i < |sp| && Plan(sp, gap, lim, gs, i + 1) && gs[0].a == a && !Overflows(sp, gap, lim, a, i)
    ensures Plan(sp, gap, lim, gs, i)
  {
    hide Overflows, Follows;
  }

  lemma {:induction false} GroupsArePlan(sp: seq<Span>, gap: nat, lim: Limits, a: nat, i: nat)
    requires a < i <= |sp|
    ensures Plan(sp, gap, lim, Groups(sp, gap, lim, a, i), i)
    decreases |sp| - i
  {
    hide Plan, PopTo, Overflows, Groups;
    if i == |sp| {
      OnlyGroup(sp, gap, lim, a);
      OnlyPlan(sp, gap, lim, a);
    } else {
      var b, rest := GroupsUnfold(sp, gap, lim, a, i);
      GroupsArePlan(sp, gap, lim, b, i + 1);
      if Overflows(sp, gap, lim, a, i) {
        PlanCons(sp, gap, lim, a, i, rest);
      } else {
        PlanEarlier(sp, gap, lim, a, i, rest);
      }
    }
  }

  /** A closed window in front of the plan of what popping leaves. */
  lemma PlanCons(sp: seq<Span>, gap: nat, lim: Limits, a: nat, i: nat, rest: seq<Group>)
    requires a < i < |sp| && Overflows(sp, gap, lim, a, i)
    requires Plan(sp, gap, lim, rest, i + 1) && rest[0].a == PopTo(sp, gap, lim, a, i)
    ensures Plan(sp, gap, lim, [Group(a, i)] + rest, i)
  {
    var gs := [Group(a, i)] + rest;
    assert Follows(sp, gap, lim, gs[0], rest[0]);
    hide Follows, Overflows, PopTo;
    assert Filled(sp, gap, lim, gs[0], i);
    hide Filled;
    forall k, l | 0 <= k && l == k + 1 < |gs| ensures Follows(sp, gap, lim, gs[k], gs[l]) {
      assert k > 0 ==> gs[k] == rest[k - 1] && gs[l] == rest[k];
    }
  }

  /** `mergeSplits` computes the plan, and there is only one. */
  lemma {:induction false} PlanIsUnique(sp: seq<Span>, gap: nat, lim: Limits, a: nat, i: nat, gs: seq<Group>)
    requires a < i <= |sp|
    ensures Plan(sp, gap, lim, gs, i) && gs[0].a == a <==> gs == Groups(sp, gap, lim, a, i)
    decreases |sp| - i
  {
    hide Plan, Filled, Follows, PopTo, Overflows;
    GroupsArePlan(sp, gap, lim, a, i);
    PlanHead(sp, gap, lim, gs, i);
    if Plan(sp, gap, lim, gs, i) && gs[0].a == a {
      var b := gs[0].b;
      GroupsSkip(sp, gap, lim, a, i, b);
      if |gs| == 1 {
        assert gs == [Group(a, b)];
      } else {
        var tail := gs[1..];
        PlanTail(sp, gap, lim, gs, i);
        PlanIsUnique(sp, gap, lim, tail[0].a, b + 1, tail);
        assert gs == [Group(a, b)] + tail;
      }
    }
  }

  /** The first window of a plan grows without overflow to where it is closed. */
  lemma PlanHead(sp: seq<Span>, gap: nat, lim: Limits, gs: seq<Group>, i: nat)
    ensures Plan(sp, gap, lim, gs, i) ==>
      && gs != [] && gs[0].a < gs[0].b <= |sp| && i <= gs[0].b && (|gs| == 1 ==> gs[0].b == |sp|)
      && forall j :: i <= j < gs[0].b && gs[0].a <= j ==> !Overflows(sp, gap, lim, gs[0].a, j)
  {
    hide Follows, Overflows;
  }

  /** Behind the first window of a plan comes the plan of what popping leaves. */
  lemma PlanTail(sp: seq<Span>, gap: nat, lim: Limits, gs: seq<Group>, i: nat)
    requires |gs| > 1 && Plan(sp, gap, lim, gs, i)
    ensures var a, b, tail := gs[0].a, gs[0].b, gs[1..];
      && a < b < |sp| && Overflows(sp, gap, lim, a, b)
      && Plan(sp, gap, lim, tail, b + 1) && tail[0].a == PopTo(sp, gap, lim, a, b)
  {
    var b, tail := gs[0].b, gs[1..];
    assert Follows(sp, gap, lim, gs[0], gs[1]);
    assert gs[1].a == PopTo(sp, gap, lim, gs[0].a, b);
    hide Filled, PopTo;
    forall k, l | 0 <= k && l == k + 1 < |tail| ensures Follows(sp, gap, lim, tail[k], tail[l]) {
      assert Follows(sp, gap, lim, gs[k + 1], gs[l + 1]);
    }
  }

  /** While pieces fit, the open window only grows. */
  lemma {:induction false} GroupsSkip(sp: seq<Span>, gap: nat, lim: Limits, a: nat, i: nat, b: nat)
    requires a < i <= b <= |sp| && forall j :: i <= j < b ==> !Overflows(sp, gap, lim, a, j)
    ensures Groups(sp, gap, lim, a, i) == Groups(sp, gap, lim, a, b)
    decreases b - i
  {
    if i < b {
      GroupsSkip(sp, gap, lim, a, i + 1, b);
    }
  }

  // ---------------------------------------------------------------- the windows in terms of joined lengths

  /** Taking piece `i` adds its length, and one gap unless it is the first. */
  lemma TotalStep(sp: seq<Span>, gap: nat, x: nat, i: nat)
    requires Chain(sp, gap) && x <= i < |sp|
    ensures Total(sp, x, i + 1) == Total(sp, x, i) + sp[i].Len() + if x < i then gap else 0
    ensures Total(sp, x, i) >= 0
  {
    if x < i {
      assert Next(sp, gap, i - 1);
      ChainOrder(sp, gap, x, i - 1);
    }
  }

  /**
   Of the window that starts at piece `a`, the pieces `[r, i)` are the longest tail that is within the overlap
   and leaves room for piece `i`.  In front of a tail of one piece, the separator is not counted.
   */
  ghost predicate LongestTail(sp: seq<Span>, gap: nat, lim: Limits, a: nat, i: nat, r: nat)
    requires i < |sp|
  {
    && a <= r <= i
    && (r < i ==> Total(sp, r, i) <= lim.overlap
                  && (Total(sp, r, i) == 0 || Total(sp, r, i + 1) - (if r + 1 == i then gap else 0) <= lim.size))
    && forall x :: a <= x < r ==>
         || Total(sp, x, i) > lim.overlap
         || (Total(sp, x, i) > 0 && Total(sp, x, i + 1) - (if x + 1 == i then gap else 0) > lim.size)
  }

  /** Popping keeps the longest tail that may be kept. */
  lemma KeptTailIsLongest(sp: seq<Span>, gap: nat, lim: Limits, a: nat, i: nat, r: nat)
    requires Chain(sp, gap) && a <= i < |sp|
    ensures LongestTail(sp, gap, lim, a, i, r) <==> r == PopTo(sp, gap, lim, a, i)
  {
    hide Chain;
    forall x | a <= x < i
      ensures Total(sp, x, i) >= 0
      ensures Pops(sp, gap, lim, x, i) <==>
        || Total(sp, x, i) > lim.overlap
        || (Total(sp, x, i) > 0 && Total(sp, x, i + 1) - (if x + 1 == i then gap else 0) > lim.size)
    {
      TotalStep(sp, gap, x, i);
    }
    hide Pops, Total;
    var p := PopTo(sp, gap, lim, a, i);
    if r != p && a <= r <= i {
      assert r < p ==> Pops(sp, gap, lim, r, i);
      assert p < r ==> !Pops(sp, gap, lim, p, i);
    }
  }

  /** Pieces that touch: every longer tail passes the overlap, or passes the size together with piece `i`. */
  lemma TouchingTailIsLongest(sp: seq<Span>, lim: Limits, a: nat, i: nat, x: nat)
    requires Chain(sp, 0) && a <= i < |sp| && a <= x < PopTo(sp, 0, lim, a, i)
    ensures Total(sp, x, i) > lim.overlap || (Total(sp, x, i) > 0 && Total(sp, x, i + 1) > lim.size)
  {
    KeptTailIsLongest(sp, 0, lim, a, i, PopTo(sp, 0, lim, a, i));
  }

  /** From its first `from - g.a` pieces on, window `g` grew within the size. */
  ghost predicate WithinSize(sp: seq<Span>, lim: Limits, g: Group, from: nat)
    requires g.a < g.b <= |sp| && g.a <= from
  {
    forall i :: from < i <= g.b ==> Total(sp, g.a, i) <= lim.size
  }

  /**
   Window `g` was closed because its next piece would pass the size; window `h` starts with the longest tail that
   may be kept, takes that piece, and grows within the size.
   */
  ghost predicate Continues(sp: seq<Span>, gap: nat, lim: Limits, g: Group, h: Group)
    requires g.a < g.b <= |sp| && h.a < h.b <= |sp|
  {
    && g.b < h.b
    && Total(sp, g.a, g.b + 1) > lim.size
    && LongestTail(sp, gap, lim, g.a, g.b, h.a)
    && WithinSize(sp, lim, h, g.b + 1)
  }

  /** The windows of a list of pieces, in terms of joined lengths. */
  ghost predicate AreWindows(sp: seq<Span>, gap: nat, lim: Limits, gs: seq<Group>) {
    && gs != [] && gs[0].a == 0 && gs[|gs| - 1].b == |sp|
    && (forall k :: 0 <= k < |gs| ==> gs[k].a < gs[k].b <= |sp|)
    && WithinSize(sp, lim, gs[0], 1)
    && forall k, l :: 0 <= k && l == k + 1 < |gs| ==> Continues(sp, gap, lim, gs[k], gs[l])
  }

  lemma FilledMeans(sp: seq<Span>, gap: nat, lim: Limits, g: Group, from: nat)
    requires Chain(sp, gap) && g.a < g.b <= |sp| && g.a < from
    ensures Filled(sp, gap, lim, g, from) <==> WithinSize(sp, lim, g, from)
  {
    hide Chain;
    forall j | from <= j < g.b ensures Overflows(sp, gap, lim, g.a, j) <==> Total(sp, g.a, j + 1) > lim.size {
      TotalStep(sp, gap, g.a, j);
    }
    hide Total, Overflows;
    if Filled(sp, gap, lim, g, from) {
      forall i | from < i <= g.b ensures Total(sp, g.a, i) <= lim.size {
        assert !Overflows(sp, gap, lim, g.a, i - 1);
      }
    }
  }

  /** Two neighbouring windows of a plan, in terms of joined lengths. */
  lemma FollowsMeans(sp: seq<Span>, gap: nat, lim: Limits, g: Group, h: Group)
    requires Chain(sp, gap) && g.a < g.b <= |sp| && h.a < h.b <= |sp|
    ensures Follows(sp, gap, lim, g, h) <==> Continues(sp, gap, lim, g, h)
  {
    hide Chain, LongestTail, Pops, Filled, WithinSize;
    if g.a <= h.a <= g.b < h.b {
      KeptTailIsLongest(sp, gap, lim, g.a, g.b, h.a);
      PopToMeans(sp, gap, lim, g.a, g.b, h.a);
      TotalStep(sp, gap, g.a, g.b);
      FilledMeans(sp, gap, lim, h, g.b + 1);
    } else if g.b < h.b {
      LongestTailWithin(sp, gap, lim, g.a, g.b, h.a);
    }
  }

  lemma LongestTailWithin(sp: seq<Span>, gap: nat, lim: Limits, a: nat, i: nat, r: nat)
    requires i < |sp|
    ensures LongestTail(sp, gap, lim, a, i, r) ==> a <= r <= i
  {
  }

  lemma PopToMeans(sp: seq<Span>, gap: nat, lim: Limits, a: nat, i: nat, r: nat)
    requires a <= i < |sp|
    ensures r == PopTo(sp, gap, lim, a, i) <==>
      a <= r <= i && !Pops(sp, gap, lim, r, i) && forall x :: a <= x < r ==> Pops(sp, gap, lim, x, i)
  {
    hide Pops;
    var p := PopTo(sp, gap, lim, a, i);
    if a <= r <= i && r < p {
      assert Pops(sp, gap, lim, r, i);
    }
  }

  /** `mergeSplits` computes the windows of its pieces, and no other list is one of windows. */
  lemma WindowsAreUnique(sp: seq<Span>, gap: nat, lim: Limits, gs: seq<Group>)
    requires Chain(sp, gap) && sp != []
    ensures AreWindows(sp, gap, lim, gs) <==> gs == AllGroups(sp, gap, lim)
  {
    hide Groups, Chain, Follows, Continues, WithinSize, Filled;
    PlanIsUnique(sp, gap, lim, 0, 1, gs);
    if gs != [] && gs[0].a == 0 && (forall k :: 0 <= k < |gs| ==> gs[k].a < gs[k].b <= |sp|) {
      FilledMeans(sp, gap, lim, gs[0], 1);
      forall k, l | 0 <= k && l == k + 1 < |gs|
        ensures Follows(sp, gap, lim, gs[k], gs[l]) <==> Continues(sp, gap, lim, gs[k], gs[l])
      {
        FollowsMeans(sp, gap, lim, gs[k], gs[l]);
      }
    }
  }

  /** Pieces of one code point each that touch. */
  ghost predicate SinglePoints(sp: seq<Span>) {
    Chain(sp, 0) && forall i :: 0 <= i < |sp| ==> sp[i].Len() == 1
  }

  lemma {:induction false} TotalOfPoints(sp: seq<Span>, x: nat, i: nat)
    requires SinglePoints(sp) && x <= i <= |sp|
    ensures Total(sp, x, i) == i - x
    decreases i - x
  {
    if x < i {
      TotalOfPoints(sp, x, i - 1);
      TotalStep(sp, 0, x, i - 1);
    }
  }

  lemma TailOfPoints(sp: seq<Span>, lim: Limits, g: Group, r: nat)
    requires SinglePoints(sp) && g.a < g.b < |sp| && 0 <= lim.overlap < lim.size && g.b - g.a >= lim.overlap
    requires LongestTail(sp, 0, lim, g.a, g.b, r)
    ensures r == g.b - lim.overlap
  {
    hide Total, SinglePoints;
    forall x | g.a <= x <= g.b ensures Total(sp, x, g.b) == g.b - x && Total(sp, x, g.b + 1) == g.b + 1 - x {
      TotalOfPoints(sp, x, g.b);
      TotalOfPoints(sp, x, g.b + 1);
    }
    var e := g.b - lim.overlap;
    assert g.a <= e <= g.b;
    assert Total(sp, e, g.b) == lim.overlap && Total(sp, e, g.b + 1) == lim.overlap + 1;
  }

  /**
   Single code points are cut into windows of exactly `size` (the last may be shorter), each sharing exactly
   `overlap` code points with the one before.
   */
  lemma {:induction false} WindowsOfPoints(sp: seq<Span>, lim: Limits, k: nat)
    requires SinglePoints(sp) && sp != [] && 0 <= lim.overlap < lim.size
    requires k < |AllGroups(sp, 0, lim)|
    ensures var gs := AllGroups(sp, 0, lim);
      && gs[0].a == 0 && gs[|gs| - 1].b == |sp|
      && (if k + 1 < |gs| then gs[k].b == gs[k].a + lim.size && gs[k + 1].a == gs[k].b - lim.overlap
          else gs[k].b <= gs[k].a + lim.size)
  {
    hide Total, AllGroups, LongestTail, SinglePoints, Chain;
    var gs := AllGroups(sp, 0, lim);
    assert Chain(sp, 0) by { PointsChain(sp); }
    WindowsAreUnique(sp, 0, lim, gs);
    if k > 0 {
      WindowsOfPoints(sp, lim, k - 1);
      assert Continues(sp, 0, lim, gs[k - 1], gs[k]);
    }
    TotalOfPoints(sp, gs[k].a, gs[k].b);
    if k + 1 < |gs| {
      assert Continues(sp, 0, lim, gs[k], gs[k + 1]);
      TotalOfPoints(sp, gs[k].a, gs[k].b + 1);
      TailOfPoints(sp, lim, gs[k], gs[k + 1].a);
    }
  }

  lemma PointsChain(sp: seq<Span>)
    requires SinglePoints(sp)
    ensures Chain(sp, 0)
  {
  }

  /** The running total of an open window is its joined length, and never passes the limit by more than one gap. */
  ghost predicate Small(sp: seq<Span>, gap: nat, lim: Limits) {
    forall i :: 0 <= i < |sp| ==> sp[i].Len() < lim.size
  }

  /** With short pieces, the window opened after popping is within `size + gap`. */
  lemma OpenedWithinSize(sp: seq<Span>, gap: nat, lim: Limits, a: nat, i: nat)
    requires Chain(sp, gap) && Small(sp, gap, lim) && a <= i < |sp| && !Pops(sp, gap, lim, a, i)
    ensures Total(sp, a, i + 1) <= lim.size + gap
    ensures a < i ==> Total(sp, a, i) <= lim.overlap
  {
    assert sp[i].Len() < lim.size;
    if a < i {
      assert Next(sp, gap, i - 1);
      ChainOrder(sp, gap, a, i - 1);
      if a + 1 == i {
        assert sp[a].Len() < lim.size;
      } else {
        assert Next(sp, gap, a);
        ChainOrder(sp, gap, a + 1, i - 1);
      }
    }
  }

  /** No window is longer than `size`, plus one separator when separators are not kept in the pieces. */
  lemma {:induction false} GroupsWithinSize(sp: seq<Span>, gap: nat, lim: Limits, a: nat, i: nat, k: nat)
    requires Chain(sp, gap) && Small(sp, gap, lim) && a < i <= |sp|
    requires Total(sp, a, i) <= lim.size + gap
    requires k < |Groups(sp, gap, lim, a, i)|
    ensures GroupSpan(sp, Groups(sp, gap, lim, a, i)[k]).Len() <= lim.size + gap
    decreases |sp| - i
  {
    if i < |sp| {
      if Overflows(sp, gap, lim, a, i) {
        if k > 0 {
          var a' := PopTo(sp, gap, lim, a, i);
          OpenedWithinSize(sp, gap, lim, a', i);
          GroupsWithinSize(sp, gap, lim, a', i + 1, k - 1);
        }
      } else {
        assert Next(sp, gap, i - 1);
        GroupsWithinSize(sp, gap, lim, a, i + 1, k);
      }
    }
  }

  /** Two windows in order: starts and ends do not go back, and at most `overlap` code points are shared. */
  ghost predicate InOrder(s: Span, r: Span, overlap: int, strict: bool) {
    && s.lo <= r.lo && s.hi <= r.hi && s.hi - r.lo <= overlap
    && (strict ==> s.lo < r.lo)
  }

  /** Popping from an overflowing window of short pieces moves its start when pieces touch (`gap == 0`). */
  lemma {:induction false} PopAdvances(sp: seq<Span>, lim: Limits, a: nat, x: nat, i: nat)
    requires Chain(sp, 0) && Small(sp, 0, lim) && a <= x < i < |sp| && lim.overlap >= 0
    requires Overflows(sp, 0, lim, a, i) && sp[x].lo == sp[a].lo
    ensures Pops(sp, 0, lim, x, i)
  {
    assert sp[i].Len() < lim.size;
    ChainOrder(sp, 0, a, i - 1);
  }

  /** Each window starts at or after the one before, ends after it, and shares at most `overlap` with it. */
  lemma NextWindow(sp: seq<Span>, gap: nat, lim: Limits, a: nat, i: nat)
    requires Chain(sp, gap) && Small(sp, gap, lim) && a < i < |sp| && 0 <= lim.overlap < lim.size
    requires Overflows(sp, gap, lim, a, i)
    ensures var a' := PopTo(sp, gap, lim, a, i);
      && sp[a].lo <= sp[a'].lo && sp[i - 1].hi - sp[a'].lo <= lim.overlap
      && (gap == 0 ==> sp[a].lo < sp[a'].lo)
      && (sp[a'].lo <= sp[i - 1].hi + gap)
      && sp[i - 1].hi <= sp[i].hi
  {
    var a' := PopTo(sp, gap, lim, a, i);
    ChainOrder(sp, gap, a, a');
    ChainOrder(sp, gap, i - 1, i);
    assert Next(sp, gap, i - 1);
    if a' < i {
      ChainOrder(sp, gap, a', i - 1);
      OpenedWithinSize(sp, gap, lim, a', i);
      if gap == 0 && sp[a'].lo == sp[a].lo {
        PopAdvances(sp, lim, a, a', i);
      }
    } else if gap == 0 {
      assert sp[i].Len() < lim.size;
      ChainOrder(sp, gap, a, i - 1);
    }
  }

  /** Every window lies between the start of the open one and the end of the pieces. */
  lemma {:induction false} GroupsWithin(sp: seq<Span>, gap: nat, lim: Limits, a: nat, i: nat, k: nat)
    requires Chain(sp, gap) && a < i <= |sp|
    requires k < |Groups(sp, gap, lim, a, i)|
    ensures var s := GroupSpan(sp, Groups(sp, gap, lim, a, i)[k]);
      sp[a].lo <= s.lo && sp[i - 1].hi <= s.hi <= sp[|sp| - 1].hi
    decreases |sp| - i
  {
    hide Overflows, PopTo, Groups;
    ChainOrder(sp, gap, i - 1, |sp| - 1);
    if i == |sp| {
      OnlyGroup(sp, gap, lim, a);
    } else {
      ChainOrder(sp, gap, i - 1, i);
      var b, rest := GroupsUnfold(sp, gap, lim, a, i);
      if !Overflows(sp, gap, lim, a, i) {
        GroupsWithin(sp, gap, lim, a, i + 1, k);
      } else if k > 0 {
        ChainOrder(sp, gap, a, b);
        GroupsWithin(sp, gap, lim, b, i + 1, k - 1);
      }
    }
  }

  /** Windows `k < l` of one merge, in order; strictly when separators are kept in the pieces. */
  lemma {:induction false} GroupsInOrder(sp: seq<Span>, gap: nat, lim: Limits, a: nat, i: nat, k: nat, l: nat)
    requires Chain(sp, gap) && Small(sp, gap, lim) && a < i <= |sp| && 0 <= lim.overlap < lim.size
    requires k < l < |Groups(sp, gap, lim, a, i)|
    ensures var gs := Groups(sp, gap, lim, a, i);
      InOrder(GroupSpan(sp, gs[k]), GroupSpan(sp, gs[l]), lim.overlap, gap == 0)
    decreases |sp| - i
  {
    hide Overflows, PopTo, Groups;
    if i == |sp| {
      OnlyGroup(sp, gap, lim, a);
    } else {
      var b, rest := GroupsUnfold(sp, gap, lim, a, i);
      if !Overflows(sp, gap, lim, a, i) {
        GroupsInOrder(sp, gap, lim, a, i + 1, k, l);
      } else if k > 0 {
        GroupsInOrder(sp, gap, lim, b, i + 1, k - 1, l - 1);
      } else {
        NextWindow(sp, gap, lim, a, i);
        GroupsWithin(sp, gap, lim, b, i + 1, l - 1);
      }
    }
  }

  /** Every position from the first piece on is in some window, or in the gap after some piece. */
  lemma {:induction false} GroupsCover(sp: seq<Span>, gap: nat, lim: Limits, a: nat, i: nat, p: nat) returns (k: nat)
    requires Chain(sp, gap) && a < i <= |sp|
    requires sp[a].lo <= p < sp[|sp| - 1].hi
    ensures k < |Groups(sp, gap, lim, a, i)|
    ensures var s := GroupSpan(sp, Groups(sp, gap, lim, a, i)[k]); s.lo <= p < s.hi || InGap(sp, gap, p)
    decreases |sp| - i
  {
    hide Overflows, PopTo, Groups, InGap;
    k := 0;
    if i == |sp| {
      OnlyGroup(sp, gap, lim, a);
    } else {
      var b, rest := GroupsUnfold(sp, gap, lim, a, i);
      if !Overflows(sp, gap, lim, a, i) {
        k := GroupsCover(sp, gap, lim, a, i + 1, p);
      } else if p >= sp[i - 1].hi {
        if p < sp[i - 1].hi + gap {
          GapAfter(sp, gap, i - 1, p);
        } else {
          assert Next(sp, gap, i - 1);
          ChainOrder(sp, gap, b, i);
          k := GroupsCover(sp, gap, lim, b, i + 1, p);
          k := k + 1;
        }
      }
    }
  }

  lemma GapAfter(sp: seq<Span>, gap: nat, x: nat, p: int)
    requires x + 1 < |sp| && sp[x].hi <= p < sp[x].hi + gap
    ensures InGap(sp, gap, p)
  {
  }

  /** Position `p` belongs to no piece: it lies between two pieces. */
  ghost predicate InGap(sp: seq<Span>, gap: nat, p: int) {
    exists x :: 0 <= x < |sp| - 1 && sp[x].hi <= p < sp[x].hi + gap
  }
}
