/** The AUC over pairs of indices: when it is defined, what it counts, and when it is perfect. */
module AucPairs {
  import opened RankMetrics

  lemma ClassHead(scores: seq<real>, labels: seq<int>, x: real, l: int, c: int)
    requires |scores| == |labels|
    ensures Class([x] + scores, [l] + labels, c) == (if l == c then [x] else []) + Class(scores, labels, c)
  {
    assert ([x] + scores)[1..] == scores && ([l] + labels)[1..] == labels;
  }

  lemma {:induction false} ClassSnoc(scores: seq<real>, labels: seq<int>, x: real, l: int, c: int)
    requires |scores| == |labels|
    ensures Class(scores + [x], labels + [l], c) == Class(scores, labels, c) + (if l == c then [x] else [])
  {
    if scores == [] {
      ClassHead([], [], x, l, c);
      assert [] + [x] == [x] + [] && [] + [l] == [l] + [];
    } else {
      hide Class;
      var x0, l0, rest, restLabels := scores[0], labels[0], scores[1..], labels[1..];
      ClassSnoc(rest, restLabels, x, l, c);
      ClassHead(rest, restLabels, x0, l0, c);
      ClassHead(rest + [x], restLabels + [l], x0, l0, c);
      assert [x0] + rest == scores && [l0] + restLabels == labels;
      assert [x0] + (rest + [x]) == scores + [x] && [l0] + (restLabels + [l]) == labels + [l];
    }
  }

  lemma ClassNext(scores: seq<real>, labels: seq<int>, n: nat, c: int)
    requires n < |scores| == |labels|
    ensures Class(scores[..n + 1], labels[..n + 1], c) ==
      Class(scores[..n], labels[..n], c) + (if labels[n] == c then [scores[n]] else [])
  {
    assert scores[..n + 1] == scores[..n] + [scores[n]] && labels[..n + 1] == labels[..n] + [labels[n]];
    ClassSnoc(scores[..n], labels[..n], scores[n], labels[n], c);
  }

  ghost function Labelled(scores: seq<real>, labels: seq<int>, n: nat, c: int, p: real -> bool): set<nat>
    requires n <= |scores| == |labels|
  {
    set j: nat | j < n && labels[j] == c && p(scores[j])
  }

  /** A class counts the indices that carry its label. */
  lemma {:induction false} ClassCount(scores: seq<real>, labels: seq<int>, n: nat, c: int, p: real -> bool)
    requires n <= |scores| == |labels|
    ensures Count(Class(scores[..n], labels[..n], c), p) == |Labelled(scores, labels, n, c, p)|
  {
    if n > 0 {
      ClassCount(scores, labels, n - 1, c, p);
      ClassNext(scores, labels, n - 1, c);
      if labels[n - 1] == c { CountSnoc(Class(scores[..n - 1], labels[..n - 1], c), scores[n - 1], p); }
      NextLabelled(scores, labels, n - 1, c, p);
      assert Class(scores[..n - 1], labels[..n - 1], c) + [] == Class(scores[..n - 1], labels[..n - 1], c);
    } else {
      assert Labelled(scores, labels, 0, c, p) == {};
    }
  }

  lemma NextLabelled(scores: seq<real>, labels: seq<int>, n: nat, c: int, p: real -> bool)
    requires n < |scores| == |labels|
    ensures |Labelled(scores, labels, n + 1, c, p)| ==
      |Labelled(scores, labels, n, c, p)| + (if labels[n] == c && p(scores[n]) then 1 else 0)
  {
    var newest: set<nat> := if labels[n] == c && p(scores[n]) then {n} else {};
    assert Labelled(scores, labels, n + 1, c, p) == Labelled(scores, labels, n, c, p) + newest;
  }

  /** Pairs of a positive index below n and a negative index whose scores are so related. */
  ghost function PairsOf(scores: seq<real>, labels: seq<int>, n: nat, rel: real -> real -> bool): set<(nat, nat)>
    requires n <= |scores| == |labels|
  {
    set i: nat, j: nat | i < n && j < |scores| && labels[i] == 1 && labels[j] == 0 && rel(scores[i])(scores[j]) :: (i, j)
  }

  ghost function Paired(i: nat, js: set<nat>): set<(nat, nat)> { set j | j in js :: (i, j) }

  lemma {:induction false} PairUp(i: nat, js: set<nat>)
    ensures |Paired(i, js)| == |js|
  {
    if js == {} {
      assert Paired(i, js) == {};
    } else {
      var j :| j in js;
      PairUp(i, js - {j});
      assert (i, j) !in Paired(i, js - {j});
      assert Paired(i, js) == Paired(i, js - {j}) + {(i, j)};
    }
  }

  lemma NextPairs(scores: seq<real>, labels: seq<int>, n: nat, rel: real -> real -> bool)
    requires n < |scores| == |labels|
    ensures |PairsOf(scores, labels, n + 1, rel)| == |PairsOf(scores, labels, n, rel)|
      + (if labels[n] == 1 then |Labelled(scores, labels, |scores|, 0, rel(scores[n]))| else 0)
  {
    var js := Labelled(scores, labels, |scores|, 0, rel(scores[n]));
    PairUp(n, js);
    RowOfPairs(scores, labels, n, rel);
    hide PairsOf, Paired, Labelled;
  }

  lemma RowOfPairs(scores: seq<real>, labels: seq<int>, n: nat, rel: real -> real -> bool)
    requires n < |scores| == |labels|
    ensures var before, row := PairsOf(scores, labels, n, rel), Paired(n, Labelled(scores, labels, |scores|, 0, rel(scores[n])));
      && before !! row
      && PairsOf(scores, labels, n + 1, rel) == if labels[n] == 1 then before + row else before
  {
  }

  lemma {:induction false} WinsSnoc(pos: seq<real>, x: real, neg: seq<real>)
    ensures Wins(pos + [x], neg) == Wins(pos, neg) + Count(neg, Below(x))
    ensures Ties(pos + [x], neg) == Ties(pos, neg) + Count(neg, Same(x))
  {
    if pos == [] {
      assert pos + [x] == [x];
    } else {
      WinsSnoc(pos[1..], x, neg);
      assert (pos + [x])[1..] == pos[1..] + [x];
    }
  }

  lemma {:induction false} WinsArePairs(scores: seq<real>, labels: seq<int>, n: nat)
    requires n <= |scores| == |labels|
    ensures var pos, neg := Class(scores[..n], labels[..n], 1), Class(scores, labels, 0);
      Wins(pos, neg) == |PairsOf(scores, labels, n, Below)| && Ties(pos, neg) == |PairsOf(scores, labels, n, Same)|
  {
    var neg := Class(scores, labels, 0);
    if n == 0 {
      assert PairsOf(scores, labels, 0, Below) == {} && PairsOf(scores, labels, 0, Same) == {};
    } else {
      WinsArePairs(scores, labels, n - 1);
      var front, x := Class(scores[..n - 1], labels[..n - 1], 1), scores[n - 1];
      ClassNext(scores, labels, n - 1, 1);
      WinsSnoc(front, x, neg);
      NextPairs(scores, labels, n - 1, Below);
      NextPairs(scores, labels, n - 1, Same);
      assert scores[..|scores|] == scores && labels[..|labels|] == labels;
      ClassCount(scores, labels, |scores|, 0, Below(x));
      ClassCount(scores, labels, |scores|, 0, Same(x));
      assert front + [] == front;
    }
  }

  /** The AUC is defined exactly for 0/1 labels of both kinds, as many as there are scores. */
  lemma AucDefinedExactly(scores: seq<real>, labels: seq<int>)
    ensures Auc(scores, labels).Ok? <==>
      && |scores| == |labels| && (forall i :: 0 <= i < |labels| ==> labels[i] == 0 || labels[i] == 1)
      && (exists i :: 0 <= i < |labels| && labels[i] == 1) && (exists i :: 0 <= i < |labels| && labels[i] == 0)
  {
    if |scores| == |labels| {
      ClassIndices(scores, labels, 1);
      ClassIndices(scores, labels, 0);
      hide Class, WinRate;
    }
  }

  /** And then it is the share of positive/negative index pairs that the positive wins, ties counting half. */
  lemma AucCountsPairs(scores: seq<real>, labels: seq<int>)
    requires Auc(scores, labels).Ok?
    ensures var n := |scores|;
      var wins := set i: nat, j: nat | i < n && j < n && labels[i] == 1 && labels[j] == 0 && scores[j] < scores[i] :: (i, j);
      var ties := set i: nat, j: nat | i < n && j < n && labels[i] == 1 && labels[j] == 0 && scores[j] == scores[i] :: (i, j);
      var positives, negatives := set i: nat | i < n && labels[i] == 1, set i: nat | i < n && labels[i] == 0;
      && |positives| * |negatives| > 0
      && Auc(scores, labels).value == (2 * |wins| + |ties|) as real / (2 * (|positives| * |negatives|)) as real
  {
    PairsLiterally(scores, labels);
    assert scores[..|scores|] == scores && labels[..|labels|] == labels;
    hide PairsOf, Class, Wins, Ties, Count;
    ClassIndices(scores, labels, 1);
    ClassIndices(scores, labels, 0);
    WinsArePairs(scores, labels, |scores|);
    ProductPositive(|Class(scores, labels, 1)|, |Class(scores, labels, 0)|);
  }

  lemma PairsLiterally(scores: seq<real>, labels: seq<int>)
    requires |scores| == |labels|
    ensures var n := |scores|;
      PairsOf(scores, labels, n, Below) ==
      set i: nat, j: nat | i < n && j < n && labels[i] == 1 && labels[j] == 0 && scores[j] < scores[i] :: (i, j)
    ensures var n := |scores|;
      PairsOf(scores, labels, n, Same) ==
      set i: nat, j: nat | i < n && j < n && labels[i] == 1 && labels[j] == 0 && scores[j] == scores[i] :: (i, j)
  {
  }

  lemma {:induction false} RowBound(a: real, t: seq<real>)
    ensures Row(a, t) <= 2 * |t|
    ensures Row(a, t) == 2 * |t| <==> forall y :: y in t ==> y < a
  {
    if t != [] {
      RowBound(a, t[1..]);
      forall y ensures y in t <==> y == t[0] || y in t[1..] { HeadOrTail(t, y); }
      if forall y :: y in t ==> y < a {
        assert t[0] in t;
        forall y | y in t[1..] ensures y < a { assert y in t; }
      }
    }
  }

  lemma {:induction false} RowSumBound(s: seq<real>, t: seq<real>)
    ensures RowSum(s, t) <= 2 * (|s| * |t|)
    ensures RowSum(s, t) == 2 * (|s| * |t|) <==> AllWin(s, t)
  {
    if s != [] {
      hide Row;
      RowSumBound(s[1..], t);
      RowBound(s[0], t);
      ProductStep(|s| - 1, |t|);
      AllFirst(s, t);
    }
  }

  lemma AllFirst(s: seq<real>, t: seq<real>)
    requires s != []
    ensures (forall x, y :: x in s && y in t ==> y < x) <==>
      (forall y :: y in t ==> y < s[0]) && forall x, y :: x in s[1..] && y in t ==> y < x
  {
    forall x ensures x in s <==> x == s[0] || x in s[1..] { HeadOrTail(s, x); }
    if forall x, y :: x in s && y in t ==> y < x {
      assert s[0] in s;
      forall x, y | x in s[1..] && y in t ensures y < x { assert x in s; }
    }
  }

  lemma HeadOrTail(s: seq<real>, x: real)
    requires s != []
    ensures x in s <==> x == s[0] || x in s[1..]
  {
    assert s == [s[0]] + s[1..];
    assert x in [s[0]] + s[1..] <==> x in [s[0]] || x in s[1..];
  }

  lemma {:induction false} ClassMembers(scores: seq<real>, labels: seq<int>, c: int, x: real)
    requires |scores| == |labels|
    ensures x in Class(scores, labels, c) <==> exists i :: 0 <= i < |scores| && labels[i] == c && scores[i] == x
  {
    if scores != [] {
      ClassMembers(scores[1..], labels[1..], c, x);
      if x in Class(scores[1..], labels[1..], c) {
        var i :| 0 <= i < |scores| - 1 && labels[1..][i] == c && scores[1..][i] == x;
        assert labels[i + 1] == c && scores[i + 1] == x;
      }
      if i :| 0 <= i < |scores| && labels[i] == c && scores[i] == x && i > 0 {
        assert labels[1..][i - 1] == c && scores[1..][i - 1] == x;
      }
    }
  }

  ghost predicate AllWin(pos: seq<real>, neg: seq<real>) { forall x, y :: x in pos && y in neg ==> y < x }

  ghost predicate EveryPairWins(scores: seq<real>, labels: seq<int>)
    requires |scores| == |labels|
  {
    forall i, j :: 0 <= i < |scores| && 0 <= j < |scores| && labels[i] == 1 && labels[j] == 0 ==> scores[j] < scores[i]
  }

  lemma {:induction false} AllPairsWin(scores: seq<real>, labels: seq<int>)
    requires |scores| == |labels|
    ensures AllWin(Class(scores, labels, 1), Class(scores, labels, 0)) <==> EveryPairWins(scores, labels)
  {
    var pos, neg := Class(scores, labels, 1), Class(scores, labels, 0);
    hide Class;
    if AllWin(pos, neg) {
      forall i, j | 0 <= i < |scores| && 0 <= j < |scores| && labels[i] == 1 && labels[j] == 0
        ensures scores[j] < scores[i]
      {
        ClassMembers(scores, labels, 1, scores[i]);
        ClassMembers(scores, labels, 0, scores[j]);
      }
    }
    if EveryPairWins(scores, labels) {
      forall x, y | x in pos && y in neg ensures y < x {
        ClassMembers(scores, labels, 1, x);
        ClassMembers(scores, labels, 0, y);
        var i :| 0 <= i < |scores| && labels[i] == 1 && scores[i] == x;
        var j :| 0 <= j < |scores| && labels[j] == 0 && scores[j] == y;
      }
    }
  }

  /** The AUC is 1 exactly when every positive outranks every negative. */
  lemma PerfectExactly(scores: seq<real>, labels: seq<int>)
    requires Auc(scores, labels).Ok?
    ensures Auc(scores, labels).value == 1.0 <==> EveryPairWins(scores, labels)
  {
    var pos, neg := Class(scores, labels, 1), Class(scores, labels, 0);
    hide Class, RowSum, Wins, Ties, EveryPairWins;
    RowSumIsWinsAndTies(pos, neg);
    RowSumBound(pos, neg);
    ProductPositive(|pos|, |neg|);
    UnitQuotient(RowSum(pos, neg) as real, (2 * (|pos| * |neg|)) as real);
    AllPairsWin(scores, labels);
  }

  lemma UnitQuotient(a: real, b: real)
    requires b > 0.0
    ensures a / b == 1.0 <==> a == b
  {
    var q := a / b;
    assert q * b == a;
  }

  lemma ProductPositive(a: nat, b: nat)
    requires a > 0 && b > 0
    ensures a * b > 0
  {
  }

  lemma ClassIndices(scores: seq<real>, labels: seq<int>, c: int)
    requires |scores| == |labels|
    ensures |Class(scores, labels, c)| == |set i: nat | i < |scores| && labels[i] == c|
    ensures Class(scores, labels, c) == [] <==> !exists i :: 0 <= i < |labels| && labels[i] == c
  {
    var n, all := |scores|, (x: real) => true;
    assert scores[..n] == scores && labels[..n] == labels;
    ClassCount(scores, labels, n, c, all);
    CountEverything(Class(scores, labels, c), all);
    assert (set i: nat | i < n && labels[i] == c) == Labelled(scores, labels, n, c, all);
    if i: nat :| i < n && labels[i] == c { assert i in Labelled(scores, labels, n, c, all); }
    if i: nat :| i in Labelled(scores, labels, n, c, all) { assert labels[i] == c; }
  }
}
