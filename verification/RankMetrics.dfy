/** Ranking-quality metrics: tie-averaged ranks, ROC-AUC, precision at k, average precision. */
module RankMetrics {
  import opened Sorting

  datatype MetricError = LengthMismatch | NoPairs | BadLabels | SingleClass | NoPositives | BadK

  datatype Result<+T> = Ok(value: T) | Err(error: MetricError)

  // ---------- counting definitions ----------

  function Count(s: seq<real>, p: real -> bool): nat {
    if s == [] then 0 else (if p(s[0]) then 1 else 0) + Count(s[1..], p)
  }

  function Below(v: real): real -> bool { x => x < v }

  function Same(v: real): real -> bool { x => x == v }

  /** The scores carrying label c, in input order. */
  function Class(scores: seq<real>, labels: seq<int>, c: int): seq<real>
    requires |scores| == |labels|
  {
    if scores == [] then []
    else (if labels[0] == c then [scores[0]] else []) + Class(scores[1..], labels[1..], c)
  }

  /** Pairs (p, q), p from pos and q from neg, in which p has the higher score. */
  function Wins(pos: seq<real>, neg: seq<real>): nat {
    if pos == [] then 0 else Count(neg, Below(pos[0])) + Wins(pos[1..], neg)
  }

  /** Pairs (p, q), p from pos and q from neg, with equal scores. */
  function Ties(pos: seq<real>, neg: seq<real>): nat {
    if pos == [] then 0 else Count(neg, Same(pos[0])) + Ties(pos[1..], neg)
  }

  /** The Mann-Whitney statistic: a win counts one, a tie one half. */
  function WinRate(pos: seq<real>, neg: seq<real>): real
    requires pos != [] && neg != []
  {
    (2 * Wins(pos, neg) + Ties(pos, neg)) as real / (2 * (|pos| * |neg|)) as real
  }

  predicate BinaryLabels(labels: seq<int>) {
    forall i :: 0 <= i < |labels| ==> labels[i] == 0 || labels[i] == 1
  }

  // ---------- orders on indices ----------

  function At(values: seq<real>, i: nat): real { if i < |values| then values[i] else 0.0 }

  /** sorted(key = values[i]) */
  function Ascending(values: seq<real>): (nat, nat) -> bool {
    (a: nat, b: nat) => At(values, a) <= At(values, b)
  }

  /** sorted(key = (-scores[i], i)) */
  function BestFirst(scores: seq<real>): (nat, nat) -> bool {
    (a: nat, b: nat) => At(scores, a) > At(scores, b) || (At(scores, a) == At(scores, b) && a <= b)
  }

  function Range(n: nat): (r: seq<nat>) { seq(n, i => i) }

  /** The descending order shared by average precision and precision at k. */
  function RankOrder(scores: seq<real>): seq<nat> { StableSort(Range(|scores|), BestFirst(scores)) }

  ghost predicate IsOrdering(order: seq<nat>, n: nat) {
    && |order| == n
    && Distinct(order)
    && (forall k :: 0 <= k < n ==> order[k] < n)
    && (forall i: nat :: i < n ==> i in order)
  }

  lemma SortedRange(n: nat, le: (nat, nat) -> bool)
    ensures IsOrdering(StableSort(Range(n), le), n)
    ensures TotalPreorder(le) ==> SortedBy(StableSort(Range(n), le), le)
  {
    var r := Range(n);
    SortPermutes(r, le);
    SortMembers(r, le);
    SortKeepsDistinct(r, le);
    var order := StableSort(r, le);
    forall i: nat | i < n ensures i in order { assert r[i] in r; }
    forall k | 0 <= k < n ensures order[k] < n { assert order[k] in order; }
    if TotalPreorder(le) { SortSorts(r, le); }
  }

  lemma RankOrderIsOrdering(scores: seq<real>)
    ensures IsOrdering(RankOrder(scores), |scores|)
    ensures SortedBy(RankOrder(scores), BestFirst(scores))
  {
    SortedRange(|scores|, BestFirst(scores));
  }

  /** The shared order puts higher scores first, and equal ones by index. */
  lemma RankOrderExactly(scores: seq<real>)
    ensures IsOrdering(RankOrder(scores), |scores|)
    ensures var order := RankOrder(scores);
      forall i, j :: 0 <= i < j < |order| ==>
        scores[order[i]] > scores[order[j]] || (scores[order[i]] == scores[order[j]] && order[i] < order[j])
  {
    RankOrderIsOrdering(scores);
    var order := RankOrder(scores);
    hide RankOrder, StableSort;
    forall i, j | 0 <= i < j < |order|
      ensures scores[order[i]] > scores[order[j]] || (scores[order[i]] == scores[order[j]] && order[i] < order[j])
    {
      assert BestFirst(scores)(order[i], order[j]);
    }
  }

  // ---------- tie-averaged ranks ----------

  /** Twice the average of the rank positions that the entries equal to v occupy. */
  function DoubleRank(values: seq<real>, v: real): nat {
    2 * Count(values, Below(v)) + Count(values, Same(v)) + 1
  }

  lemma {:induction false} CountSnoc(s: seq<real>, x: real, p: real -> bool)
    ensures Count(s + [x], p) == Count(s, p) + (if p(x) then 1 else 0)
  {
    if s == [] {
      assert s + [x] == [x];
    } else {
      CountSnoc(s[1..], x, p);
      assert (s + [x])[1..] == s[1..] + [x];
    }
  }

  lemma {:induction false} CountIsCardinality(s: seq<real>, p: real -> bool)
    ensures Count(s, p) == |set i: nat | i < |s| && p(s[i])|
  {
    if s != [] {
      var last := |s| - 1;
      var front := s[..last];
      CountIsCardinality(front, p);
      CountSnoc(front, s[last], p);
      assert s == front + [s[last]];
      hide Count;
      LastChosen(s, p);
    }
  }

  lemma {:induction false} CountEverything(s: seq<real>, p: real -> bool)
    requires forall x :: p(x)
    ensures Count(s, p) == |s|
  {
    if s != [] { CountEverything(s[1..], p); }
  }

  lemma LastChosen(s: seq<real>, p: real -> bool)
    requires s != []
    ensures var last := |s| - 1; var front := s[..last];
      |set i: nat | i < |s| && p(s[i])| ==
      |set i: nat | i < |front| && p(front[i])| + (if p(s[last]) then 1 else 0)
  {
    var last := |s| - 1;
    var front := s[..last];
    var before := set i: nat | i < |front| && p(front[i]);
    var newest: set<nat> := if p(s[last]) then {last} else {};
    assert (set i: nat | i < |s| && p(s[i])) == before + newest;
  }

  lemma ChosenPositions(values: seq<real>, order: seq<nat>, p: real -> bool, lo: nat, hi: nat, i: nat)
    requires IsOrdering(order, |values|) && lo <= hi <= |order|
    requires forall k :: 0 <= k < |order| ==> (p(values[order[k]]) <==> lo <= k < hi)
    ensures i < |values| && p(values[i]) <==> i in order[lo..hi]
  {
    if i < |values| && p(values[i]) {
      assert i in order;
      var k :| 0 <= k < |order| && order[k] == i;
      assert order[lo..hi][k - lo] == i;
    }
    if i in order[lo..hi] {
      var m :| 0 <= m < hi - lo && order[lo..hi][m] == i;
      assert order[lo + m] == i;
    }
  }

  /** A predicate true at exactly the sorted positions lo..hi holds of hi - lo values. */
  lemma {:induction false} CountByPosition(values: seq<real>, order: seq<nat>, p: real -> bool, lo: nat, hi: nat)
    requires IsOrdering(order, |values|) && lo <= hi <= |order|
    requires forall k :: 0 <= k < |order| ==> (p(values[order[k]]) <==> lo <= k < hi)
    ensures Count(values, p) == hi - lo
  {
    hide Count;
    var members := set i: nat | i < |values| && p(values[i]);
    CountIsCardinality(values, p);
    forall i: nat ensures i in members <==> i in order[lo..hi] {
      ChosenPositions(values, order, p, lo, hi, i);
    }
    SliceDistinct(order, lo, hi);
    hide IsOrdering, Distinct;
    DistinctCardinality(order[lo..hi], members);
  }

  lemma SliceDistinct(s: seq<nat>, lo: nat, hi: nat)
    requires Distinct(s) && lo <= hi <= |s|
    ensures Distinct(s[lo..hi])
  {
  }

  /** A maximal run of equal values in the sorted order sits exactly at the counted positions. */
  lemma RunPosition(values: seq<real>, order: seq<nat>, i: nat, j: nat)
    requires IsOrdering(order, |values|)
    requires forall m, k :: 0 <= m <= k < |order| ==> values[order[m]] <= values[order[k]]
    requires i <= j < |order|
    requires i > 0 ==> values[order[i - 1]] < values[order[i]]
    requires j + 1 < |order| ==> values[order[j]] < values[order[j + 1]]
    requires values[order[i]] == values[order[j]]
    ensures DoubleRank(values, values[order[i]]) == i + 1 + j + 1
  {
    var v := values[order[i]];
    CountByPosition(values, order, Below(v), 0, i);
    CountByPosition(values, order, Same(v), i, j + 1);
  }

  ghost predicate Ranked(values: seq<real>, v: real, rank: real) {
    2.0 * rank == DoubleRank(values, v) as real
  }

  /** The average of the run's first and last rank is the rank of each of its values. */
  lemma RunRank(values: seq<real>, order: seq<nat>, i: nat, j: nat)
    requires IsOrdering(order, |values|)
    requires forall m, k :: 0 <= m <= k < |order| ==> values[order[m]] <= values[order[k]]
    requires i <= j < |order|
    requires i > 0 ==> values[order[i - 1]] < values[order[i]]
    requires j + 1 < |order| ==> values[order[j]] < values[order[j + 1]]
    requires values[order[i]] == values[order[j]]
    ensures Ranked(values, values[order[i]], (i + 1 + j + 1) as real / 2.0)
  {
    RunPosition(values, order, i, j);
    hide DoubleRank;
  }

  lemma AscendingOrder(values: seq<real>) returns (order: seq<nat>)
    ensures order == StableSort(Range(|values|), Ascending(values))
    ensures IsOrdering(order, |values|)
    ensures forall m, k :: 0 <= m <= k < |order| ==> values[order[m]] <= values[order[k]]
  {
    order := StableSort(Range(|values|), Ascending(values));
    SortedRange(|values|, Ascending(values));
    forall m, k | 0 <= m <= k < |order| ensures values[order[m]] <= values[order[k]] {
      assert m < k ==> Ascending(values)(order[m], order[k]);
    }
  }

  /** Writes one rank to the values at sorted positions i..j. */
  method FillRun(ranks: array<real>, order: seq<nat>, i: nat, j: nat, avgRank: real)
    requires IsOrdering(order, ranks.Length) && i <= j < |order|
    modifies ranks
    ensures forall m :: 0 <= m < |order| ==>
      ranks[order[m]] == if i <= m <= j then avgRank else old(ranks[order[m]])
  {
    for k := i to j + 1
      invariant forall m :: 0 <= m < |order| ==>
        ranks[order[m]] == if i <= m < k then avgRank else old(ranks[order[m]])
    {
      ranks[order[k]] := avgRank;
    }
  }

  method TieAveragedRanks(values: seq<real>) returns (ranks: seq<real>)
    ensures |ranks| == |values|
    ensures forall i :: 0 <= i < |values| ==> Ranked(values, values[i], ranks[i])
  {
    hide DoubleRank, StableSort, Ranked;
    var n := |values|;
    var order := StableSort(Range(n), Ascending(values));
    ghost var sorted := AscendingOrder(values);
    var filled := new real[n](_ => 0.0);
    var i := 0;
    while i < n
      invariant 0 <= i <= n
      invariant 0 < i < n ==> values[order[i - 1]] < values[order[i]]
      invariant forall k :: 0 <= k < i ==> Ranked(values, values[order[k]], filled[order[k]])
    {
      var j := i;
      while j + 1 < n && values[order[j + 1]] == values[order[i]]
        invariant i <= j < n
        invariant forall k :: i <= k <= j ==> values[order[k]] == values[order[i]]
      {
        j := j + 1;
      }
      RunRank(values, order, i, j);
      var avgRank := (i + 1 + j + 1) as real / 2.0;
      FillRun(filled, order, i, j, avgRank);
      i := j + 1;
    }
    ranks := filled[..];
    forall k: nat | k < n ensures Ranked(values, values[k], ranks[k]) {
      assert k in order;
    }
  }

  // ---------- the Mann-Whitney identity ----------

  /** Twice the wins plus the ties of one score against s. */
  function Row(a: real, s: seq<real>): nat { 2 * Count(s, Below(a)) + Count(s, Same(a)) }

  function RowSum(s: seq<real>, t: seq<real>): nat {
    if s == [] then 0 else Row(s[0], t) + RowSum(s[1..], t)
  }

  lemma {:induction false} RowSumIsWinsAndTies(s: seq<real>, t: seq<real>)
    ensures RowSum(s, t) == 2 * Wins(s, t) + Ties(s, t)
  {
    if s != [] { RowSumIsWinsAndTies(s[1..], t); }
  }

  /** Against a fixed score, every other score wins, ties or loses: two half-points either way. */
  lemma {:induction false} RowAgainstOne(a: real, t: seq<real>)
    ensures Row(a, t) + RowSum(t, [a]) == 2 * |t|
  {
    if t != [] {
      RowAgainstOne(a, t[1..]);
      assert Count([a], Below(t[0])) == (if a < t[0] then 1 else 0);
      assert Count([a], Same(t[0])) == (if a == t[0] then 1 else 0);
    }
  }

  lemma CountCons(a: real, s: seq<real>, p: real -> bool)
    ensures Count([a] + s, p) == Count([a], p) + Count(s, p)
  {
    assert ([a] + s)[1..] == s && [a][1..] == [];
  }

  lemma {:induction false} RowSumCons(t: seq<real>, a: real, s: seq<real>)
    ensures RowSum(t, [a] + s) == RowSum(t, [a]) + RowSum(t, s)
  {
    if t != [] {
      RowSumCons(t[1..], a, s);
      CountCons(a, s, Below(t[0]));
      CountCons(a, s, Same(t[0]));
    }
  }

  lemma {:induction false} RowSumSymmetry(s: seq<real>, t: seq<real>)
    ensures RowSum(s, t) + RowSum(t, s) == 2 * (|s| * |t|)
  {
    if s == [] {
      RowSumEmpty(t);
    } else {
      hide RowSum, Row;
      var a, rest := s[0], s[1..];
      RowSumSymmetry(rest, t);
      RowSumFirst(s, t);
      assert s == [a] + rest;
      RowSumCons(t, a, rest);
      RowAgainstOne(a, t);
      ProductStep(|rest|, |t|);
    }
  }

  lemma RowSumFirst(s: seq<real>, t: seq<real>)
    requires s != []
    ensures RowSum(s, t) == Row(s[0], t) + RowSum(s[1..], t)
  {
  }

  lemma ProductStep(n: nat, k: nat)
    ensures (n + 1) * k == n * k + k
  {
  }

  lemma {:induction false} RowSumEmpty(t: seq<real>)
    ensures RowSum(t, []) == 0
  {
    if t != [] { RowSumEmpty(t[1..]); }
  }

  lemma {:induction false} RowByClass(a: real, scores: seq<real>, labels: seq<int>)
    requires |scores| == |labels| && BinaryLabels(labels)
    ensures Row(a, scores) == Row(a, Class(scores, labels, 1)) + Row(a, Class(scores, labels, 0))
  {
    if scores != [] {
      RowByClass(a, scores[1..], labels[1..]);
      var rest1, rest0 := Class(scores[1..], labels[1..], 1), Class(scores[1..], labels[1..], 0);
      assert ([scores[0]] + rest1)[1..] == rest1 && ([scores[0]] + rest0)[1..] == rest0;
      assert [] + rest1 == rest1 && [] + rest0 == rest0;
    }
  }

  lemma {:induction false} RowSumByClass(s: seq<real>, scores: seq<real>, labels: seq<int>)
    requires |scores| == |labels| && BinaryLabels(labels)
    ensures RowSum(s, scores) ==
      RowSum(s, Class(scores, labels, 1)) + RowSum(s, Class(scores, labels, 0))
  {
    if s != [] {
      RowByClass(s[0], scores, labels);
      RowSumByClass(s[1..], scores, labels);
    }
  }

  lemma {:induction false} ClassSizes(scores: seq<real>, labels: seq<int>)
    requires |scores| == |labels| && BinaryLabels(labels)
    ensures |Class(scores, labels, 1)| + |Class(scores, labels, 0)| == |scores|
  {
    if scores != [] { ClassSizes(scores[1..], labels[1..]); }
  }

  function CountLabel(labels: seq<int>, c: int): nat {
    if labels == [] then 0 else (if labels[0] == c then 1 else 0) + CountLabel(labels[1..], c)
  }

  lemma {:induction false} ClassSize(scores: seq<real>, labels: seq<int>, c: int)
    requires |scores| == |labels|
    ensures |Class(scores, labels, c)| == CountLabel(labels, c)
  {
    if scores != [] { ClassSize(scores[1..], labels[1..], c); }
  }

  function SumWhere(ranks: seq<real>, labels: seq<int>): real
    requires |ranks| == |labels|
  {
    if ranks == [] then 0.0
    else (if labels[0] == 1 then ranks[0] else 0.0) + SumWhere(ranks[1..], labels[1..])
  }

  /** Summing the ranks of the positives sums their rows against everything, plus one each. */
  lemma {:induction false} RankSumIsRowSum(all: seq<real>, scores: seq<real>, labels: seq<int>, ranks: seq<real>)
    requires |scores| == |labels| == |ranks|
    requires forall i :: 0 <= i < |scores| ==> Ranked(all, scores[i], ranks[i])
    ensures 2.0 * SumWhere(ranks, labels) ==
      (RowSum(Class(scores, labels, 1), all) + |Class(scores, labels, 1)|) as real
  {
    if scores != [] {
      RankSumIsRowSum(all, scores[1..], labels[1..], ranks[1..]);
      var rest := Class(scores[1..], labels[1..], 1);
      assert ([scores[0]] + rest)[1..] == rest && [] + rest == rest;
      assert Ranked(all, scores[0], ranks[0]);
    }
  }

  /** The rank sum of the positives, less what they score among themselves, is their half-points. */
  lemma {:induction false} MannWhitney(scores: seq<real>, labels: seq<int>, ranks: seq<real>)
    requires |scores| == |labels| == |ranks| && BinaryLabels(labels)
    requires forall i :: 0 <= i < |scores| ==> Ranked(scores, scores[i], ranks[i])
    ensures var pos, neg := Class(scores, labels, 1), Class(scores, labels, 0);
      2.0 * SumWhere(ranks, labels) ==
      (2 * Wins(pos, neg) + Ties(pos, neg) + |pos| * (|pos| + 1)) as real
  {
    var pos, neg := Class(scores, labels, 1), Class(scores, labels, 0);
    RankSumIsRowSum(scores, scores, labels, ranks);
    RowSumByClass(pos, scores, labels);
    RowSumSymmetry(pos, pos);
    RowSumIsWinsAndTies(pos, neg);
    assert RowSum(pos, pos) == |pos| * |pos|;
    assert |pos| * (|pos| + 1) == |pos| * |pos| + |pos|;
  }

  method CountPositives(labels: seq<int>) returns (n: nat)
    ensures n == CountLabel(labels, 1)
  {
    n := 0;
    for i := 0 to |labels|
      invariant n + CountLabel(labels[i..], 1) == CountLabel(labels, 1)
    {
      if labels[i] == 1 { n := n + 1; }
    }
  }

  method SumOfPositiveRanks(ranks: seq<real>, labels: seq<int>) returns (sum: real)
    requires |ranks| == |labels|
    ensures sum == SumWhere(ranks, labels)
  {
    sum := 0.0;
    for i := 0 to |ranks|
      invariant sum + SumWhere(ranks[i..], labels[i..]) == SumWhere(ranks, labels)
    {
      assert ranks[i..][1..] == ranks[i + 1..] && labels[i..][1..] == labels[i + 1..];
      if labels[i] == 1 { sum := sum + ranks[i]; }
    }
  }

  /** The checks shared by the metrics, in the order the source makes them. */
  function CheckPairs(scores: seq<real>, labels: seq<int>): Result<()> {
    if |scores| != |labels| then Err(LengthMismatch)
    else if scores == [] then Err(NoPairs)
    else if !BinaryLabels(labels) then Err(BadLabels)
    else Ok(())
  }

  /** The AUC by pair counting; undefined when one of the classes is empty. */
  function Auc(scores: seq<real>, labels: seq<int>): Result<real> {
    var checked := CheckPairs(scores, labels);
    if checked.Err? then Err(checked.error)
    else
      var pos, neg := Class(scores, labels, 1), Class(scores, labels, 0);
      if pos == [] || neg == [] then Err(SingleClass) else Ok(WinRate(pos, neg))
  }

  /** The rank-sum computation of the AUC. */
  method RocAuc(scores: seq<real>, labels: seq<int>) returns (r: Result<real>)
    ensures r == Auc(scores, labels)
  {
    hide Class, CountLabel, Wins, Ties, SumWhere, Ranked;
    var checked := CheckPairs(scores, labels);
    if checked.Err? { return Err(checked.error); }
    var nPos := CountPositives(labels);
    var nNeg := |labels| - nPos;
    ghost var pos, neg := Class(scores, labels, 1), Class(scores, labels, 0);
    ClassSize(scores, labels, 1);
    ClassSizes(scores, labels);
    if nPos == 0 || nNeg == 0 { return Err(SingleClass); }
    var ranks := TieAveragedRanks(scores);
    var rankSumPos := SumOfPositiveRanks(ranks, labels);
    MannWhitney(scores, labels, ranks);
    RankSumFraction(rankSumPos, 2 * Wins(pos, neg) + Ties(pos, neg), nPos, nNeg);
    return Ok((rankSumPos - (nPos * (nPos + 1)) as real / 2.0) / (nPos * nNeg) as real);
  }

  lemma RankSumFraction(rankSum: real, points: nat, nPos: nat, nNeg: nat)
    requires nPos > 0 && nNeg > 0
    requires 2.0 * rankSum == (points + nPos * (nPos + 1)) as real
    ensures nPos * nNeg > 0
    ensures (rankSum - (nPos * (nPos + 1)) as real / 2.0) / (nPos * nNeg) as real ==
      points as real / (2 * (nPos * nNeg)) as real
  {
    var own, pairs := nPos * (nPos + 1), nPos * nNeg;
    assert pairs > 0;
    assert rankSum - own as real / 2.0 == points as real / 2.0;
    HalfOver(points as real, pairs as real);
  }

  lemma HalfOver(a: real, b: real)
    requires b > 0.0
    ensures (a / 2.0) / b == a / (2.0 * b)
  {
    var q := (a / 2.0) / b;
    assert q * b == a / 2.0;
    assert q * (2.0 * b) == a;
  }

  // ---------- consequences for the AUC ----------

  lemma AucBounds(pos: seq<real>, neg: seq<real>)
    requires pos != [] && neg != []
    ensures 0.0 <= WinRate(pos, neg) <= 1.0
    ensures WinRate(pos, neg) + WinRate(neg, pos) == 1.0
  {
    RowSumSymmetry(pos, neg);
    RowSumIsWinsAndTies(pos, neg);
    RowSumIsWinsAndTies(neg, pos);
    var d := |pos| * |neg|;
    assert d == |neg| * |pos| && d > 0;
    Fractions(RowSum(pos, neg) as real, RowSum(neg, pos) as real, (2 * d) as real);
  }

  lemma Fractions(a: real, b: real, d: real)
    requires d > 0.0 && a >= 0.0 && b >= 0.0 && a + b == d
    ensures a / d + b / d == 1.0
    ensures 0.0 <= a / d <= 1.0
  {
    assert a / d + b / d == (a + b) / d;
  }

  function Flipped(labels: seq<int>): seq<int> { seq(|labels|, i requires 0 <= i < |labels| => 1 - labels[i]) }

  lemma {:induction false} FlippedClass(scores: seq<real>, labels: seq<int>, c: int)
    requires |scores| == |labels| && BinaryLabels(labels)
    ensures Class(scores, Flipped(labels), 1 - c) == Class(scores, labels, c)
  {
    if scores != [] {
      FlippedClass(scores[1..], labels[1..], c);
      assert Flipped(labels)[1..] == Flipped(labels[1..]);
    }
  }

  /** Swapping the two classes reflects the AUC about one half, and no error appears or vanishes. */
  lemma AucLabelSwap(scores: seq<real>, labels: seq<int>)
    ensures Auc(scores, Flipped(labels)) ==
      match Auc(scores, labels)
      case Ok(v) => Ok(1.0 - v)
      case Err(e) => Err(e)
  {
    hide Class, WinRate;
    FlippedChecks(scores, labels);
    if CheckPairs(scores, labels).Ok? {
      var pos, neg := Class(scores, labels, 1), Class(scores, labels, 0);
      FlippedClass(scores, labels, 0);
      FlippedClass(scores, labels, 1);
      if pos != [] && neg != [] { AucBounds(pos, neg); }
    }
  }

  lemma FlippedChecks(scores: seq<real>, labels: seq<int>)
    ensures CheckPairs(scores, Flipped(labels)) == CheckPairs(scores, labels)
  {
    if BinaryLabels(Flipped(labels)) {
      forall i | 0 <= i < |labels| ensures labels[i] == 0 || labels[i] == 1 {
        assert Flipped(labels)[i] == 1 - labels[i];
      }
    }
  }

  ghost predicate SameOrder(a: seq<real>, b: seq<real>) {
    |a| == |b| && forall i, j :: 0 <= i < |a| && 0 <= j < |a| ==> (a[i] < a[j] <==> b[i] < b[j])
  }

  lemma {:induction false} CountSameOrder(s: seq<real>, s': seq<real>, labels: seq<int>, a: real, a': real, c: int)
    requires |s| == |s'| == |labels|
    requires forall i :: 0 <= i < |s| ==> (s[i] < a <==> s'[i] < a') && (s[i] == a <==> s'[i] == a')
    ensures Count(Class(s, labels, c), Below(a)) == Count(Class(s', labels, c), Below(a'))
    ensures Count(Class(s, labels, c), Same(a)) == Count(Class(s', labels, c), Same(a'))
  {
    if s != [] {
      CountSameOrder(s[1..], s'[1..], labels[1..], a, a', c);
      var rest, rest' := Class(s[1..], labels[1..], c), Class(s'[1..], labels[1..], c);
      assert ([s[0]] + rest)[1..] == rest && ([s'[0]] + rest')[1..] == rest';
      assert [] + rest == rest && [] + rest' == rest';
    }
  }

  lemma {:induction false} WinsSameOrder(p: seq<real>, p': seq<real>, pl: seq<int>, s: seq<real>, s': seq<real>, labels: seq<int>)
    requires |p| == |p'| == |pl| && |s| == |s'| == |labels|
    requires forall k, i :: 0 <= k < |p| && 0 <= i < |s| ==>
      (s[i] < p[k] <==> s'[i] < p'[k]) && (s[i] == p[k] <==> s'[i] == p'[k])
    ensures Wins(Class(p, pl, 1), Class(s, labels, 0)) == Wins(Class(p', pl, 1), Class(s', labels, 0))
    ensures Ties(Class(p, pl, 1), Class(s, labels, 0)) == Ties(Class(p', pl, 1), Class(s', labels, 0))
  {
    if p != [] {
      WinsSameOrder(p[1..], p'[1..], pl[1..], s, s', labels);
      CountSameOrder(s, s', labels, p[0], p'[0], 0);
      var rest, rest' := Class(p[1..], pl[1..], 1), Class(p'[1..], pl[1..], 1);
      assert ([p[0]] + rest)[1..] == rest && ([p'[0]] + rest')[1..] == rest';
      assert [] + rest == rest && [] + rest' == rest';
    }
  }

  /** A strictly increasing rescoring leaves the AUC, or its error, unchanged. */
  lemma AucRescoring(scores: seq<real>, rescored: seq<real>, labels: seq<int>)
    requires SameOrder(scores, rescored)
    ensures Auc(rescored, labels) == Auc(scores, labels)
  {
    hide Class, CountLabel, Wins, Ties;
    if CheckPairs(scores, labels).Ok? {
      ClassSize(scores, labels, 0);
      ClassSize(scores, labels, 1);
      ClassSize(rescored, labels, 0);
      ClassSize(rescored, labels, 1);
      assert forall k, i :: 0 <= k < |scores| && 0 <= i < |scores| ==>
        (scores[i] == scores[k] <==> !(scores[i] < scores[k]) && !(scores[k] < scores[i]));
      WinsSameOrder(scores, rescored, labels, scores, rescored, labels);
    }
  }

  /** Whenever it is defined the AUC is a fraction. */
  lemma AucRange(scores: seq<real>, labels: seq<int>)
    requires Auc(scores, labels).Ok?
    ensures 0.0 <= Auc(scores, labels).value <= 1.0
  {
    hide Class, WinRate;
    AucBounds(Class(scores, labels, 1), Class(scores, labels, 0));
  }
}
