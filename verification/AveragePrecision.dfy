/** Precision at k and average precision over the shared (-score, index) order. */
module AveragePrecision {
  import opened Sorting
  import opened RankMetrics

  predicate Positive(labels: seq<int>, i: nat) { i < |labels| && labels[i] == 1 }

  function Hits(top: seq<nat>, labels: seq<int>): nat {
    if top == [] then 0 else (if Positive(labels, top[0]) then 1 else 0) + Hits(top[1..], labels)
  }

  function PrecisionAtK(scores: seq<real>, labels: seq<int>, k: int): Result<real> {
    var checked := CheckPairs(scores, labels);
    if checked.Err? then Err(checked.error)
    else if k <= 0 then Err(BadK)
    else
      RankOrderIsOrdering(scores);
      var clamped := if k < |scores| then k else |scores|;
      Ok(Hits(RankOrder(scores)[..clamped], labels) as real / clamped as real)
  }

  /** The precisions at those of the first k ranks that hold a positive, added up. */
  function PositivePrecisions(scores: seq<real>, labels: seq<int>, k: nat): real
    requires CheckPairs(scores, labels).Ok? && k <= |scores|
  {
    if k == 0 then 0.0
    else
      RankOrderIsOrdering(scores);
      (if Positive(labels, RankOrder(scores)[k - 1]) then PrecisionAtK(scores, labels, k).value else 0.0)
      + PositivePrecisions(scores, labels, k - 1)
  }

  // ---------- counting hits ----------

  lemma {:induction false} HitsSnoc(s: seq<nat>, x: nat, labels: seq<int>)
    ensures Hits(s + [x], labels) == Hits(s, labels) + (if Positive(labels, x) then 1 else 0)
  {
    if s == [] {
      assert s + [x] == [x];
    } else {
      HitsSnoc(s[1..], x, labels);
      assert (s + [x])[1..] == s[1..] + [x];
    }
  }

  lemma HitsStep(s: seq<nat>, labels: seq<int>, k: nat)
    requires k < |s|
    ensures Hits(s[..k + 1], labels) == Hits(s[..k], labels) + (if Positive(labels, s[k]) then 1 else 0)
  {
    assert s[..k + 1] == s[..k] + [s[k]];
    HitsSnoc(s[..k], s[k], labels);
  }

  lemma {:induction false} HitsInsert(x: nat, s: seq<nat>, le: (nat, nat) -> bool, labels: seq<int>)
    ensures Hits(Insert(x, s, le), labels) == Hits(s, labels) + (if Positive(labels, x) then 1 else 0)
  {
    if s == [] || le(x, s[0]) {
      assert ([x] + s)[1..] == s;
    } else {
      HitsInsert(x, s[1..], le, labels);
      assert ([s[0]] + Insert(x, s[1..], le))[1..] == Insert(x, s[1..], le);
    }
  }

  lemma {:induction false} HitsSort(s: seq<nat>, le: (nat, nat) -> bool, labels: seq<int>)
    ensures Hits(StableSort(s, le), labels) == Hits(s, labels)
  {
    if s != [] {
      HitsSort(s[1..], le, labels);
      HitsInsert(s[0], StableSort(s[1..], le), le, labels);
    }
  }

  lemma {:induction false} LabelSnoc(labels: seq<int>, x: int)
    ensures CountLabel(labels + [x], 1) == CountLabel(labels, 1) + (if x == 1 then 1 else 0)
  {
    if labels == [] {
      assert labels + [x] == [x];
    } else {
      LabelSnoc(labels[1..], x);
      assert (labels + [x])[1..] == labels[1..] + [x];
    }
  }

  lemma {:induction false} HitsRange(labels: seq<int>, n: nat)
    requires n <= |labels|
    ensures Hits(Range(n), labels) == CountLabel(labels[..n], 1)
  {
    if n > 0 {
      HitsRange(labels, n - 1);
      assert Range(n) == Range(n - 1) + [n - 1];
      HitsSnoc(Range(n - 1), n - 1, labels);
      assert labels[..n] == labels[..n - 1] + [labels[n - 1]];
      LabelSnoc(labels[..n - 1], labels[n - 1]);
    }
  }

  /** The whole ranking holds every positive. */
  lemma AllHits(scores: seq<real>, labels: seq<int>)
    requires |scores| == |labels|
    ensures Hits(RankOrder(scores), labels) == CountLabel(labels, 1)
  {
    HitsSort(Range(|scores|), BestFirst(scores), labels);
    HitsRange(labels, |labels|);
    assert labels[..|labels|] == labels;
  }

  // ---------- the recall-increment loop ----------

  /** A hit adds its precision's share of the mean; a miss adds nothing. */
  lemma IncrementTerm(sum: real, before: real, hit: real, rank: real, total: real)
    requires rank > 0.0 && total > 0.0 && (hit == 0.0 || hit == 1.0)
    ensures var after := before + hit;
      sum / total + (after / total - before / total) * (after / rank) ==
      (hit * (after / rank) + sum) / total
  {
    var p := (before + hit) / rank;
    var share := (before + hit) / total - before / total;
    assert share == hit / total;
    assert share * p == (hit * p) / total;
    assert (hit * p) / total + sum / total == (hit * p + sum) / total;
  }

  lemma PrecisionsNext(scores: seq<real>, labels: seq<int>, k: nat)
    requires CheckPairs(scores, labels).Ok? && k < |scores| == |RankOrder(scores)|
    ensures var order := RankOrder(scores);
      PositivePrecisions(scores, labels, k + 1) ==
      (if Positive(labels, order[k]) then Hits(order[..k + 1], labels) as real / (k + 1) as real else 0.0)
      + PositivePrecisions(scores, labels, k)
  {
    hide RankOrder, Hits;
  }

  /** Rank k + 1 adds its recall increment times its precision to the mean of precisions. */
  lemma RecallStep(scores: seq<real>, labels: seq<int>, k: nat, total: nat)
    requires CheckPairs(scores, labels).Ok? && k < |scores| == |RankOrder(scores)| && total > 0
    ensures var order := RankOrder(scores);
      var before, after := Hits(order[..k], labels) as real, Hits(order[..k + 1], labels) as real;
      PositivePrecisions(scores, labels, k + 1) / total as real ==
      PositivePrecisions(scores, labels, k) / total as real +
      (after / total as real - before / total as real) * (after / (k + 1) as real)
  {
    var order := RankOrder(scores);
    HitsStep(order, labels, k);
    PrecisionsNext(scores, labels, k);
    hide *;
    var before, hit := Hits(order[..k], labels) as real, if Positive(labels, order[k]) then 1.0 else 0.0;
    IncrementTerm(PositivePrecisions(scores, labels, k), before, hit, (k + 1) as real, total as real);
  }

  lemma NoRanks(scores: seq<real>, labels: seq<int>)
    requires CheckPairs(scores, labels).Ok?
    ensures Hits([], labels) == 0 && PositivePrecisions(scores, labels, 0) == 0.0
  {
  }

  /** The mean of precision at k over the ranks k that hold a positive. */
  function MeanPrecision(scores: seq<real>, labels: seq<int>): Result<real> {
    var checked := CheckPairs(scores, labels);
    if checked.Err? then Err(checked.error)
    else if CountLabel(labels, 1) == 0 then Err(NoPositives)
    else Ok(PositivePrecisions(scores, labels, |scores|) / CountLabel(labels, 1) as real)
  }

  /** The recall-increment loop. */
  method AveragePrecision(scores: seq<real>, labels: seq<int>) returns (r: Result<real>)
    ensures r == MeanPrecision(scores, labels)
  {
    hide RankOrder, CountLabel, Hits, PositivePrecisions, StableSort;
    var checked := CheckPairs(scores, labels);
    if checked.Err? { return Err(checked.error); }
    var nPos := CountPositives(labels);
    if nPos == 0 { return Err(NoPositives); }
    var order := RankOrder(scores);
    RankOrderIsOrdering(scores);
    var cumulativeTp, ap, prevRecall := 0, 0.0, 0.0;
    NoRanks(scores, labels);
    assert order[..0] == [];
    for k := 0 to |order|
      invariant cumulativeTp == Hits(order[..k], labels)
      invariant prevRecall == cumulativeTp as real / nPos as real
      invariant ap == PositivePrecisions(scores, labels, k) / nPos as real
    {
      RecallStep(scores, labels, k, nPos);
      HitsStep(order, labels, k);
      if labels[order[k]] == 1 { cumulativeTp := cumulativeTp + 1; }
      var precision := cumulativeTp as real / (k + 1) as real;
      var recall := cumulativeTp as real / nPos as real;
      ap := ap + (recall - prevRecall) * precision;
      prevRecall := recall;
    }
    r := Ok(ap);
  }

  // ---------- range, and when it is one ----------

  lemma {:induction false} HitsBound(s: seq<nat>, labels: seq<int>)
    ensures Hits(s, labels) <= |s|
    ensures Hits(s, labels) == |s| <==> forall i :: 0 <= i < |s| ==> Positive(labels, s[i])
  {
    if s != [] {
      HitsBound(s[1..], labels);
      assert s == [s[0]] + s[1..];
      if Hits(s, labels) == |s| {
        forall i | 0 <= i < |s| ensures Positive(labels, s[i]) {
          assert i > 0 ==> s[i] == s[1..][i - 1];
        }
      }
    }
  }

  /** A rank holding a positive, with a negative somewhere at or above it. */
  ghost predicate Imperfect(order: seq<nat>, labels: seq<int>, k: nat)
    requires k < |order|
  {
    Positive(labels, order[k]) && exists i :: 0 <= i <= k && !Positive(labels, order[i])
  }

  lemma PrecisionRange(scores: seq<real>, labels: seq<int>, k: nat)
    requires CheckPairs(scores, labels).Ok? && k < |scores| == |RankOrder(scores)|
    requires Positive(labels, RankOrder(scores)[k])
    ensures 0.0 < PrecisionAtK(scores, labels, k + 1).value <= 1.0
    ensures PrecisionAtK(scores, labels, k + 1).value == 1.0 <==> !Imperfect(RankOrder(scores), labels, k)
  {
    hide RankOrder;
    RankOrderIsOrdering(scores);
    var order := RankOrder(scores);
    HitsStep(order, labels, k);
    HitsBound(order[..k + 1], labels);
    RatioRange(Hits(order[..k + 1], labels) as real, (k + 1) as real);
    assert forall i :: 0 <= i <= k ==> order[..k + 1][i] == order[i];
  }

  lemma {:induction false} PrecisionSum(scores: seq<real>, labels: seq<int>, k: nat)
    requires CheckPairs(scores, labels).Ok? && k <= |scores| == |RankOrder(scores)|
    ensures var sum, hits := PositivePrecisions(scores, labels, k), Hits(RankOrder(scores)[..k], labels);
      && 0.0 <= sum <= hits as real
      && (hits > 0 ==> sum > 0.0)
      && (sum == hits as real <==> forall j :: 0 <= j < k ==> !Imperfect(RankOrder(scores), labels, j))
  {
    hide RankOrder, PrecisionAtK, Hits;
    if k == 0 {
      HitsBound(RankOrder(scores)[..0], labels);
    } else {
      PrecisionSum(scores, labels, k - 1);
      HitsStep(RankOrder(scores), labels, k - 1);
      if Positive(labels, RankOrder(scores)[k - 1]) { PrecisionRange(scores, labels, k - 1); }
    }
  }

  /** No negative has a higher score than a positive, nor the same score and a smaller index. */
  ghost predicate PositivesFirst(scores: seq<real>, labels: seq<int>)
    requires |scores| == |labels|
  {
    forall p, q :: 0 <= p < |scores| && 0 <= q < |scores| && labels[p] == 1 && labels[q] != 1 ==>
      scores[p] > scores[q] || (scores[p] == scores[q] && p < q)
  }

  /** Average precision lies in (0, 1], and is one exactly when every positive is ranked first. */
  lemma AveragePrecisionRange(scores: seq<real>, labels: seq<int>)
    requires MeanPrecision(scores, labels).Ok?
    ensures var ap := MeanPrecision(scores, labels).value;
      0.0 < ap <= 1.0 && (ap == 1.0 <==> PositivesFirst(scores, labels))
  {
    hide RankOrder, PositivePrecisions, CountLabel, Hits;
    RankOrderIsOrdering(scores);
    var order := RankOrder(scores);
    assert order[..|scores|] == order;
    AllHits(scores, labels);
    PrecisionSum(scores, labels, |scores|);
    RatioRange(PositivePrecisions(scores, labels, |scores|), CountLabel(labels, 1) as real);
    NoneImperfect(scores, labels);
  }

  lemma NoneImperfect(scores: seq<real>, labels: seq<int>)
    requires |scores| == |labels|
    ensures PositivesFirst(scores, labels) <==>
      forall j :: 0 <= j < |RankOrder(scores)| ==> !Imperfect(RankOrder(scores), labels, j)
  {
    RankOrderExactly(scores);
    var order := RankOrder(scores);
    hide RankOrder;
    if forall j :: 0 <= j < |order| ==> !Imperfect(order, labels, j) {
      forall p, q | 0 <= p < |scores| && 0 <= q < |scores| && labels[p] == 1 && labels[q] != 1
        ensures scores[p] > scores[q] || (scores[p] == scores[q] && p < q)
      {
        assert p in order && q in order;
        var i :| 0 <= i < |order| && order[i] == q;
        var j :| 0 <= j < |order| && order[j] == p;
        assert !Imperfect(order, labels, j);
        assert i > j;
      }
    }
  }

  // ---------- precision at a rank, over the scores ----------

  /** j is ranked at i or before. */
  predicate RankedBy(scores: seq<real>, j: nat, i: nat) {
    j < |scores| && i < |scores| && (scores[j] > scores[i] || (scores[j] == scores[i] && j <= i))
  }

  lemma {:induction false} HitsAreMembers(s: seq<nat>, labels: seq<int>)
    requires Distinct(s)
    ensures Hits(s, labels) == |set x | x in s && Positive(labels, x)|
  {
    if s != [] {
      HitsAreMembers(s[1..], labels);
      FirstMember(s, labels);
      hide Hits, Distinct, Positive;
    }
  }

  lemma FirstMember(s: seq<nat>, labels: seq<int>)
    requires Distinct(s) && s != []
    ensures |set x | x in s && Positive(labels, x)| ==
      |set x | x in s[1..] && Positive(labels, x)| + (if Positive(labels, s[0]) then 1 else 0)
  {
    var newest: set<nat> := if Positive(labels, s[0]) then {s[0]} else {};
    assert s == [s[0]] + s[1..];
    assert (set x | x in s && Positive(labels, x)) == (set x | x in s[1..] && Positive(labels, x)) + newest;
  }

  /** Precision at the rank of i is the share of positives among what is ranked at i or before, and there is
      one such rank for every number of items up to all of them. */
  lemma PrecisionCounts(scores: seq<real>, labels: seq<int>, k: nat) returns (i: nat)
    requires CheckPairs(scores, labels).Ok? && k < |scores|
    ensures i < |scores|
    ensures var upto := set j: nat | j < |scores| && RankedBy(scores, j, i);
      var hits := set j: nat | j < |scores| && RankedBy(scores, j, i) && labels[j] == 1;
      |upto| == k + 1 && PrecisionAtK(scores, labels, k + 1) == Ok(|hits| as real / |upto| as real)
  {
    RankOrderExactly(scores);
    var order := RankOrder(scores);
    hide RankOrder, StableSort;
    i := order[k];
    var top := order[..k + 1];
    var upto := set j: nat | j < |scores| && RankedBy(scores, j, i);
    var hits := set j: nat | j < |scores| && RankedBy(scores, j, i) && labels[j] == 1;
    forall j: nat ensures j in upto <==> j in top { TopIsRankedBy(scores, order, k, j); }
    assert Distinct(top);
    HitsAreMembers(top, labels);
    DistinctCardinality(top, upto);
    assert hits == set x | x in top && Positive(labels, x);
  }

  lemma TopIsRankedBy(scores: seq<real>, order: seq<nat>, k: nat, j: nat)
    requires IsOrdering(order, |scores|) && k < |order|
    requires forall a, b :: 0 <= a < b < |order| ==>
      scores[order[a]] > scores[order[b]] || (scores[order[a]] == scores[order[b]] && order[a] < order[b])
    ensures RankedBy(scores, j, order[k]) <==> j in order[..k + 1]
  {
    if j < |scores| {
      assert j in order;
      var a :| 0 <= a < |order| && order[a] == j;
      if a <= k { assert order[..k + 1][a] == j; }
    }
    if j in order[..k + 1] {
      var a :| 0 <= a <= k && order[..k + 1][a] == j;
      assert order[a] == j;
    }
  }

  /** k is clamped to the number of items, and refused unless positive. */
  lemma PrecisionClamped(scores: seq<real>, labels: seq<int>, k: int)
    requires CheckPairs(scores, labels).Ok?
    ensures k <= 0 ==> PrecisionAtK(scores, labels, k) == Err(BadK)
    ensures k >= |scores| ==>
      PrecisionAtK(scores, labels, k) == Ok(CountLabel(labels, 1) as real / |scores| as real)
  {
    RankOrderIsOrdering(scores);
    AllHits(scores, labels);
    assert RankOrder(scores)[..|scores|] == RankOrder(scores);
    hide Hits, RankOrder;
  }

  lemma RatioRange(a: real, b: real)
    requires 0.0 < a <= b
    ensures 0.0 < a / b <= 1.0
    ensures a / b == 1.0 <==> a == b
  {
    var q := a / b;
    assert q * b == a;
  }
}
