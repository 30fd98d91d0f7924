/** The per-window evaluation report over the leak-free test partition. */
module WindowReport {
  import opened RealArithmetic
  import opened Wrappers
  import opened RankMetrics
  import opened AveragePrecision
  import opened ForwardSplit
  import opened CohortLabels

  const SCORE_SCALE := 100.0

  datatype Scored = Scored(id: int, birth: real, score: real, engagement: real, age: int)

  datatype Skip = NotSkipped | EmptyWindow | OneClass

  datatype Report = Report(
    n: nat, nPos: nat, prAuc: Option<real>, rocAuc: Option<real>, brier: Option<real>, skipped: Skip)

  datatype Outcome = Reported(report: Report) | BadRecord | BadRatios

  function ToCluster(s: Scored): Cluster { Cluster(s.id, s.birth, s.engagement, s.age) }

  function ToClusters(scored: seq<Scored>): (cs: seq<Cluster>)
    ensures |cs| == |scored|
    ensures forall i :: 0 <= i < |cs| ==>
      cs[i] == Cluster(scored[i].id, scored[i].birth, scored[i].engagement, scored[i].age)
  {
    seq(|scored|, i requires 0 <= i < |scored| => ToCluster(scored[i]))
  }

  predicate Validated(scored: seq<Scored>) {
    forall i :: 0 <= i < |scored| ==> scored[i].engagement >= 0.0 && scored[i].age >= 0
  }

  /** {item.id: item.score}: of repeated ids the last wins. */
  function ScoreById(scored: seq<Scored>): (m: map<int, real>)
    ensures forall i :: 0 <= i < |scored| ==> scored[i].id in m
  {
    if scored == [] then map[]
    else
      var last := scored[|scored| - 1];
      ScoreById(scored[..|scored| - 1])[last.id := last.score]
  }

  /** Of several records with one id the last one's score is used. */
  lemma {:induction false} LastScoreWins(scored: seq<Scored>, i: nat)
    requires i < |scored| && forall j :: i < j < |scored| ==> scored[j].id != scored[i].id
    ensures scored[i].id in ScoreById(scored) && ScoreById(scored)[scored[i].id] == scored[i].score
  {
    if i < |scored| - 1 { LastScoreWins(scored[..|scored| - 1], i); }
  }

  /** Every cluster's id has a score. */
  predicate Known(scored: seq<Scored>, test: seq<Cluster>) {
    forall i :: 0 <= i < |test| ==> test[i].id in ScoreById(scored)
  }

  function TestScores(scored: seq<Scored>, test: seq<Cluster>): (r: seq<real>)
    requires Known(scored, test)
    ensures |r| == |test|
  {
    seq(|test|, i requires 0 <= i < |test| => ScoreById(scored)[test[i].id])
  }

  /** The split invents no cluster, so no test id is ever missing from the scores. */
  lemma TestIdsKnown(scored: seq<Scored>, ratios: Ratios)
    requires ratios.Valid()
    ensures Known(scored, SplitOf(ToClusters(scored), ratios).test)
  {
    var all, s := ToClusters(scored), SplitOf(ToClusters(scored), ratios);
    SplitConserves(all, ratios);
    hide SplitOf;
    forall i | 0 <= i < |s.test| ensures s.test[i].id in ScoreById(scored) {
      assert s.test[i] in Everything(s);
      assert s.test[i] in multiset(all);
      var k :| 0 <= k < |all| && all[k] == s.test[i];
    }
  }

  function Probability(score: real): (p: real)
    ensures 0.0 <= p <= 1.0
  {
    var x := score / SCORE_SCALE;
    var floored := if x > 0.0 then x else 0.0;
    if floored < 1.0 then floored else 1.0
  }

  function SquaredErrors(scores: seq<real>, labels: seq<int>): real
    requires |scores| == |labels|
  {
    if scores == [] then 0.0
    else
      var d := Probability(scores[0]) - labels[0] as real;
      d * d + SquaredErrors(scores[1..], labels[1..])
  }

  lemma {:induction false} SquaredErrorsRange(scores: seq<real>, labels: seq<int>)
    requires |scores| == |labels| && BinaryLabels(labels)
    ensures 0.0 <= SquaredErrors(scores, labels) <= |scores| as real
  {
    if scores != [] {
      SquaredErrorsRange(scores[1..], labels[1..]);
      UnitSquare(Probability(scores[0]) - labels[0] as real);
    }
  }

  /** A score counts as a probability of a hundredth of it, cut off at 0 and 1. */
  lemma ProbabilityExactly(score: real)
    ensures score <= 0.0 ==> Probability(score) == 0.0
    ensures 0.0 <= score <= 100.0 ==> Probability(score) == score / 100.0
    ensures score >= 100.0 ==> Probability(score) == 1.0
  {
  }

  /** The baselines of the Brier score: nothing for the certain and right, a quarter each for always one half,
      one each for the certain and wrong; in general each pair adds the square of its miss. */
  lemma {:induction false} BrierBaselines(scores: seq<real>, labels: seq<int>)
    requires |scores| == |labels| && BinaryLabels(labels)
    ensures (forall i :: 0 <= i < |scores| ==> scores[i] == 100.0 * labels[i] as real) ==>
      SquaredErrors(scores, labels) == 0.0
    ensures (forall i :: 0 <= i < |scores| ==> scores[i] == 50.0) ==>
      SquaredErrors(scores, labels) == 0.25 * |scores| as real
    ensures (forall i :: 0 <= i < |scores| ==> scores[i] == 100.0 * (1 - labels[i]) as real) ==>
      SquaredErrors(scores, labels) == |scores| as real
    ensures scores != [] ==>
      var miss := Probability(scores[0]) - labels[0] as real;
      SquaredErrors(scores, labels) == miss * miss + SquaredErrors(scores[1..], labels[1..])
  {
    if scores != [] {
      BrierBaselines(scores[1..], labels[1..]);
      ProbabilityExactly(scores[0]);
      hide Probability;
      if labels[0] == 0 { assert labels[0] as real == 0.0; } else { assert labels[0] as real == 1.0; }
    }
  }

  lemma UnitSquare(d: real)
    requires -1.0 <= d <= 1.0
    ensures 0.0 <= d * d <= 1.0
  {
    assert 1.0 - d * d == (1.0 - d) * (1.0 + d);
    NonNegativeProduct(1.0 - d, 1.0 + d);
  }

  /** A Doubling label as the integer the metrics take. */
  function TestLabel(test: seq<Cluster>, bucket: int, c: Cluster): int {
    if LabelIn(test, Doubling, bucket, x => x, c) == 1.0 then 1 else 0
  }

  function TestLabels(test: seq<Cluster>, bucket: int): (labels: seq<int>)
    ensures |labels| == |test| && BinaryLabels(labels)
    ensures forall i :: 0 <= i < |test| ==> labels[i] == TestLabel(test, bucket, test[i])
  {
    seq(|test|, i requires 0 <= i < |test| => TestLabel(test, bucket, test[i]))
  }

  /** A test cluster is labelled 1 exactly when its engagement is above the median of its cohort's. */
  lemma TestLabelsExactly(test: seq<Cluster>, bucket: int, i: nat)
    requires i < |test|
    ensures TestLabels(test, bucket)[i] == 1 <==>
      test[i].outcome > Percentile(CohortOutcomes(test, bucket, CohortKey(bucket, test[i])), 50.0)
  {
    LabelExactly(test, bucket, x => x, test[i]);
    hide LabelIn, Percentile;
  }

  /** The early score takes no part in the split or the labels: records that differ in nothing else give the
      same test part and the same labels. */
  lemma EarlyScoreDoesNotLeak(a: seq<Scored>, b: seq<Scored>, ratios: Ratios, bucket: int)
    requires ratios.Valid() && |a| == |b|
    requires forall i :: 0 <= i < |a| ==> a[i].(score := 0.0) == b[i].(score := 0.0)
    ensures var test, test' := SplitOf(ToClusters(a), ratios).test, SplitOf(ToClusters(b), ratios).test;
      test == test' && TestLabels(test, bucket) == TestLabels(test', bucket)
  {
    hide SplitOf;
    forall i | 0 <= i < |a| ensures ToClusters(a)[i] == ToClusters(b)[i] {
      assert a[i].(score := 0.0) == b[i].(score := 0.0);
    }
    assert ToClusters(a) == ToClusters(b);
  }

  lemma {:induction false} AllOnes(labels: seq<int>, i: nat)
    requires i < |labels| && labels[i] != 1
    ensures CountLabel(labels, 1) < |labels|
  {
    if i > 0 { AllOnes(labels[1..], i - 1); } else { CountLabelBound(labels[1..]); }
  }

  lemma {:induction false} CountLabelBound(labels: seq<int>)
    ensures CountLabel(labels, 1) <= |labels|
  {
    if labels != [] { CountLabelBound(labels[1..]); }
  }

  /** A non-empty test partition is never labelled all positive. */
  lemma NeverAllPositive(test: seq<Cluster>, bucket: int)
    requires test != []
    ensures CountLabel(TestLabels(test, bucket), 1) < |test|
  {
    var negative := DoublingLeavesANegative(test, bucket, x => x, test[0]);
    var i :| 0 <= i < |test| && test[i] == negative;
    assert TestLabel(test, bucket, negative) == 0;
    AllOnes(TestLabels(test, bucket), i);
  }

  /** Two classes present means every metric is inside its domain. */
  lemma {:induction false} MetricsDefined(scores: seq<real>, labels: seq<int>)
    requires |scores| == |labels| && BinaryLabels(labels)
    requires 0 < CountLabel(labels, 1) < |labels|
    ensures Auc(scores, labels).Ok? && MeanPrecision(scores, labels).Ok?
  {
    ClassSize(scores, labels, 1);
    ClassSizes(scores, labels);
  }

  method ComputeWindowReport(scored: seq<Scored>, ratios: Ratios, bucket: int) returns (out: Outcome)
    ensures scored == [] ==> out == Reported(Report(0, 0, None, None, None, EmptyWindow))
    ensures scored != [] && !Validated(scored) ==> out == BadRecord
    ensures scored != [] && Validated(scored) && !ratios.Valid() ==> out == BadRatios
    ensures scored != [] && Validated(scored) && ratios.Valid() ==>
      var test := SplitOf(ToClusters(scored), ratios).test;
      (TestIdsKnown(scored, ratios);
      var scores, labels := TestScores(scored, test), TestLabels(test, bucket);
      var nPos := CountLabel(labels, 1);
      out == Reported(
        if test == [] then Report(0, 0, None, None, None, EmptyWindow)
        else if nPos == 0 then Report(|test|, 0, None, None, None, OneClass)
        else
          NeverAllPositive(test, bucket);
          MetricsDefined(scores, labels);
          Report(|test|, nPos, Some(MeanPrecision(scores, labels).value), Some(Auc(scores, labels).value),
                 Some(SquaredErrors(scores, labels) / |test| as real), NotSkipped)))
  {
    hide Auc, MeanPrecision, LabelIn, SplitOf, CountLabel;
    if scored == [] { return Reported(Report(0, 0, None, None, None, EmptyWindow)); }
    if !Validated(scored) { return BadRecord; }
    if !ratios.Valid() { return BadRatios; }
    var split := SplitByTime(ToClusters(scored), ratios);
    var test := split.test;
    TestIdsKnown(scored, ratios);
    if test == [] { return Reported(Report(0, 0, None, None, None, EmptyWindow)); }
    var asReals := LabelPartition(test, Doubling, bucket, x => x);
    var labels := seq(|test|, i requires 0 <= i < |test| && |asReals| == |test| => if asReals[i] == 1.0 then 1 else 0);
    assert labels == TestLabels(test, bucket) by { LabelsAgree(test, bucket, asReals, labels); }
    var scores := TestScores(scored, test);
    var n := |test|;
    var nPos := CountPositives(labels);
    NeverAllPositive(test, bucket);
    if nPos == 0 || nPos == n { return Reported(Report(n, nPos, None, None, None, OneClass)); }
    MetricsDefined(scores, labels);
    var pr := AveragePrecision.AveragePrecision(scores, labels);
    var roc := RocAuc(scores, labels);
    return Reported(Report(n, nPos, Some(pr.value), Some(roc.value),
                           Some(SquaredErrors(scores, labels) / n as real), NotSkipped));
  }

  lemma LabelsAgree(test: seq<Cluster>, bucket: int, asReals: seq<real>, labels: seq<int>)
    requires |asReals| == |test| == |labels|
    requires forall i :: 0 <= i < |test| ==> asReals[i] == LabelIn(test, Doubling, bucket, x => x, test[i])
    requires forall i :: 0 <= i < |test| ==> labels[i] == if asReals[i] == 1.0 then 1 else 0
    ensures labels == TestLabels(test, bucket)
  {
    hide Threshold;
  }
}
