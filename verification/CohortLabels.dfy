/** Interpolated percentiles and the per-cohort virality labels built on them. */
module CohortLabels {
  import opened RealArithmetic
  import opened Sorting
  import opened RankMetrics
  import opened ForwardSplit

  // ---------- percentiles ----------

  function Numeric(): (real, real) -> bool { (a: real, b: real) => a <= b }

  function SortedValues(values: seq<real>): seq<real> { StableSort(values, Numeric()) }

  /** The fractional position of percentile q among n sorted values. */
  function RankOf(q: real, n: nat): (rank: real)
    requires 0.0 <= q <= 100.0 && n > 0
    ensures 0.0 <= rank <= (n - 1) as real
  {
    var m, x := (n - 1) as real, q / 100.0;
    NonNegativeProduct(m, x);
    NonNegativeProduct(m, 1.0 - x);
    assert m - x * m == m * (1.0 - x);
    x * m
  }

  function Mix(a: real, b: real, f: real): real { a * (1.0 - f) + b * f }

  /** Linear interpolation between the two sorted neighbours of the fractional rank. */
  function Percentile(values: seq<real>, q: real): real
    requires 0.0 <= q <= 100.0
  {
    if values == [] then 0.0
    else
      SortPermutes(values, Numeric());
      var ordered := SortedValues(values);
      if |ordered| == 1 then ordered[0]
      else
        var rank := RankOf(q, |ordered|);
        var low := rank.Floor;
        var high := if low + 1 < |ordered| - 1 then low + 1 else |ordered| - 1;
        Mix(ordered[low], ordered[high], rank - low as real)
  }

  function Above(v: real): real -> bool { x => x > v }

  function Reaching(v: real): real -> bool { x => x >= v }

  lemma {:induction false} CountInsert(x: real, s: seq<real>, p: real -> bool)
    ensures Count(Insert(x, s, Numeric()), p) == Count(s, p) + (if p(x) then 1 else 0)
  {
    if s == [] || Numeric()(x, s[0]) {
      assert ([x] + s)[1..] == s;
    } else {
      CountInsert(x, s[1..], p);
      var rest := Insert(x, s[1..], Numeric());
      assert ([s[0]] + rest)[1..] == rest;
    }
  }

  lemma {:induction false} CountSorted(s: seq<real>, p: real -> bool)
    ensures Count(SortedValues(s), p) == Count(s, p)
  {
    if s != [] {
      CountSorted(s[1..], p);
      CountInsert(s[0], SortedValues(s[1..]), p);
    }
  }

  lemma {:induction false} CountAtMost(s: seq<real>, p: real -> bool, k: nat)
    requires k <= |s| && forall i :: 0 <= i < k ==> !p(s[i])
    ensures Count(s, p) <= |s| - k
  {
    if s != [] {
      if k == 0 { CountAtMost(s[1..], p, 0); } else { CountAtMost(s[1..], p, k - 1); }
    }
  }

  lemma {:induction false} CountWhereAll(s: seq<real>, p: real -> bool, k: nat)
    requires k <= |s| && forall i :: k <= i < |s| ==> p(s[i])
    ensures Count(s, p) >= |s| - k
  {
    if s != [] {
      if k == 0 { CountWhereAll(s[1..], p, 0); } else { CountWhereAll(s[1..], p, k - 1); }
    }
  }

  lemma SortedValuesAscend(values: seq<real>)
    ensures |SortedValues(values)| == |values|
    ensures forall i, j :: 0 <= i <= j < |values| ==> SortedValues(values)[i] <= SortedValues(values)[j]
  {
    SortPermutes(values, Numeric());
    SortSorts(values, Numeric());
    var s := SortedValues(values);
    forall i, j | 0 <= i <= j < |values| ensures s[i] <= s[j] {
      assert i < j ==> Numeric()(s[i], s[j]);
    }
  }

  lemma Interpolate(a: real, b: real, f: real)
    requires a <= b && 0.0 <= f <= 1.0
    ensures a <= Mix(a, b, f) <= b
    ensures f == 0.0 ==> Mix(a, b, f) == a
  {
    NonNegativeProduct(b - a, f);
    NonNegativeProduct(b - a, 1.0 - f);
    assert Mix(a, b, f) - a == (b - a) * f;
    assert b - Mix(a, b, f) == (b - a) * (1.0 - f);
  }

  /** The percentile lies between its sorted neighbours, and is the lower one at a whole rank. */
  lemma PercentileBetween(values: seq<real>, q: real, low: nat, high: nat)
    requires values != [] && 0.0 <= q <= 100.0
    requires low == RankOf(q, |values|).Floor
    requires high == if RankOf(q, |values|) == low as real then low else low + 1
    ensures low <= high < |values| == |SortedValues(values)|
    ensures SortedValues(values)[low] <= Percentile(values, q) <= SortedValues(values)[high]
  {
    hide SortedValues, Mix, RankOf;
    SortedValuesAscend(values);
    var ordered := SortedValues(values);
    var rank := RankOf(q, |values|);
    if |values| > 1 {
      var next := if low + 1 < |values| - 1 then low + 1 else |values| - 1;
      Interpolate(ordered[low], ordered[next], rank - low as real);
    }
  }

  /** At most floor(n / 2) values lie strictly above the median. */
  lemma {:induction false} MedianBound(values: seq<real>)
    requires values != []
    ensures Count(values, Above(Percentile(values, 50.0))) <= |values| / 2
  {
    hide StableSort, Percentile, Count;
    var m := |values| - 1;
    var low := m / 2;
    var rank := RankOf(50.0, |values|);
    assert rank == m as real / 2.0 && rank.Floor == low;
    assert rank == low as real <==> m % 2 == 0;
    var v := Percentile(values, 50.0);
    PercentileBetween(values, 50.0, low, if m % 2 == 0 then low else low + 1);
    SortedValuesAscend(values);
    CountSorted(values, Above(v));
    CountAtMost(SortedValues(values), Above(v), low + 1);
  }

  /** The 50th percentile is the middle value, or the mean of the two middle ones. */
  lemma MedianIsMiddle(values: seq<real>)
    requires values != []
    ensures |SortedValues(values)| == |values|
    ensures var ordered, n := SortedValues(values), |values|;
      Percentile(values, 50.0) ==
      if n % 2 == 1 then ordered[n / 2] else (ordered[n / 2 - 1] + ordered[n / 2]) / 2.0
  {
    hide SortedValues;
    SortedValuesAscend(values);
    var m := |values| - 1;
    var rank := RankOf(50.0, |values|);
    assert rank == m as real / 2.0 && rank.Floor == m / 2;
    assert rank - (m / 2) as real == if m % 2 == 0 then 0.0 else 0.5;
  }

  /** At least ceil(n / 4) values reach the 75th percentile. */
  lemma {:induction false} QuartileBound(values: seq<real>)
    requires values != []
    ensures Count(values, Reaching(Percentile(values, 75.0))) >= (|values| + 3) / 4
  {
    hide StableSort, Percentile, Count;
    var m := |values| - 1;
    var low := 3 * m / 4;
    var rank := RankOf(75.0, |values|);
    assert rank.Floor == low;
    assert rank == low as real <==> 3 * m % 4 == 0;
    var high := if 3 * m % 4 == 0 then low else low + 1;
    var v := Percentile(values, 75.0);
    PercentileBetween(values, 75.0, low, high);
    SortedValuesAscend(values);
    CountSorted(values, Reaching(v));
    CountWhereAll(SortedValues(values), Reaching(v), high);
  }

  /** Between two neighbouring ranks the percentile runs straight from the one sorted value to the other. */
  lemma PercentileExactly(values: seq<real>, q: real, k: nat)
    requires k + 1 < |values| && 0.0 <= q <= 100.0
    requires k as real <= q / 100.0 * (|values| - 1) as real <= (k + 1) as real
    ensures |SortedValues(values)| == |values|
    ensures var ordered, f := SortedValues(values), q / 100.0 * (|values| - 1) as real - k as real;
      Percentile(values, q) == ordered[k] + f * (ordered[k + 1] - ordered[k])
  {
    SortedValuesAscend(values);
    var ordered, rank := SortedValues(values), RankOf(q, |values|);
    hide SortedValues, Mix;
    if rank < (k + 1) as real {
      assert rank.Floor == k;
      MixIsLinear(ordered[k], ordered[k + 1], rank - k as real);
    } else {
      var next := if k + 2 < |values| - 1 then k + 2 else |values| - 1;
      assert rank.Floor == k + 1;
      MixIsLinear(ordered[k + 1], ordered[next], 0.0);
    }
  }

  lemma MixIsLinear(a: real, b: real, f: real)
    ensures Mix(a, b, f) == a + f * (b - a)
  {
    assert a * (1.0 - f) == a - a * f;
    assert f * (b - a) == b * f - a * f;
  }

  lemma EndRanks(values: seq<real>)
    requires values != []
    ensures |SortedValues(values)| == |values|
    ensures Percentile(values, 0.0) == SortedValues(values)[0]
    ensures Percentile(values, 100.0) == SortedValues(values)[|values| - 1]
  {
    hide SortedValues, Percentile;
    SortedValuesAscend(values);
    if |values| == 1 {
      PercentileBetween(values, 0.0, 0, 0);
      PercentileBetween(values, 100.0, 0, 0);
    } else {
      PercentileExactly(values, 0.0, 0);
      PercentileExactly(values, 100.0, |values| - 2);
    }
  }

  /** The sorted values are the values; the 0th percentile is the least of them, the 100th the greatest. */
  lemma PercentileEnds(values: seq<real>)
    requires values != []
    ensures multiset(SortedValues(values)) == multiset(values)
    ensures Percentile(values, 0.0) in values && Percentile(values, 100.0) in values
    ensures forall x :: x in values ==> Percentile(values, 0.0) <= x <= Percentile(values, 100.0)
  {
    EndRanks(values);
    SortedValuesAscend(values);
    SortPermutes(values, Numeric());
    SortMembers(values, Numeric());
    var ordered := SortedValues(values);
    hide Percentile, StableSort;
    forall x | x in values ensures ordered[0] <= x <= ordered[|values| - 1] {
      var i :| 0 <= i < |ordered| && ordered[i] == x;
    }
    assert ordered[0] in ordered && ordered[|values| - 1] in ordered;
  }

  lemma SameFirst(a: seq<real>, b: seq<real>)
    requires multiset(a) == multiset(b) && a != [] && b != []
    requires SortedBy(a, Numeric()) && SortedBy(b, Numeric())
    ensures a[0] == b[0]
  {
    assert a[0] in multiset(b) && b[0] in multiset(a);
    var i :| 0 <= i < |b| && b[i] == a[0];
    var j :| 0 <= j < |a| && a[j] == b[0];
    assert i == 0 || Numeric()(b[0], b[i]);
    assert j == 0 || Numeric()(a[0], a[j]);
  }

  lemma SortedTail(a: seq<real>)
    requires SortedBy(a, Numeric()) && a != []
    ensures SortedBy(a[1..], Numeric()) && multiset(a[1..]) == multiset(a) - multiset{a[0]}
  {
    assert a == [a[0]] + a[1..];
  }

  /** Equal multisets sort to the same sequence. */
  lemma {:induction false} SortedUnique(a: seq<real>, b: seq<real>)
    requires multiset(a) == multiset(b)
    requires SortedBy(a, Numeric()) && SortedBy(b, Numeric())
    ensures a == b
  {
    hide SortedBy;
    assert |a| == |multiset(a)| == |multiset(b)| == |b|;
    if a != [] {
      SameFirst(a, b);
      SortedTail(a);
      SortedTail(b);
      SortedUnique(a[1..], b[1..]);
      assert a == [a[0]] + a[1..] && b == [b[0]] + b[1..];
    }
  }

  lemma PercentileOfSorted(a: seq<real>, b: seq<real>, q: real)
    requires SortedValues(a) == SortedValues(b) && |a| == |b| && 0.0 <= q <= 100.0
    ensures Percentile(a, q) == Percentile(b, q)
  {
    hide StableSort;
    SortedValuesAscend(a);
  }

  lemma {:induction false} PercentilePermutation(a: seq<real>, b: seq<real>, q: real)
    requires multiset(a) == multiset(b) && 0.0 <= q <= 100.0
    ensures Percentile(a, q) == Percentile(b, q)
  {
    hide Percentile;
    SortPermutes(a, Numeric());
    SortPermutes(b, Numeric());
    SortSorts(a, Numeric());
    SortSorts(b, Numeric());
    SortedUnique(SortedValues(a), SortedValues(b));
    assert |a| == |multiset(a)| == |b|;
    PercentileOfSorted(a, b, q);
  }

  // ---------- labels ----------

  datatype Kind = Doubling | TopQuartile | LogFinal

  /** bucket seconds per age cohort; zero or less means one cohort. */
  function CohortKey(bucket: int, c: Cluster): int {
    if bucket <= 0 then 0 else c.age / bucket
  }

  /** The outcomes of one cohort of a partition, in input order. */
  function CohortOutcomes(clusters: seq<Cluster>, bucket: int, key: int): seq<real> {
    if clusters == [] then []
    else
      var last := clusters[|clusters| - 1];
      CohortOutcomes(clusters[..|clusters| - 1], bucket, key)
      + (if CohortKey(bucket, last) == key then [last.outcome] else [])
  }

  function Threshold(kind: Kind, outcomes: seq<real>): real {
    if kind == Doubling then Percentile(outcomes, 50.0) else Percentile(outcomes, 75.0)
  }

  function Label(kind: Kind, log1p: real -> real, outcome: real, reference: real): real {
    match kind
    case Doubling => if outcome > reference then 1.0 else 0.0
    case TopQuartile => if outcome >= reference && reference > 0.0 then 1.0 else 0.0
    case LogFinal => log1p(outcome)
  }

  /** A cluster's label from its own partition's cohort. */
  function LabelIn(clusters: seq<Cluster>, kind: Kind, bucket: int, log1p: real -> real, c: Cluster): real {
    Label(kind, log1p, c.outcome, Threshold(kind, CohortOutcomes(clusters, bucket, CohortKey(bucket, c))))
  }

  /** Two clusters are compared when no buckets are set or their ages fall into the same one. */
  lemma SameCohortExactly(bucket: int, c: Cluster, d: Cluster)
    ensures CohortKey(bucket, c) == CohortKey(bucket, d) <==> bucket <= 0 || c.age / bucket == d.age / bucket
  {
  }

  /** What a label says: DOUBLING is 1 strictly above the cohort's median and 0 otherwise; TOP_QUARTILE is 1 at
      or above its 75th percentile if that is positive and 0 otherwise; LOG_FINAL is log1p of the outcome. */
  lemma LabelExactly(clusters: seq<Cluster>, bucket: int, log1p: real -> real, c: Cluster)
    ensures var outcomes := CohortOutcomes(clusters, bucket, CohortKey(bucket, c));
      && LabelIn(clusters, Doubling, bucket, log1p, c) ==
         (if c.outcome > Percentile(outcomes, 50.0) then 1.0 else 0.0)
      && LabelIn(clusters, TopQuartile, bucket, log1p, c) ==
         (if Percentile(outcomes, 75.0) > 0.0 && c.outcome >= Percentile(outcomes, 75.0) then 1.0 else 0.0)
      && LabelIn(clusters, LogFinal, bucket, log1p, c) == log1p(c.outcome)
  {
    hide Percentile, CohortOutcomes, CohortKey;
  }

  method LabelPartition(clusters: seq<Cluster>, kind: Kind, bucket: int, log1p: real -> real)
    returns (labels: seq<real>)
    ensures |labels| == |clusters|
    ensures forall i :: 0 <= i < |clusters| ==> labels[i] == LabelIn(clusters, kind, bucket, log1p, clusters[i])
  {
    hide Percentile;
    labels := [];
    if kind == LogFinal {
      for i := 0 to |clusters|
        invariant |labels| == i
        invariant forall k :: 0 <= k < i ==> labels[k] == LabelIn(clusters, kind, bucket, log1p, clusters[k])
      {
        labels := labels + [log1p(clusters[i].outcome)];
      }
      return;
    }
    var cohorts := GroupOutcomes(clusters, bucket);
    var thresholds := map key | key in cohorts :: Threshold(kind, cohorts[key]);
    for i := 0 to |clusters|
      invariant |labels| == i
      invariant forall k :: 0 <= k < i ==> labels[k] == LabelIn(clusters, kind, bucket, log1p, clusters[k])
    {
      var reference := thresholds[CohortKey(bucket, clusters[i])];
      if kind == Doubling {
        labels := labels + [if clusters[i].outcome > reference then 1.0 else 0.0];
      } else {
        labels := labels + [if clusters[i].outcome >= reference && reference > 0.0 then 1.0 else 0.0];
      }
    }
  }

  /** cohorts.setdefault(key, []).append(outcome) over the partition. */
  method GroupOutcomes(clusters: seq<Cluster>, bucket: int) returns (cohorts: map<int, seq<real>>)
    ensures forall i :: 0 <= i < |clusters| ==> CohortKey(bucket, clusters[i]) in cohorts
    ensures forall key :: key in cohorts ==> cohorts[key] == CohortOutcomes(clusters, bucket, key)
  {
    hide CohortOutcomes, CohortKey;
    cohorts := map[];
    NoOutcomes(bucket);
    for i := 0 to |clusters|
      invariant forall k :: 0 <= k < i ==> CohortKey(bucket, clusters[k]) in cohorts
      invariant forall key :: key in cohorts ==> cohorts[key] == CohortOutcomes(clusters[..i], bucket, key)
      invariant forall key :: key !in cohorts ==> CohortOutcomes(clusters[..i], bucket, key) == []
    {
      var key := CohortKey(bucket, clusters[i]);
      forall k { OutcomesStep(clusters, bucket, k, i); }
      var before := if key in cohorts then cohorts[key] else [];
      cohorts := cohorts[key := before + [clusters[i].outcome]];
    }
    assert clusters[..|clusters|] == clusters;
  }

  lemma NoOutcomes(bucket: int)
    ensures forall key :: CohortOutcomes([], bucket, key) == []
  {
  }

  lemma OutcomesStep(clusters: seq<Cluster>, bucket: int, key: int, i: nat)
    requires i < |clusters|
    ensures CohortOutcomes(clusters[..i + 1], bucket, key) ==
      CohortOutcomes(clusters[..i], bucket, key)
      + (if CohortKey(bucket, clusters[i]) == key then [clusters[i].outcome] else [])
  {
    assert clusters[..i + 1][..i] == clusters[..i] && clusters[..i + 1][i] == clusters[i];
  }

  /** How many clusters of a cohort are labelled 1. */
  function Positives(clusters: seq<Cluster>, kind: Kind, bucket: int, key: int): nat {
    var outcomes := CohortOutcomes(clusters, bucket, key);
    var reference := Threshold(kind, outcomes);
    Count(outcomes, x => Label(kind, y => y, x, reference) == 1.0)
  }

  lemma {:induction false} CountSame(s: seq<real>, p: real -> bool, q: real -> bool)
    requires forall x :: p(x) <==> q(x)
    ensures Count(s, p) == Count(s, q)
  {
    if s != [] { CountSame(s[1..], p, q); }
  }

  /** Doubling labels at most half of each cohort positive. */
  lemma DoublingIsAtMostHalf(clusters: seq<Cluster>, bucket: int, key: int)
    ensures Positives(clusters, Doubling, bucket, key) <= |CohortOutcomes(clusters, bucket, key)| / 2
  {
    hide Percentile;
    var outcomes := CohortOutcomes(clusters, bucket, key);
    if outcomes != [] {
      var reference := Percentile(outcomes, 50.0);
      MedianBound(outcomes);
      CountSame(outcomes, x => Label(Doubling, y => y, x, reference) == 1.0, Above(reference));
    }
  }

  /** Top-quartile labels at least a quarter of each cohort positive, or none if its reference is not. */
  lemma TopQuartileIsAtLeastQuarter(clusters: seq<Cluster>, bucket: int, key: int)
    ensures var outcomes := CohortOutcomes(clusters, bucket, key);
      var positives := Positives(clusters, TopQuartile, bucket, key);
      if Percentile(outcomes, 75.0) > 0.0 then positives >= (|outcomes| + 3) / 4 else positives == 0
  {
    hide Percentile;
    var outcomes := CohortOutcomes(clusters, bucket, key);
    var reference := Percentile(outcomes, 75.0);
    var labelled := x => Label(TopQuartile, y => y, x, reference) == 1.0;
    if outcomes != [] {
      if reference > 0.0 {
        QuartileBound(outcomes);
        CountSame(outcomes, labelled, Reaching(reference));
      } else {
        CountAtMost(outcomes, labelled, |outcomes|);
      }
    }
  }

  /** The clusters of one cohort whose outcome passes the test, by position. */
  ghost function InCohort(clusters: seq<Cluster>, bucket: int, key: int, p: real -> bool): set<nat> {
    set i: nat | i < |clusters| && CohortKey(bucket, clusters[i]) == key && p(clusters[i].outcome)
  }

  lemma NextInCohort(clusters: seq<Cluster>, bucket: int, key: int, p: real -> bool)
    requires clusters != []
    ensures var k := |clusters| - 1;
      |InCohort(clusters, bucket, key, p)| == |InCohort(clusters[..k], bucket, key, p)|
        + (if CohortKey(bucket, clusters[k]) == key && p(clusters[k].outcome) then 1 else 0)
  {
    hide CohortKey;
    var k := |clusters| - 1;
    var newest: set<nat> := if CohortKey(bucket, clusters[k]) == key && p(clusters[k].outcome) then {k} else {};
    assert InCohort(clusters, bucket, key, p) == InCohort(clusters[..k], bucket, key, p) + newest;
  }

  /** A cohort's outcomes are its clusters', each as often as there are clusters with it. */
  lemma {:induction false} CohortExactly(clusters: seq<Cluster>, bucket: int, key: int, p: real -> bool)
    ensures Count(CohortOutcomes(clusters, bucket, key), p) == |InCohort(clusters, bucket, key, p)|
  {
    hide CohortKey, Count;
    if clusters == [] {
      assert InCohort(clusters, bucket, key, p) == {};
      CountNothing(p);
    } else {
      var k := |clusters| - 1;
      CohortExactly(clusters[..k], bucket, key, p);
      NextInCohort(clusters, bucket, key, p);
      var front := CohortOutcomes(clusters[..k], bucket, key);
      CountSnoc(front, clusters[k].outcome, p);
      assert front + [] == front;
    }
  }

  lemma CountNothing(p: real -> bool)
    ensures Count([], p) == 0
  {
  }

  /** The clusters of a cohort that are labelled 1, by position. */
  ghost function Marked(clusters: seq<Cluster>, kind: Kind, bucket: int, key: int): set<nat> {
    set i: nat | i < |clusters| && CohortKey(bucket, clusters[i]) == key
      && LabelIn(clusters, kind, bucket, x => x, clusters[i]) == 1.0
  }

  lemma MarkedCount(clusters: seq<Cluster>, kind: Kind, bucket: int, key: int)
    requires kind != LogFinal
    ensures |Marked(clusters, kind, bucket, key)| == Positives(clusters, kind, bucket, key)
    ensures |InCohort(clusters, bucket, key, x => true)| == |CohortOutcomes(clusters, bucket, key)|
  {
    var outcomes := CohortOutcomes(clusters, bucket, key);
    var reference := Threshold(kind, outcomes);
    var p := x => Label(kind, y => y, x, reference) == 1.0;
    CohortExactly(clusters, bucket, key, p);
    CohortExactly(clusters, bucket, key, x => true);
    hide CohortOutcomes, CohortKey, Threshold, Count;
    CountEverything(outcomes, x => true);
    assert Marked(clusters, kind, bucket, key) == InCohort(clusters, bucket, key, p);
  }

  /** DOUBLING marks at most half of the clusters of each cohort. */
  lemma DoublingMarksAtMostHalf(clusters: seq<Cluster>, bucket: int, key: int)
    ensures |Marked(clusters, Doubling, bucket, key)| <= |InCohort(clusters, bucket, key, x => true)| / 2
  {
    MarkedCount(clusters, Doubling, bucket, key);
    DoublingIsAtMostHalf(clusters, bucket, key);
  }

  /** TOP_QUARTILE marks at least a quarter of them, rounded up, or none if its reference is not positive. */
  lemma TopQuartileMarksAtLeastQuarter(clusters: seq<Cluster>, bucket: int, key: int)
    ensures var n := |InCohort(clusters, bucket, key, x => true)|;
      var marked := |Marked(clusters, TopQuartile, bucket, key)|;
      if Percentile(CohortOutcomes(clusters, bucket, key), 75.0) > 0.0 then marked >= (n + 3) / 4 else marked == 0
  {
    hide Percentile;
    MarkedCount(clusters, TopQuartile, bucket, key);
    TopQuartileIsAtLeastQuarter(clusters, bucket, key);
  }

  lemma {:induction false} CountAll(s: seq<real>, p: real -> bool)
    requires Count(s, p) < |s|
    ensures exists i :: 0 <= i < |s| && !p(s[i])
  {
    if p(s[0]) {
      CountAll(s[1..], p);
      var i :| 0 <= i < |s| - 1 && !p(s[1..][i]);
      assert !p(s[i + 1]);
    }
  }

  /** A cohort's outcomes come from its clusters, and only from them. */
  lemma {:induction false} OutcomesFromCohort(clusters: seq<Cluster>, bucket: int, key: int, x: real)
    ensures x in CohortOutcomes(clusters, bucket, key) <==>
      exists c :: c in clusters && CohortKey(bucket, c) == key && c.outcome == x
  {
    if clusters != [] {
      var front, last := clusters[..|clusters| - 1], clusters[|clusters| - 1];
      OutcomesFromCohort(front, bucket, key, x);
      assert clusters == front + [last];
      if x in CohortOutcomes(front, bucket, key) {
        var c :| c in front && CohortKey(bucket, c) == key && c.outcome == x;
        assert c in clusters;
      }
    }
  }

  /** Every non-empty cohort has a cluster that Doubling labels 0, so no partition is all positive. */
  lemma DoublingLeavesANegative(clusters: seq<Cluster>, bucket: int, log1p: real -> real, c: Cluster)
    returns (negative: Cluster)
    requires c in clusters
    ensures negative in clusters && CohortKey(bucket, negative) == CohortKey(bucket, c)
    ensures LabelIn(clusters, Doubling, bucket, log1p, negative) == 0.0
  {
    hide Percentile, CohortKey, CohortOutcomes;
    var key := CohortKey(bucket, c);
    var outcomes := CohortOutcomes(clusters, bucket, key);
    OutcomesFromCohort(clusters, bucket, key, c.outcome);
    MedianBound(outcomes);
    var reference := Percentile(outcomes, 50.0);
    CountAll(outcomes, Above(reference));
    var i :| 0 <= i < |outcomes| && !Above(reference)(outcomes[i]);
    OutcomesFromCohort(clusters, bucket, key, outcomes[i]);
    negative :| negative in clusters && CohortKey(bucket, negative) == key && negative.outcome == outcomes[i];
  }

  /** A label sees nothing of its partition but the multiset of its own cohort's outcomes. */
  lemma {:induction false} LabelSeesOnlyCohort(p: seq<Cluster>, p': seq<Cluster>, kind: Kind, bucket: int, log1p: real -> real, c: Cluster)
    requires multiset(CohortOutcomes(p, bucket, CohortKey(bucket, c))) ==
      multiset(CohortOutcomes(p', bucket, CohortKey(bucket, c)))
    ensures LabelIn(p, kind, bucket, log1p, c) == LabelIn(p', kind, bucket, log1p, c)
  {
    hide Percentile, CohortOutcomes, CohortKey;
    var key := CohortKey(bucket, c);
    PercentilePermutation(CohortOutcomes(p, bucket, key), CohortOutcomes(p', bucket, key), 50.0);
    PercentilePermutation(CohortOutcomes(p, bucket, key), CohortOutcomes(p', bucket, key), 75.0);
  }

  /** Each partition is labelled from itself alone. */
  method LabelPartitions(s: Split, kind: Kind, bucket: int, log1p: real -> real)
    returns (train: seq<real>, val: seq<real>, test: seq<real>)
    ensures |train| == |s.train| && |val| == |s.val| && |test| == |s.test|
    ensures forall i :: 0 <= i < |train| ==> train[i] == LabelIn(s.train, kind, bucket, log1p, s.train[i])
    ensures forall i :: 0 <= i < |val| ==> val[i] == LabelIn(s.val, kind, bucket, log1p, s.val[i])
    ensures forall i :: 0 <= i < |test| ==> test[i] == LabelIn(s.test, kind, bucket, log1p, s.test[i])
  {
    train := LabelPartition(s.train, kind, bucket, log1p);
    val := LabelPartition(s.val, kind, bucket, log1p);
    test := LabelPartition(s.test, kind, bucket, log1p);
  }
}
