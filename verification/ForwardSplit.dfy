/** The chronological train/val/test split with its boundary gap. */
module ForwardSplit {
  import opened RealArithmetic
  import opened Sorting

  datatype Cluster = Cluster(id: int, t0: real, outcome: real, age: int)

  datatype Ratios = Ratios(train: real, val: real, test: real, gap: int) {
    /** What construction enforces. */
    predicate Valid() {
      && 0.0 <= train <= 1.0 && 0.0 <= val <= 1.0 && 0.0 <= test <= 1.0
      && -0.000000001 <= train + val + test - 1.0 <= 0.000000001
      && gap >= 0
    }
  }

  datatype Split = Split(train: seq<Cluster>, val: seq<Cluster>, test: seq<Cluster>, dropped: seq<Cluster>)

  /** The birth time of the next partition's first cluster, if it has one. */
  datatype Bound = Birth(t: real) | Infinity

  function ByBirth(): (Cluster, Cluster) -> bool {
    (a: Cluster, b: Cluster) => a.t0 < b.t0 || (a.t0 == b.t0 && a.id <= b.id)
  }

  function Ordered(clusters: seq<Cluster>): seq<Cluster> { StableSort(clusters, ByBirth()) }

  function BoundAt(ordered: seq<Cluster>, k: nat): Bound {
    if k < |ordered| then Birth(ordered[k].t0) else Infinity
  }

  predicate InBand(t0: real, bound: Bound, gap: int) {
    gap > 0 && bound.Birth? && bound.t - gap as real <= t0 <= bound.t + gap as real
  }

  /** The cut: sizes of train and val by index, and the two boundary times. */
  datatype Cut = Cut(nTrain: nat, nVal: nat, trainEnd: Bound, valEnd: Bound, gap: int)

  /** k is the integer part of n * fraction. */
  ghost predicate IsShare(k: nat, n: nat, fraction: real) {
    k as real <= n as real * fraction < k as real + 1.0
  }

  /** int(n * fraction) */
  function Share(n: nat, fraction: real): (k: nat)
    requires 0.0 <= fraction <= 1.0
    ensures k <= n && IsShare(k, n, fraction)
  {
    var m := n as real;
    NonNegativeProduct(m, fraction);
    NonNegativeProduct(m, 1.0 - fraction);
    assert m - m * fraction == m * (1.0 - fraction);
    (m * fraction).Floor
  }

  function CutOf(ordered: seq<Cluster>, r: Ratios): Cut
    requires r.Valid()
  {
    var nTrain, nVal := Share(|ordered|, r.train), Share(|ordered|, r.val);
    Cut(nTrain, nVal, BoundAt(ordered, nTrain), BoundAt(ordered, nTrain + nVal), r.gap)
  }

  predicate Dropped(cut: Cut, index: nat, t0: real) {
    if index < cut.nTrain then InBand(t0, cut.trainEnd, cut.gap)
    else if index < cut.nTrain + cut.nVal then InBand(t0, cut.trainEnd, cut.gap) || InBand(t0, cut.valEnd, cut.gap)
    else InBand(t0, cut.valEnd, cut.gap)
  }

  function PutAt(s: Split, cut: Cut, index: nat, c: Cluster): Split {
    if Dropped(cut, index, c.t0) then s.(dropped := s.dropped + [c])
    else if index < cut.nTrain then s.(train := s.train + [c])
    else if index < cut.nTrain + cut.nVal then s.(val := s.val + [c])
    else s.(test := s.test + [c])
  }

  function SplitUpto(ordered: seq<Cluster>, cut: Cut, n: nat): Split
    requires n <= |ordered|
  {
    if n == 0 then Split([], [], [], []) else PutAt(SplitUpto(ordered, cut, n - 1), cut, n - 1, ordered[n - 1])
  }

  function SplitOf(clusters: seq<Cluster>, r: Ratios): Split
    requires r.Valid()
  {
    var ordered := Ordered(clusters);
    SplitUpto(ordered, CutOf(ordered, r), |ordered|)
  }

  method SplitByTime(clusters: seq<Cluster>, r: Ratios) returns (s: Split)
    requires r.Valid()
    ensures s == SplitOf(clusters, r)
  {
    var ordered := Ordered(clusters);
    var cut := CutOf(ordered, r);
    var train, val, test, dropped := [], [], [], [];
    for index := 0 to |ordered|
      invariant Split(train, val, test, dropped) == SplitUpto(ordered, cut, index)
    {
      var c := ordered[index];
      if index < cut.nTrain {
        if InBand(c.t0, cut.trainEnd, cut.gap) { dropped := dropped + [c]; } else { train := train + [c]; }
      } else if index < cut.nTrain + cut.nVal {
        if InBand(c.t0, cut.trainEnd, cut.gap) || InBand(c.t0, cut.valEnd, cut.gap) {
          dropped := dropped + [c];
        } else {
          val := val + [c];
        }
      } else {
        if InBand(c.t0, cut.valEnd, cut.gap) { dropped := dropped + [c]; } else { test := test + [c]; }
      }
    }
    s := Split(train, val, test, dropped);
  }

  // ---------- conservation and order ----------

  ghost function Everything(s: Split): multiset<Cluster> {
    multiset(s.train) + multiset(s.val) + multiset(s.test) + multiset(s.dropped)
  }

  lemma PutConserves(s: Split, cut: Cut, index: nat, c: Cluster)
    ensures Everything(PutAt(s, cut, index, c)) == Everything(s) + multiset{c}
  {
    hide Dropped;
  }

  lemma NothingYet()
    ensures Everything(Split([], [], [], [])) == multiset{}
  {
  }

  lemma {:induction false} UptoConserves(ordered: seq<Cluster>, cut: Cut, n: nat)
    requires n <= |ordered|
    ensures Everything(SplitUpto(ordered, cut, n)) == multiset(ordered[..n])
  {
    hide Everything, PutAt;
    if n == 0 {
      NothingYet();
    } else {
      UptoConserves(ordered, cut, n - 1);
      PutConserves(SplitUpto(ordered, cut, n - 1), cut, n - 1, ordered[n - 1]);
      assert ordered[..n] == ordered[..n - 1] + [ordered[n - 1]];
    }
  }

  /** No cluster is lost, invented or duplicated. */
  lemma SplitConserves(clusters: seq<Cluster>, r: Ratios)
    requires r.Valid()
    ensures Everything(SplitOf(clusters, r)) == multiset(clusters)
  {
    var ordered := Ordered(clusters);
    UptoConserves(ordered, CutOf(ordered, r), |ordered|);
    SortPermutes(clusters, ByBirth());
    assert ordered[..|ordered|] == ordered;
  }

  /** s holds, in order, some of the entries of ordered at positions in lo..hi. */
  ghost predicate Within(s: seq<Cluster>, ordered: seq<Cluster>, lo: int, hi: int) {
    && SortedBy(s, ByBirth())
    && forall c :: c in s ==> exists k :: lo <= k < hi && 0 <= k < |ordered| && ordered[k] == c
  }

  lemma WithinAppend(s: seq<Cluster>, ordered: seq<Cluster>, lo: int, hi: int)
    requires SortedBy(ordered, ByBirth()) && Within(s, ordered, lo, hi)
    requires 0 <= hi < |ordered| && lo <= hi
    ensures Within(s + [ordered[hi]], ordered, lo, hi + 1)
  {
    var c := ordered[hi];
    forall x | x in s ensures ByBirth()(x, c) {
      var k :| lo <= k < hi && 0 <= k < |ordered| && ordered[k] == x;
    }
    var s' := s + [c];
    forall i, j | 0 <= i < j < |s'| ensures ByBirth()(s'[i], s'[j]) {
      assert i < |s| && s[i] in s;
    }
  }

  lemma WithinWiden(s: seq<Cluster>, ordered: seq<Cluster>, lo: int, hi: int, hi': int)
    requires Within(s, ordered, lo, hi) && hi <= hi'
    ensures Within(s, ordered, lo, hi')
  {
  }

  lemma {:induction false} UptoPlaces(ordered: seq<Cluster>, cut: Cut, n: nat)
    requires n <= |ordered| && SortedBy(ordered, ByBirth())
    ensures var s := SplitUpto(ordered, cut, n); var m := cut.nTrain + cut.nVal;
      && Within(s.train, ordered, 0, if n < cut.nTrain then n else cut.nTrain)
      && Within(s.val, ordered, cut.nTrain, if n < cut.nTrain then cut.nTrain else if n < m then n else m)
      && Within(s.test, ordered, m, if n < m then m else n)
      && Within(s.dropped, ordered, 0, n)
  {
    hide Within;
    if n == 0 {
      WithinNothing(ordered, 0, 0);
      WithinNothing(ordered, cut.nTrain, cut.nTrain);
      WithinNothing(ordered, cut.nTrain + cut.nVal, cut.nTrain + cut.nVal);
    } else {
      UptoPlaces(ordered, cut, n - 1);
      var s := SplitUpto(ordered, cut, n - 1);
      var i := n - 1;
      WithinWiden(s.dropped, ordered, 0, i, n);
      if Dropped(cut, i, ordered[i].t0) {
        WithinAppend(s.dropped, ordered, 0, i);
      }
      if i < cut.nTrain {
        WithinWiden(s.train, ordered, 0, i, n);
        if !Dropped(cut, i, ordered[i].t0) { WithinAppend(s.train, ordered, 0, i); }
      } else if i < cut.nTrain + cut.nVal {
        WithinWiden(s.val, ordered, cut.nTrain, i, n);
        if !Dropped(cut, i, ordered[i].t0) { WithinAppend(s.val, ordered, cut.nTrain, i); }
      } else {
        WithinWiden(s.test, ordered, cut.nTrain + cut.nVal, i, n);
        if !Dropped(cut, i, ordered[i].t0) { WithinAppend(s.test, ordered, cut.nTrain + cut.nVal, i); }
      }
    }
  }

  lemma WithinNothing(ordered: seq<Cluster>, lo: int, hi: int)
    ensures Within([], ordered, lo, hi)
  {
  }

  lemma OrderedSorted(clusters: seq<Cluster>)
    ensures SortedBy(Ordered(clusters), ByBirth())
    ensures |Ordered(clusters)| == |clusters|
  {
    SortSorts(clusters, ByBirth());
    SortPermutes(clusters, ByBirth());
  }

  /** (t0, id) order */
  ghost predicate InBirthOrder(s: seq<Cluster>) {
    forall i, j :: 0 <= i < j < |s| ==> s[i].t0 < s[j].t0 || (s[i].t0 == s[j].t0 && s[i].id <= s[j].id)
  }

  lemma SortedInOrder(s: seq<Cluster>)
    requires SortedBy(s, ByBirth())
    ensures InBirthOrder(s)
  {
    forall i, j | 0 <= i < j < |s| ensures s[i].t0 < s[j].t0 || (s[i].t0 == s[j].t0 && s[i].id <= s[j].id) {
      assert ByBirth()(s[i], s[j]);
    }
  }

  /** Every part comes out in (t0, id) order. */
  lemma SplitSorted(clusters: seq<Cluster>, r: Ratios)
    requires r.Valid()
    ensures var s := SplitOf(clusters, r);
      InBirthOrder(s.train) && InBirthOrder(s.val) && InBirthOrder(s.test) && InBirthOrder(s.dropped)
  {
    OrderedSorted(clusters);
    var ordered, s := Ordered(clusters), SplitOf(clusters, r);
    hide Ordered, SplitUpto, SortedBy, InBirthOrder;
    UptoPlaces(ordered, CutOf(ordered, r), |ordered|);
    SortedInOrder(s.train);
    SortedInOrder(s.val);
    SortedInOrder(s.test);
    SortedInOrder(s.dropped);
  }

  // ---------- the gap ----------

  lemma {:induction false} UptoKept(ordered: seq<Cluster>, cut: Cut, n: nat, c: Cluster)
    requires n <= |ordered|
    ensures var s := SplitUpto(ordered, cut, n);
      && (c in s.train ==> !InBand(c.t0, cut.trainEnd, cut.gap))
      && (c in s.val ==> !InBand(c.t0, cut.trainEnd, cut.gap) && !InBand(c.t0, cut.valEnd, cut.gap))
      && (c in s.test ==> !InBand(c.t0, cut.valEnd, cut.gap))
  {
    if n > 0 { UptoKept(ordered, cut, n - 1, c); }
  }

  /** Only a cluster born within the gap of a boundary is ever dropped. */
  lemma {:induction false} DroppedInBand(ordered: seq<Cluster>, cut: Cut, n: nat, c: Cluster)
    requires n <= |ordered| && c in SplitUpto(ordered, cut, n).dropped
    ensures InBand(c.t0, cut.trainEnd, cut.gap) || InBand(c.t0, cut.valEnd, cut.gap)
  {
    if c in SplitUpto(ordered, cut, n - 1).dropped { DroppedInBand(ordered, cut, n - 1, c); }
  }

  /** Sorted positions on either side of a boundary lie on either side of its time. */
  lemma SideOf(s: seq<Cluster>, ordered: seq<Cluster>, lo: int, hi: int, k: nat, c: Cluster)
    requires SortedBy(ordered, ByBirth()) && Within(s, ordered, lo, hi) && c in s
    ensures hi <= k ==> BoundAt(ordered, k).Infinity? || c.t0 <= BoundAt(ordered, k).t
    ensures k <= lo ==> BoundAt(ordered, k).Birth? && BoundAt(ordered, k).t <= c.t0
  {
    var j :| lo <= j < hi && 0 <= j < |ordered| && ordered[j] == c;
    if hi <= k < |ordered| { assert ByBirth()(ordered[j], ordered[k]); }
    if k <= lo && k < j { assert ByBirth()(ordered[k], ordered[j]); }
  }

  /** With a positive gap every survivor is born more than two gaps before every survivor of a later
      partition, whichever partitions are empty. */
  lemma GapSeparates(clusters: seq<Cluster>, r: Ratios, a: Cluster, b: Cluster)
    requires r.Valid() && r.gap > 0
    requires var s := SplitOf(clusters, r);
      (a in s.train && (b in s.val || b in s.test)) || (a in s.val && b in s.test)
    ensures a.t0 + 2.0 * r.gap as real < b.t0
  {
    OrderedSorted(clusters);
    var ordered := Ordered(clusters);
    var cut := CutOf(ordered, r);
    var s := SplitOf(clusters, r);
    var n, m := |ordered|, cut.nTrain + cut.nVal;
    UptoPlaces(ordered, cut, n);
    UptoKept(ordered, cut, n, a);
    UptoKept(ordered, cut, n, b);
    hide Ordered, SplitUpto, SortedBy, Within, StableSort;
    var trainHi := if n < cut.nTrain then n else cut.nTrain;
    var valHi := if n < cut.nTrain then cut.nTrain else if n < m then n else m;
    if a in s.train { SideOf(s.train, ordered, 0, trainHi, cut.nTrain, a); }
    if a in s.val { SideOf(s.val, ordered, cut.nTrain, valHi, m, a); }
    if b in s.val { SideOf(s.val, ordered, cut.nTrain, valHi, cut.nTrain, b); }
    if b in s.test {
      SideOf(s.test, ordered, m, if n < m then m else n, m, b);
      SideOf(s.test, ordered, m, if n < m then m else n, cut.nTrain, b);
      BoundsOrdered(ordered, cut.nTrain, m);
    }
  }

  lemma BoundsOrdered(ordered: seq<Cluster>, k: nat, m: nat)
    requires SortedBy(ordered, ByBirth()) && k <= m && m < |ordered|
    ensures BoundAt(ordered, k).Birth? && BoundAt(ordered, m).Birth?
    ensures BoundAt(ordered, k).t <= BoundAt(ordered, m).t
  {
    if k < m { assert ByBirth()(ordered[k], ordered[m]); }
  }

  // ---------- where every cluster goes ----------

  /** Born within the gap of the cluster at position k, which begins a later part. */
  predicate Near(c: Cluster, ordered: seq<Cluster>, k: nat, gap: int) {
    gap > 0 && k < |ordered| && ordered[k].t0 - gap as real <= c.t0 <= ordered[k].t0 + gap as real
  }

  /** The entries with b = drop(c), in order. */
  function Picked(s: seq<Cluster>, drop: Cluster -> bool, b: bool): seq<Cluster> {
    if s == [] then []
    else
      var last := s[|s| - 1];
      Picked(s[..|s| - 1], drop, b) + (if drop(last) == b then [last] else [])
  }

  lemma PickedNext(s: seq<Cluster>, lo: nat, hi: nat, drop: Cluster -> bool, b: bool)
    requires lo <= hi < |s|
    ensures Picked(s[lo..hi + 1], drop, b) ==
      Picked(s[lo..hi], drop, b) + (if drop(s[hi]) == b then [s[hi]] else [])
  {
    assert s[lo..hi + 1][..hi - lo] == s[lo..hi];
  }

  function Min(a: nat, b: nat): nat { if a < b then a else b }

  function NearOne(ordered: seq<Cluster>, k: nat, gap: int): Cluster -> bool {
    (c: Cluster) => Near(c, ordered, k, gap)
  }

  function NearEither(ordered: seq<Cluster>, j: nat, k: nat, gap: int): Cluster -> bool {
    (c: Cluster) => Near(c, ordered, j, gap) || Near(c, ordered, k, gap)
  }

  /** The first n of the sorted clusters, parted at positions j and k. */
  ghost predicate Parted(s: Split, ordered: seq<Cluster>, j: nat, k: nat, gap: int, n: nat)
    requires j <= k && n <= |ordered|
  {
    var first, middle, last := ordered[..Min(j, n)], ordered[Min(j, n)..Min(k, n)], ordered[Min(k, n)..n];
    && s.train == Picked(first, NearOne(ordered, j, gap), false)
    && s.val == Picked(middle, NearEither(ordered, j, k, gap), false)
    && s.test == Picked(last, NearOne(ordered, k, gap), false)
    && s.dropped == Picked(first, NearOne(ordered, j, gap), true)
                    + Picked(middle, NearEither(ordered, j, k, gap), true)
                    + Picked(last, NearOne(ordered, k, gap), true)
  }

  lemma {:induction false} UptoParted(ordered: seq<Cluster>, cut: Cut, n: nat)
    requires n <= |ordered|
    requires cut.trainEnd == BoundAt(ordered, cut.nTrain) && cut.valEnd == BoundAt(ordered, cut.nTrain + cut.nVal)
    ensures Parted(SplitUpto(ordered, cut, n), ordered, cut.nTrain, cut.nTrain + cut.nVal, cut.gap, n)
  {
    hide Picked, Near;
    var j, k := cut.nTrain, cut.nTrain + cut.nVal;
    if n == 0 {
      NothingPicked(ordered, j, k, cut.gap);
    } else {
      var i := n - 1;
      UptoParted(ordered, cut, i);
      BandIsNear(ordered, cut, ordered[i]);
      NextParted(SplitUpto(ordered, cut, i), ordered, cut, i);
    }
  }

  lemma NothingPicked(ordered: seq<Cluster>, j: nat, k: nat, gap: int)
    requires j <= k
    ensures Parted(Split([], [], [], []), ordered, j, k, gap, 0)
  {
  }

  lemma BandIsNear(ordered: seq<Cluster>, cut: Cut, c: Cluster)
    ensures InBand(c.t0, BoundAt(ordered, cut.nTrain), cut.gap) <==> Near(c, ordered, cut.nTrain, cut.gap)
    ensures InBand(c.t0, BoundAt(ordered, cut.nTrain + cut.nVal), cut.gap) <==>
      Near(c, ordered, cut.nTrain + cut.nVal, cut.gap)
  {
  }

  lemma NextParted(s: Split, ordered: seq<Cluster>, cut: Cut, i: nat)
    requires i < |ordered|
    requires cut.trainEnd == BoundAt(ordered, cut.nTrain) && cut.valEnd == BoundAt(ordered, cut.nTrain + cut.nVal)
    requires Parted(s, ordered, cut.nTrain, cut.nTrain + cut.nVal, cut.gap, i)
    ensures Parted(PutAt(s, cut, i, ordered[i]), ordered, cut.nTrain, cut.nTrain + cut.nVal, cut.gap, i + 1)
  {
    hide Picked, InBand, Near, BoundAt;
    var j, k := cut.nTrain, cut.nTrain + cut.nVal;
    BandIsNear(ordered, cut, ordered[i]);
    EmptyPick();
    if i < j {
      var near := NearOne(ordered, j, cut.gap);
      PickedNext(ordered, 0, i, near, false);
      PickedNext(ordered, 0, i, near, true);
      assert ordered[i..i] == [] && ordered[i + 1..i + 1] == [];
    } else if i < k {
      var near := NearEither(ordered, j, k, cut.gap);
      PickedNext(ordered, j, i, near, false);
      PickedNext(ordered, j, i, near, true);
      assert ordered[i..i] == [] && ordered[i + 1..i + 1] == [];
    } else {
      var near := NearOne(ordered, k, cut.gap);
      PickedNext(ordered, k, i, near, false);
      PickedNext(ordered, k, i, near, true);
    }
  }

  lemma EmptyPick()
    ensures forall drop: Cluster -> bool, b :: Picked([], drop, b) == []
  {
  }

  /** Where every cluster goes: of the clusters in (t0, id) order the first floor(n * train) are train or
      dropped, the next floor(n * val) val or dropped, the rest test or dropped, and the dropped ones are
      those born within the gap of the first cluster past their own end, or of the one that begins their part. */
  lemma {:induction false} SplitExactly(clusters: seq<Cluster>, r: Ratios) returns (ordered: seq<Cluster>, nTrain: nat, nVal: nat)
    requires r.Valid()
    ensures multiset(ordered) == multiset(clusters) && |ordered| == |clusters| && InBirthOrder(ordered)
    ensures ordered == Ordered(clusters)
    ensures nTrain <= |clusters| && IsShare(nTrain, |clusters|, r.train) && IsShare(nVal, |clusters|, r.val)
    ensures Parted(SplitOf(clusters, r), ordered, nTrain, nTrain + nVal, r.gap, |ordered|)
  {
    ordered := Ordered(clusters);
    OrderedSorted(clusters);
    SortPermutes(clusters, ByBirth());
    SortedInOrder(ordered);
    var cut := CutOf(ordered, r);
    CutShares(ordered, r);
    hide Ordered, CutOf, InBirthOrder, Parted, IsShare, Share;
    nTrain, nVal := cut.nTrain, cut.nVal;
    UptoParted(ordered, cut, |ordered|);
  }

  lemma CutShares(ordered: seq<Cluster>, r: Ratios)
    requires r.Valid()
    ensures var cut, n := CutOf(ordered, r), |ordered|;
      && cut.nTrain <= n && IsShare(cut.nTrain, n, r.train) && IsShare(cut.nVal, n, r.val)
      && cut.trainEnd == BoundAt(ordered, cut.nTrain) && cut.valEnd == BoundAt(ordered, cut.nTrain + cut.nVal)
      && cut.gap == r.gap
  {
    hide Share, IsShare;
  }

  lemma {:induction false} AllPicked(s: seq<Cluster>, drop: Cluster -> bool)
    requires forall c :: !drop(c)
    ensures Picked(s, drop, false) == s && Picked(s, drop, true) == []
  {
    if s != [] {
      AllPicked(s[..|s| - 1], drop);
      assert s == s[..|s| - 1] + [s[|s| - 1]];
    }
  }

  lemma PartedPlainly(s: Split, ordered: seq<Cluster>, j: nat, k: nat)
    requires j <= k && j <= |ordered| && Parted(s, ordered, j, k, 0, |ordered|)
    ensures s.dropped == []
    ensures s.train == ordered[..j] && s.val == ordered[j..Min(k, |ordered|)] && s.test == ordered[Min(k, |ordered|)..]
  {
    var n := |ordered|;
    AllPicked(ordered[..j], NearOne(ordered, j, 0));
    AllPicked(ordered[j..Min(k, n)], NearEither(ordered, j, k, 0));
    AllPicked(ordered[Min(k, n)..n], NearOne(ordered, k, 0));
    hide Picked;
    assert ordered[Min(k, n)..n] == ordered[Min(k, n)..];
  }

  lemma ThreeSlices(s: seq<Cluster>, j: nat, k: nat)
    requires j <= k <= |s|
    ensures s[..j] + s[j..k] + s[k..] == s
  {
  }

  /** A zero gap is the raw cut by index: nothing is dropped, train has floor(n * train) clusters, and val
      floor(n * val), or all that is left if that is less. */
  lemma ZeroGapCut(clusters: seq<Cluster>, r: Ratios)
    requires r.Valid() && r.gap == 0
    ensures var s, n := SplitOf(clusters, r), |clusters|;
      && s.dropped == []
      && s.train + s.val + s.test == Ordered(clusters)
      && multiset(s.train + s.val + s.test) == multiset(clusters) && InBirthOrder(s.train + s.val + s.test)
      && IsShare(|s.train|, n, r.train)
      && exists k :: IsShare(k, n, r.val) && (|s.val| == k || (|s.val| < k && s.test == []))
  {
    hide SplitOf, InBirthOrder, Parted, IsShare;
    var ordered, nTrain, nVal := SplitExactly(clusters, r);
    var s := SplitOf(clusters, r);
    PartedPlainly(s, ordered, nTrain, nTrain + nVal);
    ThreeSlices(ordered, nTrain, Min(nTrain + nVal, |ordered|));
    assert IsShare(nVal, |clusters|, r.val) && (|s.val| == nVal || (|s.val| < nVal && s.test == []));
  }
}
