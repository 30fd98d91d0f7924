/** The blocked passes over all cluster pairs: duplicate pairs, merge-window pairs, row maxima.
    `cosine(i, j)` stands for the dot product of the unit centroids i and j. */
module PairAudit {
  import opened Sorting
  import opened Wrappers

  type Cosine = (nat, nat) -> real

  type PairTest = (nat, nat) -> bool

  /** The unordered pairs i < j that pass the test. */
  ghost function PairsWhere(n: nat, q: PairTest): set<(nat, nat)> {
    set i: nat, j: nat | i < n && j < n && i < j && q(i, j) :: (i, j)
  }

  function AtLeast(cosine: Cosine, t: real): PairTest { (i: nat, j: nat) => cosine(i, j) >= t }

  function InWindow(cosine: Cosine, merge: real, tight: real): PairTest {
    (i: nat, j: nat) => merge <= cosine(i, j) < tight
  }

  function Row(cosine: Cosine, i: nat, n: nat): (row: seq<real>)
    ensures |row| == n && forall j: nat :: j < n ==> row[j] == cosine(i, j)
  {
    seq(n, j requires 0 <= j => cosine(i, j))
  }

  /** Rows start..stop of the similarity matrix, each against every column. */
  function Block(cosine: Cosine, start: nat, stop: nat, n: nat): (sims: seq<seq<real>>)
    requires start <= stop
    ensures |sims| == stop - start
    ensures forall r :: 0 <= r < |sims| ==> sims[r] == Row(cosine, start + r, n)
  {
    seq(stop - start, r requires 0 <= r => Row(cosine, start + r, n))
  }

  function CountAtLeast(s: seq<real>, t: real): nat {
    if s == [] then 0 else CountAtLeast(s[..|s| - 1], t) + (if s[|s| - 1] >= t then 1 else 0)
  }

  // ---------- pairs row by row ----------

  ghost function RowPairs(i: nat, hi: nat, q: PairTest): set<(nat, nat)> {
    set j: nat | i < j < hi && q(i, j) :: (i, j)
  }

  ghost function PairsBelowRow(n: nat, r: nat, q: PairTest): set<(nat, nat)> {
    set i: nat, j: nat | i < n && j < n && i < r && i < j && q(i, j) :: (i, j)
  }

  lemma RowPairsStep(i: nat, hi: nat, q: PairTest)
    requires i < hi
    ensures |RowPairs(i, hi + 1, q)| == |RowPairs(i, hi, q)| + (if q(i, hi) then 1 else 0)
    ensures forall x :: x in RowPairs(i, hi + 1, q) <==> x in RowPairs(i, hi, q) || (q(i, hi) && x == (i, hi))
  {
    var last: set<(nat, nat)> := if q(i, hi) then {(i, hi)} else {};
    assert RowPairs(i, hi + 1, q) == RowPairs(i, hi, q) + last;
  }

  lemma AddRow(n: nat, r: nat, q: PairTest)
    requires r < n
    ensures |PairsBelowRow(n, r + 1, q)| == |PairsBelowRow(n, r, q)| + |RowPairs(r, n, q)|
    ensures PairsBelowRow(n, r + 1, q) == PairsBelowRow(n, r, q) + RowPairs(r, n, q)
  {
    var before, row := PairsBelowRow(n, r, q), RowPairs(r, n, q);
    assert PairsBelowRow(n, r + 1, q) == before + row;
    assert before !! row;
  }

  lemma AllRows(n: nat, q: PairTest)
    ensures PairsBelowRow(n, n, q) == PairsWhere(n, q)
    ensures PairsBelowRow(n, 0, q) == {}
    ensures n < 2 ==> PairsWhere(n, q) == {}
  {
  }

  // ---------- duplicate pairs ----------

  lemma {:induction false} RowCount(cosine: Cosine, i: nat, hi: nat, t: real)
    requires i < hi
    ensures CountAtLeast(Row(cosine, i, hi)[i + 1..], t) == |RowPairs(i, hi, AtLeast(cosine, t))|
  {
    var q := AtLeast(cosine, t);
    if hi == i + 1 {
      assert RowPairs(i, hi, q) == {};
    } else {
      RowCount(cosine, i, hi - 1, t);
      var later := Row(cosine, i, hi)[i + 1..];
      assert later[..|later| - 1] == Row(cosine, i, hi - 1)[i + 1..];
      RowPairsStep(i, hi - 1, q);
    }
  }

  /** Counts each unordered pair at or above the threshold once, for any block size. */
  method CountDuplicatePairs(cosine: Cosine, n: nat, threshold: real, blockRows: nat) returns (total: nat)
    requires blockRows > 0
    ensures total == |PairsWhere(n, AtLeast(cosine, threshold))|
  {
    hide PairsBelowRow, PairsWhere, RowPairs, CountAtLeast;
    ghost var q := AtLeast(cosine, threshold);
    AllRows(n, q);
    if n < 2 { return 0; }
    total := 0;
    var start := 0;
    while start < n
      invariant start >= 0
      invariant total == |PairsBelowRow(n, if start < n then start else n, q)|
    {
      var stop := if start + blockRows < n then start + blockRows else n;
      var sims := Block(cosine, start, stop, n);
      for localRow := 0 to stop - start
        invariant total == |PairsBelowRow(n, start + localRow, q)|
      {
        var globalRow := start + localRow;
        AddRow(n, globalRow, q);
        RowCount(cosine, globalRow, n, threshold);
        var later := sims[localRow][globalRow + 1..];
        total := total + CountAtLeast(later, threshold);
      }
      start := start + blockRows;
    }
  }

  // ---------- the merge window ----------

  datatype PairLabel = PairLabel(topic: string, channels: set<string>)

  datatype WindowPair = WindowPair(a: nat, b: nat, cosine: real, overMerge: Option<bool>)

  datatype Audit = Audit(
    windowCount: nat, overMerges: Option<nat>, fraction: Option<real>, sample: seq<WindowPair>)

  type Labels = Option<seq<PairLabel>>

  predicate Related(a: PairLabel, b: PairLabel) { a.topic == b.topic || a.channels * b.channels != {} }

  predicate LabelsFit(labels: Labels, n: nat) { labels.Some? ==> |labels.value| == n }

  predicate Unrelated(labels: Labels, i: nat, j: nat) {
    && labels.Some? && i < |labels.value| && j < |labels.value|
    && !Related(labels.value[i], labels.value[j])
  }

  function UnrelatedIn(q: PairTest, labels: Labels): PairTest {
    (i: nat, j: nat) => q(i, j) && Unrelated(labels, i, j)
  }

  function Entry(cosine: Cosine, labels: Labels, i: nat, j: nat): WindowPair {
    WindowPair(i, j, cosine(i, j), if labels.None? then None else Some(Unrelated(labels, i, j)))
  }

  /** Row i's accepted pairs with columns i < j < hi, in column order. */
  function RowList(cosine: Cosine, labels: Labels, q: PairTest, i: nat, hi: nat): seq<WindowPair> {
    if hi <= i + 1 then []
    else RowList(cosine, labels, q, i, hi - 1)
         + (if q(i, hi - 1) then [Entry(cosine, labels, i, hi - 1)] else [])
  }

  function PairList(cosine: Cosine, labels: Labels, q: PairTest, n: nat, r: nat): seq<WindowPair> {
    if r == 0 then [] else PairList(cosine, labels, q, n, r - 1) + RowList(cosine, labels, q, r - 1, n)
  }

  lemma {:induction false} RowListPairs(cosine: Cosine, labels: Labels, q: PairTest, i: nat, hi: nat)
    requires i < hi
    ensures |RowList(cosine, labels, q, i, hi)| == |RowPairs(i, hi, q)|
    ensures forall x :: x in RowList(cosine, labels, q, i, hi) <==>
      (x.a, x.b) in RowPairs(i, hi, q) && x == Entry(cosine, labels, x.a, x.b)
  {
    if hi == i + 1 {
      assert RowPairs(i, hi, q) == {};
    } else {
      RowListPairs(cosine, labels, q, i, hi - 1);
      RowPairsStep(i, hi - 1, q);
    }
  }

  /** The list holds one entry for each accepted pair of the first r rows, and no other. */
  lemma {:induction false} PairListPairs(cosine: Cosine, labels: Labels, q: PairTest, n: nat, r: nat)
    requires r <= n
    ensures |PairList(cosine, labels, q, n, r)| == |PairsBelowRow(n, r, q)|
    ensures forall x :: x in PairList(cosine, labels, q, n, r) <==>
      (x.a, x.b) in PairsBelowRow(n, r, q) && x == Entry(cosine, labels, x.a, x.b)
  {
    AllRows(n, q);
    if r > 0 {
      PairListPairs(cosine, labels, q, n, r - 1);
      RowListPairs(cosine, labels, q, r - 1, n);
      AddRow(n, r - 1, q);
    }
  }

  function ByCosine(): (WindowPair, WindowPair) -> bool {
    (x: WindowPair, y: WindowPair) => x.cosine >= y.cosine
  }

  /** The k most similar entries, equal ones in list order. */
  function Sample(pairs: seq<WindowPair>, size: int): seq<WindowPair> {
    SortPermutes(pairs, ByCosine());
    var k := if size < 0 then 0 else size;
    StableSort(pairs, ByCosine())[..if k < |pairs| then k else |pairs|]
  }

  function AuditOf(labels: Labels, pairs: seq<WindowPair>, overMerge: nat, size: int): Audit {
    Audit(|pairs|,
          if labels.Some? then Some(overMerge) else None,
          if labels.Some? && |pairs| > 0 then Some(overMerge as real / |pairs| as real) else None,
          Sample(pairs, size))
  }

  /** None stands for the length-mismatch error. */
  method CountMergeWindowPairs(cosine: Cosine, n: nat, merge: real, tight: real, labels: Labels, size: int, blockRows: nat)
    returns (r: Option<Audit>)
    requires blockRows > 0
    ensures r.None? <==> !LabelsFit(labels, n)
    ensures r.Some? ==>
      var q := InWindow(cosine, merge, tight);
      r.value == AuditOf(labels, PairList(cosine, labels, q, n, n), |PairsWhere(n, UnrelatedIn(q, labels))|, size)
  {
    hide PairsBelowRow, PairsWhere, RowPairs, AuditOf, RowList;
    if !LabelsFit(labels, n) { return None; }
    ghost var q := InWindow(cosine, merge, tight);
    ghost var u := UnrelatedIn(q, labels);
    AllRows(n, u);
    if n < 2 {
      PairListPairs(cosine, labels, q, n, n);
      AllRows(n, q);
      assert PairList(cosine, labels, q, n, n) == [];
      return Some(AuditOf(labels, [], 0, size));
    }
    var windowPairs, overMerge := [], 0;
    var start := 0;
    while start < n
      invariant start >= 0
      invariant windowPairs == PairList(cosine, labels, q, n, if start < n then start else n)
      invariant overMerge == |PairsBelowRow(n, if start < n then start else n, u)|
    {
      var stop := if start + blockRows < n then start + blockRows else n;
      var sims := Block(cosine, start, stop, n);
      for localRow := 0 to stop - start
        invariant windowPairs == PairList(cosine, labels, q, n, start + localRow)
        invariant overMerge == |PairsBelowRow(n, start + localRow, u)|
      {
        var i := start + localRow;
        var found, unrelated := ScanRow(cosine, n, merge, tight, labels, i, sims[localRow]);
        AddRow(n, i, u);
        windowPairs, overMerge := windowPairs + found, overMerge + unrelated;
      }
      start := start + blockRows;
    }
    r := Some(AuditOf(labels, windowPairs, overMerge, size));
  }

  /** One row of the pass: the columns strictly after the diagonal. */
  method ScanRow(cosine: Cosine, n: nat, merge: real, tight: real, labels: Labels, i: nat, row: seq<real>)
    returns (found: seq<WindowPair>, unrelated: nat)
    requires i < n && LabelsFit(labels, n) && row == Row(cosine, i, n)
    ensures var q := InWindow(cosine, merge, tight);
      && found == RowList(cosine, labels, q, i, n)
      && unrelated == |RowPairs(i, n, UnrelatedIn(q, labels))|
  {
    ghost var q := InWindow(cosine, merge, tight);
    ghost var u := UnrelatedIn(q, labels);
    found, unrelated := [], 0;
    assert RowPairs(i, i + 1, u) == {};
    for j := i + 1 to n
      invariant found == RowList(cosine, labels, q, i, j)
      invariant unrelated == |RowPairs(i, j, u)|
    {
      RowPairsStep(i, j, u);
      if merge <= row[j] < tight {
        if Unrelated(labels, i, j) { unrelated := unrelated + 1; }
        found := found + [Entry(cosine, labels, i, j)];
      }
    }
  }

  /** The window holds what the loose threshold adds to the tight one, except that pairs between
      thresholds given in the wrong order would be subtracted and are not. */
  lemma WindowIsDifference(cosine: Cosine, n: nat, merge: real, tight: real, labels: Labels)
    ensures var q := InWindow(cosine, merge, tight);
      && |PairList(cosine, labels, q, n, n)| == |PairsWhere(n, q)|
      && (|PairsWhere(n, q)| == |PairsWhere(n, AtLeast(cosine, merge))| - |PairsWhere(n, AtLeast(cosine, tight))|
          <==> PairsWhere(n, InWindow(cosine, tight, merge)) == {})
      && (merge <= tight ==> PairsWhere(n, InWindow(cosine, tight, merge)) == {})
  {
    hide PairsWhere, PairsBelowRow;
    var q := InWindow(cosine, merge, tight);
    PairListPairs(cosine, labels, q, n, n);
    AllRows(n, q);
    EmptyWindow(cosine, n, merge, tight);
    EmptyWindow(cosine, n, tight, merge);
    if merge <= tight {
      ThresholdsNest(cosine, n, merge, tight);
    } else {
      ThresholdsNest(cosine, n, tight, merge);
      var reversed := PairsWhere(n, InWindow(cosine, tight, merge));
      assert reversed == {} <==> |reversed| == 0;
    }
  }

  lemma EmptyWindow(cosine: Cosine, n: nat, lo: real, hi: real)
    ensures lo >= hi ==> PairsWhere(n, InWindow(cosine, lo, hi)) == {}
  {
  }

  lemma ThresholdsNest(cosine: Cosine, n: nat, lo: real, hi: real)
    requires lo <= hi
    ensures |PairsWhere(n, AtLeast(cosine, lo))| ==
      |PairsWhere(n, AtLeast(cosine, hi))| + |PairsWhere(n, InWindow(cosine, lo, hi))|
  {
    var loose, strict := PairsWhere(n, AtLeast(cosine, lo)), PairsWhere(n, AtLeast(cosine, hi));
    var between := PairsWhere(n, InWindow(cosine, lo, hi));
    assert strict !! between;
    assert loose == strict + between;
  }

  /** The sample is a top-k of the window pairs by cosine. */
  lemma SampleIsTop(pairs: seq<WindowPair>, size: int)
    ensures |Sample(pairs, size)| == (if size < 0 then 0 else if size < |pairs| then size else |pairs|)
    ensures exists rest: seq<WindowPair> ::
      && multiset(Sample(pairs, size)) + multiset(rest) == multiset(pairs)
      && forall x, y :: x in Sample(pairs, size) && y in rest ==> x.cosine >= y.cosine
    ensures SortedBy(Sample(pairs, size), ByCosine())
  {
    hide StableSort, SortedBy;
    var sorted := StableSort(pairs, ByCosine());
    SortPermutes(pairs, ByCosine());
    SortSorts(pairs, ByCosine());
    var k := |Sample(pairs, size)|;
    var rest := sorted[k..];
    assert sorted == sorted[..k] + rest;
    forall x, y | x in sorted[..k] && y in rest ensures x.cosine >= y.cosine {
      SortedSplit(sorted, ByCosine(), k, x, y);
    }
    SortedPrefix(sorted, k);
  }

  lemma SortedPrefix(s: seq<WindowPair>, k: nat)
    requires SortedBy(s, ByCosine()) && k <= |s|
    ensures SortedBy(s[..k], ByCosine())
  {
  }

  // ---------- the audit record ----------

  /** Row by row, and column by column within a row. */
  function Lex(): (WindowPair, WindowPair) -> bool {
    (x: WindowPair, y: WindowPair) => x.a < y.a || (x.a == y.a && x.b < y.b)
  }

  lemma {:induction false} RowListLex(cosine: Cosine, labels: Labels, q: PairTest, i: nat, hi: nat)
    ensures SortedBy(RowList(cosine, labels, q, i, hi), Lex())
    ensures forall x :: x in RowList(cosine, labels, q, i, hi) ==> x.a == i && x.b < hi
  {
    if hi > i + 1 { RowListLex(cosine, labels, q, i, hi - 1); }
  }

  lemma {:induction false} PairListLex(cosine: Cosine, labels: Labels, q: PairTest, n: nat, r: nat)
    ensures SortedBy(PairList(cosine, labels, q, n, r), Lex())
    ensures forall x :: x in PairList(cosine, labels, q, n, r) ==> x.a < r
  {
    if r > 0 {
      PairListLex(cosine, labels, q, n, r - 1);
      RowListLex(cosine, labels, q, r - 1, n);
      LexJoin(PairList(cosine, labels, q, n, r - 1), RowList(cosine, labels, q, r - 1, n), r - 1);
    }
  }

  lemma LexJoin(s: seq<WindowPair>, t: seq<WindowPair>, r: nat)
    requires SortedBy(s, Lex()) && SortedBy(t, Lex())
    requires (forall x :: x in s ==> x.a < r) && (forall x :: x in t ==> x.a == r)
    ensures SortedBy(s + t, Lex())
  {
    forall i, j | 0 <= i < j < |s + t| ensures Lex()((s + t)[i], (s + t)[j]) {
      if i < |s| { assert s[i] in s; }
      if j >= |s| { assert t[j - |s|] in t; }
    }
  }

  /** x comes before y in the sample: a higher cosine, or the same one in an earlier row or column. */
  predicate Precedes(x: WindowPair, y: WindowPair) {
    x.cosine > y.cosine || (x.cosine == y.cosine && (x.a < y.a || (x.a == y.a && x.b < y.b)))
  }

  /** What the entry of a window pair says: two clusters without a shared topic or channel are an over-merge,
      and without labels nobody knows. */
  ghost predicate Describes(cosine: Cosine, labels: Labels, x: WindowPair) {
    && x.cosine == cosine(x.a, x.b)
    && match labels
       case None => x.overMerge == None
       case Some(ls) =>
         && x.a < |ls| && x.b < |ls|
         && x.overMerge == Some(ls[x.a].topic != ls[x.b].topic && ls[x.a].channels * ls[x.b].channels == {})
  }

  ghost predicate InOrder(s: seq<WindowPair>) {
    forall i, j :: 0 <= i < j < |s| ==> Precedes(s[i], s[j])
  }

  lemma SortedInOrder(pairs: seq<WindowPair>)
    requires SortedBy(pairs, Lex())
    ensures InOrder(StableSort(pairs, ByCosine()))
  {
    SortSorts(pairs, ByCosine());
    SortStable(pairs, ByCosine(), Lex());
    var sorted := StableSort(pairs, ByCosine());
    hide StableSort;
    forall i, j | 0 <= i < j < |sorted| ensures Precedes(sorted[i], sorted[j]) {
      assert ByCosine()(sorted[i], sorted[j]);
    }
  }

  /** A leading part of an ordered list precedes whatever else is in it. */
  lemma LeadingPart(pairs: seq<WindowPair>, sorted: seq<WindowPair>, k: nat, x: WindowPair)
    requires InOrder(sorted) && k <= |sorted| && x in sorted
    ensures InOrder(sorted[..k])
    ensures x in sorted[..k] || forall y :: y in sorted[..k] ==> Precedes(y, x)
  {
    var i :| 0 <= i < |sorted| && sorted[i] == x;
    if i < k { assert sorted[..k][i] == x; }
  }

  /** The sample is the first of the window pairs in falling cosine, ties by row and column. */
  lemma SampleExactly(cosine: Cosine, n: nat, merge: real, tight: real, labels: Labels, size: int)
    requires LabelsFit(labels, n)
    ensures var sample := Sample(PairList(cosine, labels, InWindow(cosine, merge, tight), n, n), size);
      && InOrder(sample)
      && (forall x :: x in sample ==> x.a < x.b < n && merge <= x.cosine < tight && Describes(cosine, labels, x))
      && (forall a: nat, b: nat :: a < b < n && merge <= cosine(a, b) < tight ==>
            var x := Entry(cosine, labels, a, b);
            x in sample || forall y :: y in sample ==> Precedes(y, x))
  {
    var pairs := PairList(cosine, labels, InWindow(cosine, merge, tight), n, n);
    PairListLex(cosine, labels, InWindow(cosine, merge, tight), n, n);
    SampleLeads(pairs, size);
    var sample := Sample(pairs, size);
    assert forall a: nat, b: nat :: Entry(cosine, labels, a, b).a == a && Entry(cosine, labels, a, b).b == b;
    hide PairList, Sample, InOrder, Precedes, Entry, Describes;
    forall x: WindowPair
      ensures x in pairs <==> x.a < x.b < n && merge <= cosine(x.a, x.b) < tight && x == Entry(cosine, labels, x.a, x.b)
      ensures x in pairs ==> Describes(cosine, labels, x) && x.cosine == cosine(x.a, x.b)
    {
      WindowEntry(cosine, n, merge, tight, labels, x);
    }
    forall a: nat, b: nat | a < b < n && merge <= cosine(a, b) < tight
      ensures var x := Entry(cosine, labels, a, b); x in sample || forall y :: y in sample ==> Precedes(y, x)
    {
      assert Entry(cosine, labels, a, b) in pairs;
    }
  }

  lemma WindowEntry(cosine: Cosine, n: nat, merge: real, tight: real, labels: Labels, x: WindowPair)
    requires LabelsFit(labels, n)
    ensures x in PairList(cosine, labels, InWindow(cosine, merge, tight), n, n) <==>
      x.a < x.b < n && merge <= cosine(x.a, x.b) < tight && x == Entry(cosine, labels, x.a, x.b)
    ensures x in PairList(cosine, labels, InWindow(cosine, merge, tight), n, n) ==>
      Describes(cosine, labels, x) && x.cosine == cosine(x.a, x.b)
  {
    PairListPairs(cosine, labels, InWindow(cosine, merge, tight), n, n);
    hide PairList;
  }

  /** The sample comes from the pairs, is in order, and precedes all pairs it leaves out. */
  lemma SampleLeads(pairs: seq<WindowPair>, size: int)
    requires SortedBy(pairs, Lex())
    ensures var sample := Sample(pairs, size);
      && InOrder(sample) && (forall x :: x in sample ==> x in pairs)
      && forall x :: x in pairs ==> x in sample || forall y :: y in sample ==> Precedes(y, x)
  {
    SortMembers(pairs, ByCosine());
    SortedInOrder(pairs);
    SortPermutes(pairs, ByCosine());
    var sorted, sample := StableSort(pairs, ByCosine()), Sample(pairs, size);
    assert sample == sorted[..|sample|] && InOrder([]);
    hide StableSort, Sample, InOrder, Precedes;
    forall x | x in sample ensures x in pairs { assert x in sorted; }
    forall x | x in pairs ensures x in sample || forall y :: y in sample ==> Precedes(y, x) {
      LeadingPart(pairs, sorted, |sample|, x);
    }
    if sample != [] { LeadingPart(pairs, sorted, |sample|, sorted[0]); }
  }

  /** The numbers of the audit: how many pairs the looser threshold adds, how many of them join unrelated
      clusters, and the share of these, the last two for labelled clusters only. */
  lemma AuditExactly(cosine: Cosine, n: nat, merge: real, tight: real, labels: Labels, size: int)
    requires LabelsFit(labels, n)
    ensures var q := InWindow(cosine, merge, tight);
      var audit := AuditOf(labels, PairList(cosine, labels, q, n, n), |PairsWhere(n, UnrelatedIn(q, labels))|, size);
      var added := set i: nat, j: nat | i < n && j < n && i < j && merge <= cosine(i, j) < tight :: (i, j);
      && audit.windowCount == |added|
      && audit.sample == Sample(PairList(cosine, labels, q, n, n), size)
      && (labels.None? ==> audit.overMerges == None && audit.fraction == None)
      && (labels.Some? ==>
            var ls := labels.value;
            var wrong := set i: nat, j: nat | i < n && j < n && i < j && merge <= cosine(i, j) < tight
              && ls[i].topic != ls[j].topic && ls[i].channels * ls[j].channels == {} :: (i, j);
            && audit.overMerges == Some(|wrong|)
            && audit.fraction == (if added == {} then None else Some(|wrong| as real / |added| as real)))
  {
    var q := InWindow(cosine, merge, tight);
    PairListPairs(cosine, labels, q, n, n);
    AllRows(n, q);
    WindowLiterally(cosine, n, merge, tight);
    if labels.Some? { UnrelatedLiterally(cosine, n, merge, tight, labels); }
    var added := PairsWhere(n, q);
    assert added == {} <==> |added| == 0;
    hide PairsWhere, PairsBelowRow, PairList, Unrelated, Related;
  }

  lemma WindowLiterally(cosine: Cosine, n: nat, merge: real, tight: real)
    ensures PairsWhere(n, InWindow(cosine, merge, tight)) ==
      set i: nat, j: nat | i < n && j < n && i < j && merge <= cosine(i, j) < tight :: (i, j)
  {
  }

  lemma UnrelatedLiterally(cosine: Cosine, n: nat, merge: real, tight: real, labels: Labels)
    requires labels.Some? && |labels.value| == n
    ensures var ls := labels.value;
      PairsWhere(n, UnrelatedIn(InWindow(cosine, merge, tight), labels)) ==
      set i: nat, j: nat | i < n && j < n && i < j && merge <= cosine(i, j) < tight
        && ls[i].topic != ls[j].topic && ls[i].channels * ls[j].channels == {} :: (i, j)
  {
    var q, ls := UnrelatedIn(InWindow(cosine, merge, tight), labels), labels.value;
    forall i: nat, j: nat | i < n && j < n
      ensures q(i, j) <==>
        merge <= cosine(i, j) < tight && ls[i].topic != ls[j].topic && ls[i].channels * ls[j].channels == {}
    {
      assert Unrelated(labels, i, j) <==> !Related(ls[i], ls[j]);
    }
  }

  /** The duplicates are the pairs at or above the threshold. */
  lemma DuplicatesExactly(cosine: Cosine, n: nat, threshold: real)
    ensures PairsWhere(n, AtLeast(cosine, threshold)) ==
      set i: nat, j: nat | i < n && j < n && i < j && cosine(i, j) >= threshold :: (i, j)
  {
  }

  // ---------- row maxima ----------

  function SeqMax(s: seq<real>): (m: real)
    requires s != []
    ensures m in s && forall x :: x in s ==> x <= m
  {
    var last := s[|s| - 1];
    if |s| == 1 then last
    else
      var m := SeqMax(s[..|s| - 1]);
      assert s == s[..|s| - 1] + [last];
      if last > m then last else m
  }

  /** m bounds every other column of row i and the -1 written over the diagonal, and is one of them. */
  ghost predicate IsRowMax(cosine: Cosine, n: nat, i: nat, m: real) {
    && m >= -1.0
    && (forall j: nat :: j < n && j != i ==> cosine(i, j) <= m)
    && (m == -1.0 || exists j: nat :: j < n && j != i && cosine(i, j) == m)
  }

  /** Each row's maximum over the other columns, for any block size. */
  method RowMaxima(cosine: Cosine, n: nat, blockRows: nat) returns (out: seq<real>)
    requires blockRows > 0
    ensures |out| == n
    ensures n < 2 ==> forall i :: 0 <= i < n ==> out[i] == 0.0
    ensures n >= 2 ==> forall i :: 0 <= i < n ==> IsRowMax(cosine, n, i, out[i])
  {
    hide IsRowMax, SeqMax;
    if n < 2 { return seq(n, _ => 0.0); }
    out := [];
    var start := 0;
    while start < n
      invariant start >= 0
      invariant |out| == if start < n then start else n
      invariant forall i :: 0 <= i < |out| ==> IsRowMax(cosine, n, i, out[i])
    {
      var stop := if start + blockRows < n then start + blockRows else n;
      var sims := Block(cosine, start, stop, n);
      for localRow := 0 to stop - start
        invariant |sims| == stop - start
        invariant forall r :: localRow <= r < |sims| ==> sims[r] == Row(cosine, start + r, n)
        invariant |out| == start + localRow
        invariant forall i :: 0 <= i < |out| ==> IsRowMax(cosine, n, i, out[i])
      {
        var globalRow := start + localRow;
        sims := sims[localRow := sims[localRow][globalRow := -1.0]];
        MaskedMax(cosine, n, globalRow);
        out := out + [SeqMax(sims[localRow])];
      }
      start := start + blockRows;
    }
  }

  lemma MaskedMax(cosine: Cosine, n: nat, i: nat)
    requires i < n
    ensures IsRowMax(cosine, n, i, SeqMax(Row(cosine, i, n)[i := -1.0]))
  {
    var row := Row(cosine, i, n)[i := -1.0];
    var m := SeqMax(row);
    assert row[i] in row;
    forall j: nat | j < n && j != i ensures cosine(i, j) <= m { assert row[j] in row; }
    var k: nat :| k < n && row[k] == m;
  }

  /** The reported value is the true maximum over the other rows exactly when one reaches -1. */
  lemma RowMaxExact(cosine: Cosine, n: nat, i: nat, m: real)
    requires IsRowMax(cosine, n, i, m)
    ensures (exists j: nat :: j < n && j != i && cosine(i, j) == m) <==>
      (exists j: nat :: j < n && j != i && cosine(i, j) >= -1.0)
  {
    if j: nat :| j < n && j != i && cosine(i, j) >= -1.0 {
      assert m == -1.0 ==> cosine(i, j) == m;
    }
  }
}
