/** Python's `sorted`: a stable sort by a comparison, with the facts its callers rely on. */
module Sorting {

  ghost predicate TotalPreorder<T(!new)>(le: (T, T) -> bool) {
    && (forall a, b :: le(a, b) || le(b, a))
    && (forall a, b, c :: le(a, b) && le(b, c) ==> le(a, c))
  }

  ghost predicate SortedBy<T>(s: seq<T>, le: (T, T) -> bool) {
    forall i, j :: 0 <= i < j < |s| ==> le(s[i], s[j])
  }

  ghost predicate Distinct<T>(s: seq<T>) {
    forall i, j :: 0 <= i < j < |s| ==> s[i] != s[j]
  }

  /** Puts x before the first element it may precede, so equal elements keep their order. */
  function Insert<T>(x: T, s: seq<T>, le: (T, T) -> bool): seq<T> {
    if s == [] || le(x, s[0]) then [x] + s else [s[0]] + Insert(x, s[1..], le)
  }

  function StableSort<T>(s: seq<T>, le: (T, T) -> bool): seq<T> {
    if s == [] then [] else Insert(s[0], StableSort(s[1..], le), le)
  }

  lemma {:induction false} InsertPermutes<T>(x: T, s: seq<T>, le: (T, T) -> bool)
    ensures multiset(Insert(x, s, le)) == multiset{x} + multiset(s)
  {
    if s == [] || le(x, s[0]) {
    } else {
      InsertPermutes(x, s[1..], le);
      assert s == [s[0]] + s[1..];
    }
  }

  lemma {:induction false} SortPermutes<T>(s: seq<T>, le: (T, T) -> bool)
    ensures multiset(StableSort(s, le)) == multiset(s)
    ensures |StableSort(s, le)| == |s|
  {
    if s != [] {
      SortPermutes(s[1..], le);
      InsertPermutes(s[0], StableSort(s[1..], le), le);
      assert s == [s[0]] + s[1..];
    }
    assert |multiset(StableSort(s, le))| == |multiset(s)|;
  }

  lemma {:induction false} InsertSorts<T(!new)>(x: T, s: seq<T>, le: (T, T) -> bool)
    requires TotalPreorder(le) && SortedBy(s, le)
    ensures SortedBy(Insert(x, s, le), le)
  {
    if s == [] {
    } else if le(x, s[0]) {
      forall i, j | 0 <= i < j < |s| + 1 ensures le(([x] + s)[i], ([x] + s)[j]) {
        assert i == 0 ==> le(x, s[0]) && (j == 1 || le(s[0], s[j - 1]));
      }
    } else {
      var rest := Insert(x, s[1..], le);
      InsertSorts(x, s[1..], le);
      InsertPermutes(x, s[1..], le);
      forall k | 0 <= k < |rest| ensures le(s[0], rest[k]) {
        assert rest[k] in multiset(rest);
        assert rest[k] == x || rest[k] in s[1..];
      }
    }
  }

  lemma {:induction false} SortSorts<T(!new)>(s: seq<T>, le: (T, T) -> bool)
    requires TotalPreorder(le)
    ensures SortedBy(StableSort(s, le), le)
  {
    if s != [] {
      SortSorts(s[1..], le);
      InsertSorts(s[0], StableSort(s[1..], le), le);
    }
  }

  lemma SortedSplit<T>(s: seq<T>, le: (T, T) -> bool, k: nat, x: T, y: T)
    requires SortedBy(s, le) && k <= |s|
    requires x in s[..k] && y in s[k..]
    ensures le(x, y)
  {
    var i :| 0 <= i < k && s[..k][i] == x;
    var j :| 0 <= j < |s| - k && s[k..][j] == y;
    assert le(s[i], s[k + j]);
  }

  lemma SortMembers<T>(s: seq<T>, le: (T, T) -> bool)
    ensures forall x :: x in s <==> x in StableSort(s, le)
  {
    SortPermutes(s, le);
    forall x ensures x in s <==> x in StableSort(s, le) {
      assert x in s <==> x in multiset(s);
      assert x in StableSort(s, le) <==> x in multiset(StableSort(s, le));
    }
  }

  lemma {:induction false} DistinctMultiplicity<T>(s: seq<T>)
    ensures Distinct(s) <==> forall x :: multiset(s)[x] <= 1
  {
    if s != [] {
      var x, rest := s[0], s[1..];
      assert s == [x] + rest;
      DistinctMultiplicity(rest);
      assert multiset(s) == multiset{x} + multiset(rest);
      if Distinct(s) {
        assert Distinct(rest);
        assert x !in rest;
      }
      if forall y :: multiset(s)[y] <= 1 {
        assert multiset(rest)[x] == 0 by { assert multiset(s)[x] == 1 + multiset(rest)[x]; }
        assert forall y :: multiset(rest)[y] <= multiset(s)[y];
        assert x !in rest;
        forall i, j | 0 <= i < j < |s| ensures s[i] != s[j] {
          if i == 0 { assert s[j] == rest[j - 1]; } else { assert s[i] == rest[i - 1] && s[j] == rest[j - 1]; }
        }
      }
    }
  }

  lemma SortKeepsDistinct<T>(s: seq<T>, le: (T, T) -> bool)
    requires Distinct(s)
    ensures Distinct(StableSort(s, le))
  {
    SortPermutes(s, le);
    DistinctMultiplicity(s);
    DistinctMultiplicity(StableSort(s, le));
  }

  lemma {:induction false} DistinctCardinality<T>(s: seq<T>, members: set<T>)
    requires Distinct(s)
    requires forall x :: x in members <==> x in s
    ensures |members| == |s|
  {
    if s == [] {
      assert members == {};
    } else {
      assert s[0] in s && s == [s[0]] + s[1..];
      DistinctCardinality(s[1..], members - {s[0]});
    }
  }

  /** Entries that are not strictly ordered by rank are ordered by `tie`. */
  ghost predicate StableBy<T>(r: seq<T>, le: (T, T) -> bool, tie: (T, T) -> bool) {
    forall i, j :: 0 <= i < j < |r| ==> (le(r[j], r[i]) ==> tie(r[i], r[j]))
  }

  /** Entries of equal rank keep the order they had. */
  lemma {:induction false} SortStable<T(!new)>(s: seq<T>, le: (T, T) -> bool, tie: (T, T) -> bool)
    requires TotalPreorder(le) && SortedBy(s, tie)
    ensures StableBy(StableSort(s, le), le, tie)
  {
    if s != [] {
      var rest := StableSort(s[1..], le);
      SortStable(s[1..], le, tie);
      SortSorts(s[1..], le);
      SortMembers(s[1..], le);
      forall y | y in rest ensures tie(s[0], y) {
        var k :| 0 <= k < |s| - 1 && s[1..][k] == y;
        assert s[k + 1] == y;
      }
      InsertStable(s[0], rest, le, tie);
    }
  }

  lemma {:induction false} InsertStable<T(!new)>(x: T, s: seq<T>, le: (T, T) -> bool, tie: (T, T) -> bool)
    requires TotalPreorder(le) && SortedBy(s, le) && StableBy(s, le, tie)
    requires forall y :: y in s ==> tie(x, y)
    ensures StableBy(Insert(x, s, le), le, tie)
  {
    if s == [] || le(x, s[0]) {
      var r := [x] + s;
      forall i, j | 0 <= i < j < |r| && le(r[j], r[i]) ensures tie(r[i], r[j]) {
        assert r[j] == s[j - 1];
        if i > 0 { assert r[i] == s[i - 1]; }
      }
    } else {
      var rest := Insert(x, s[1..], le);
      InsertStable(x, s[1..], le, tie);
      InsertPermutes(x, s[1..], le);
      var r := [s[0]] + rest;
      forall i, j | 0 <= i < j < |r| && le(r[j], r[i]) ensures tie(r[i], r[j]) {
        assert r[j] == rest[j - 1];
        if i == 0 {
          assert rest[j - 1] in multiset(rest);
          assert rest[j - 1] in s[1..];
          var m :| 0 <= m < |s| - 1 && s[1..][m] == rest[j - 1];
          assert s[m + 1] == r[j];
        } else {
          assert r[i] == rest[i - 1];
        }
      }
    }
  }
}
