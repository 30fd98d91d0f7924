/** Exactly on which post times the two clusterers agree: on those for which no possible cluster, once found
    closed by a post, is open again for a later one. */
module Reopening {
  import opened Clustering

  /** Both programs report the same clusters. */
  ghost predicate Agree<V>(ops: Ops<V>, prm: Params, posts: seq<Post<V>>) {
    Dropping(ops, prm, posts, |posts|).0.clusters == Rescan(ops, prm, posts, |posts|).clusters
  }

  function PostsAt(ts: seq<real>, vecs: seq<int>): (posts: seq<Post<int>>)
    requires |ts| == |vecs|
    ensures |posts| == |ts|
    ensures forall i :: 0 <= i < |ts| ==> posts[i] == Post(ts[i], vecs[i])
    ensures Times(posts) == ts
  {
    var posts := seq(|ts|, i requires 0 <= i < |ts| => Post(ts[i], vecs[i]));
    assert Times(posts) == ts;
    posts
  }

  // ---------- a reopening, and vectors that show it ----------

  /** Equal vectors just reach the threshold, others miss it; a centroid stays what it was. */
  function Matching(prm: Params): Ops<int> {
    Ops((x: int, y: int) => if x == y then prm.threshold else prm.threshold - 1.0, (x: int, n: nat, y: int) => x)
  }

  /** The posts of m and post k share one vector; every other post has its own. */
  function Marked(n: nat, m: seq<nat>, k: nat): (vecs: seq<int>)
    ensures |vecs| == n
    ensures forall i :: 0 <= i < n ==> vecs[i] == if i in m || i == k then -1 else i
  {
    seq(n, i => if i in m || i == k then -1 else i)
  }

  /** The rescan's state once l members of m have come: cluster m[0] consists of them. */
  ghost predicate Built(s: State<int>, ts: seq<real>, m: seq<nat>, n: nat, l: nat)
    requires l <= |m| && forall k :: 0 <= k < |m| ==> m[k] < |ts|
  {
    && Consistent(s)
    && (forall c :: 0 <= c < |s.cent| ==> -1 <= s.cent[c] < n && (s.cent[c] == -1 <==> l > 0 && c == m[0]))
    && (l == 0 ==> |s.clusters| == n)
    && (l > 0 ==>
          && m[0] < |s.clusters| && s.clusters[m[0]] == m[..l]
          && s.first[m[0]] == ts[m[0]] && s.last[m[0]] == ts[m[l - 1]])
  }

  /** Exactly l members of m lie among the first n posts. */
  ghost predicate Arrived(m: seq<nat>, n: nat, l: nat) {
    l <= |m| && (l > 0 ==> m[l - 1] < n) && (l < |m| ==> n <= m[l])
  }

  lemma {:induction false} ChainIncreases(ts: seq<real>, prm: Params, m: seq<nat>, i: nat, j: nat)
    requires Chain(ts, prm, m) && i < j < |m|
    ensures m[i] < m[j]
  {
    if i < j - 1 { ChainIncreases(ts, prm, m, i, j - 1); }
  }

  lemma NoneMatches(prm: Params, s: State<int>, p: Post<int>)
    requires Consistent(s) && forall c :: 0 <= c < |s.cent| ==> s.cent[c] != p.vec
    ensures Decision(Matching(prm), prm, s, p) == NoCluster
  {
    PlacementRule(Matching(prm), prm, s, p);
  }

  lemma OneMatches(prm: Params, s: State<int>, p: Post<int>, b: nat)
    requires Consistent(s) && b < |s.clusters| && Open(s, prm, b, p.at)
    requires forall c :: 0 <= c < |s.cent| ==> (s.cent[c] == p.vec <==> c == b)
    ensures Decision(Matching(prm), prm, s, p) == Found(b)
  {
    PlacementRule(Matching(prm), prm, s, p);
    assert Sim(Matching(prm), s, p, b) == prm.threshold;
  }

  lemma {:induction false} Builds(ts: seq<real>, prm: Params, m: seq<nat>, k: nat, n: nat, l: nat)
    requires Chain(ts, prm, m) && m[|m| - 1] < k < |ts| && n <= k && Arrived(m, n, l)
    ensures Built(Rescan(Matching(prm), prm, PostsAt(ts, Marked(|ts|, m, k)), n), ts, m, n, l)
  {
    assert Built(State([], [], [], []), ts, m, 0, 0);
    hide Built, Place, Choose, OpenOf, Upto, Chain;
    var posts := PostsAt(ts, Marked(|ts|, m, k));
    ChainInRange(ts, prm, m);
    if n > 0 {
      var l' := if l > 0 && m[l - 1] == n - 1 then l - 1 else l;
      if l' > 0 && l' < l { ChainIncreases(ts, prm, m, l' - 1, l - 1); }
      Builds(ts, prm, m, k, n - 1, l');
      MemberOrNot(ts, prm, m, n - 1, l', l);
      BuildStep(ts, prm, m, Rescan(Matching(prm), prm, posts, n - 1), posts[n - 1], n - 1, l', l);
    }
  }

  lemma ChainInRange(ts: seq<real>, prm: Params, m: seq<nat>)
    requires Chain(ts, prm, m)
    ensures m != [] && forall k :: 0 <= k < |m| ==> m[k] < |ts|
  {
  }

  lemma MemberOrNot(ts: seq<real>, prm: Params, m: seq<nat>, i: nat, l': nat, l: nat)
    requires Chain(ts, prm, m) && Arrived(m, i, l') && Arrived(m, i + 1, l)
    requires l' == if l > 0 && m[l - 1] == i then l - 1 else l
    ensures i in m <==> l' < l
  {
    if x: nat :| x < |m| && m[x] == i {
      if x < l - 1 { ChainIncreases(ts, prm, m, x, l - 1); }
      if l < x { ChainIncreases(ts, prm, m, l, x); }
    }
  }

  /** Another post seeds a cluster, the first member seeds cluster m[0], and each further one joins it. */
  lemma BuildStep(ts: seq<real>, prm: Params, m: seq<nat>, s: State<int>, p: Post<int>, i: nat, l': nat, l: nat)
    requires Chain(ts, prm, m) && i < |ts| && Arrived(m, i, l') && Arrived(m, i + 1, l)
    requires l' == if l > 0 && m[l - 1] == i then l - 1 else l
    requires Built(s, ts, m, i, l') && p == Post(ts[i], if l' < l then -1 else i)
    ensures Built(Place(Matching(prm), s, i, p, Decision(Matching(prm), prm, s, p)), ts, m, i + 1, l)
  {
    if 0 < l' < l {
      OneMatches(prm, s, p, m[0]);
      assert m[..l] == m[..l'] + [i];
    } else {
      NoneMatches(prm, s, p);
      if l' < l { assert m[..l] == [i]; }
    }
  }

  /** Nothing that stays out of the candidates can be chosen. */
  lemma {:induction false} PickNone(prm: Params, s: State<int>, p: Post<int>, candidates: seq<nat>, n: nat)
    requires n <= |candidates|
    requires forall c :: c in candidates ==> c < |s.cent| && s.cent[c] != p.vec
    ensures Pick(Matching(prm), prm, s, p, candidates, n) == NoCluster
  {
    if n > 0 {
      PickNone(prm, s, p, candidates, n - 1);
      assert candidates[n - 1] in candidates;
    }
  }

  /** Once post j has found the cluster of m closed, the harness no longer looks at it. */
  lemma {:induction false} StaysDropped(ts: seq<real>, prm: Params, m: seq<nat>, j: nat, k: nat, n: nat)
    requires Chain(ts, prm, m) && m[|m| - 1] < j < n <= k < |ts| && !OpenTo(ts, prm, m, ts[j])
    requires NeverReopens(ts, prm, k)
    ensures m[0] !in Dropping(Matching(prm), prm, PostsAt(ts, Marked(|ts|, m, k)), n).1
  {
    hide Choose, Place, OpenOf, Upto, Rescan, NeverReopens;
    var ops, posts := Matching(prm), PostsAt(ts, Marked(|ts|, m, k));
    NeverReopensBefore(ts, prm, k, n - 1);
    var (s, active) := Dropping(ops, prm, posts, n - 1);
    DroppingAgrees(ops, prm, posts, n - 1);
    Builds(ts, prm, m, k, n - 1, |m|);
    OpenOfAreOpen(s, prm, active, posts[n - 1].at);
    if n - 1 > j { StaysDropped(ts, prm, m, j, k, n - 1); }
  }

  lemma NeverReopensBefore(ts: seq<real>, prm: Params, k: nat, n: nat)
    requires NeverReopens(ts, prm, k) && n <= k
    ensures NeverReopens(ts, prm, n)
  {
  }

  /** Post k joins the cluster of m in the rescan, and seeds one of its own in the harness. */
  lemma {:induction false} PartWays(ts: seq<real>, prm: Params, m: seq<nat>, j: nat, k: nat)
    requires j < k < |ts| && Reopens(ts, prm, m, j, ts[k]) && NeverReopens(ts, prm, k)
    ensures var ops, posts := Matching(prm), PostsAt(ts, Marked(|ts|, m, k));
      var harness := Dropping(ops, prm, posts, k + 1).0.clusters;
      && Owner(ops, prm, posts, k) == m[0] < |harness| - 1
      && harness[|harness| - 1] == [k]
  {
    hide OpenOf, Upto, NeverReopens, Pick, Rescan, Chain;
    var ops, posts := Matching(prm), PostsAt(ts, Marked(|ts|, m, k));
    var (s, active) := Dropping(ops, prm, posts, k);
    ChainInRange(ts, prm, m);
    DroppingAgrees(ops, prm, posts, k);
    Builds(ts, prm, m, k, k, |m|);
    OneMatches(prm, s, posts[k], m[0]);
    StaysDropped(ts, prm, m, j, k, k);
    OpenOfAreOpen(s, prm, active, posts[k].at);
    var kept := OpenOf(s, prm, active, posts[k].at);
    PickNone(prm, s, posts[k], kept, |kept|);
  }

  /** The first member of a cluster of the harness stays its first member. */
  lemma {:induction false} HeadsStay<V>(ops: Ops<V>, prm: Params, posts: seq<Post<V>>, from: nat, n: nat, c: nat)
    requires from <= n <= |posts| && c < |Dropping(ops, prm, posts, from).0.clusters|
    ensures var before, after := Dropping(ops, prm, posts, from).0.clusters, Dropping(ops, prm, posts, n).0.clusters;
      c < |after| && before[c] != [] && after[c] != [] && after[c][0] == before[c][0]
  {
    hide Place, Choose, OpenOf;
    if from == n {
      DroppingConsistent(ops, prm, posts, from);
    } else {
      HeadsStay(ops, prm, posts, from, n - 1, c);
      var (s, active) := Dropping(ops, prm, posts, n - 1);
      HeadStays(ops, s, n - 1, posts[n - 1], Choose(ops, prm, s, posts[n - 1], OpenOf(s, prm, active, posts[n - 1].at)), c);
    }
  }

  lemma HeadStays<V>(ops: Ops<V>, s: State<V>, i: nat, p: Post<V>, best: Choice, c: nat)
    requires c < |s.clusters| && s.clusters[c] != []
    ensures var after := Place(ops, s, i, p, best).clusters;
      c < |after| && after[c] != [] && after[c][0] == s.clusters[c][0]
  {
  }

  ghost predicate SomeDisagree(ts: seq<real>, prm: Params) {
    exists ops: Ops<int>, vecs: seq<int> :: |vecs| == |ts| && !Agree(ops, prm, PostsAt(ts, vecs))
  }

  /** A possible cluster that reopens makes the clusterers differ on some vectors. */
  lemma {:induction false} ReopeningDiffers(ts: seq<real>, prm: Params, m: seq<nat>, j: nat, k: nat)
    requires j < k < |ts| && Reopens(ts, prm, m, j, ts[k])
    ensures SomeDisagree(ts, prm)
    decreases k
  {
    hide Reopens, Dropping, Rescan, Owner;
    if k': nat, m': seq<nat>, j': nat :| j' < k' < k && Reopens(ts, prm, m', j', ts[k']) {
      ReopeningDiffers(ts, prm, m', j', k');
    } else {
      var ops, posts := Matching(prm), PostsAt(ts, Marked(|ts|, m, k));
      PartWays(ts, prm, m, j, k);
      var c := |Dropping(ops, prm, posts, k + 1).0.clusters| - 1;
      HeadsStay(ops, prm, posts, k + 1, |ts|, c);
      ClustersPartitionPosts(ops, prm, posts, |ts|, c, k);
      assert !Agree(ops, prm, posts);
    }
  }

  /** For given times and parameters the two programs agree on all vectors, similarities and centroid
      updates exactly when no possible cluster reopens. */
  lemma AgreeExactly(ts: seq<real>, prm: Params)
    ensures NeverReopens(ts, prm, |ts|) <==> !SomeDisagree(ts, prm)
  {
    hide Reopens;
    if NeverReopens(ts, prm, |ts|) {
      forall ops: Ops<int>, vecs: seq<int> | |vecs| == |ts| ensures Agree(ops, prm, PostsAt(ts, vecs)) {
        DroppingAgrees(ops, prm, PostsAt(ts, vecs), |ts|);
      }
    } else {
      var k: nat :| k < |ts| && !StaysClosed(ts, prm, k, ts[k]);
      var m: seq<nat>, j: nat :| j < k && Reopens(ts, prm, m, j, ts[k]);
      ReopeningDiffers(ts, prm, m, j, k);
    }
  }

  /** Times that go back can do it: with a window of one second, times 0, 5, 0. */
  lemma UnsortedTimesDiffer()
    ensures SomeDisagree([0.0, 5.0, 0.0], Params(1.0, 1.0, 9.0))
  {
    var ts, prm := [0.0, 5.0, 0.0], Params(1.0, 1.0, 9.0);
    assert Reopens(ts, prm, [0], 1, ts[2]);
    ReopeningDiffers(ts, prm, [0], 1, 2);
  }
}
